/** The dialog classifier of `CopilotChatAnalyzer`: request counting, the
    five-way status with its precedence on the last request, the status-detail
    record and the session identity found in request metadata. */
module AnalyzerStatus {
  import opened Optional
  import opened JsonValue

  datatype DialogStatus = Pending | Completed | Canceled | InProgress | Failed

  /** The string values of `DialogStatus`. */
  function StatusName(s: DialogStatus): string {
    match s
    case Pending => "pending"
    case Completed => "completed"
    case Canceled => "canceled"
    case InProgress => "in_progress"
    case Failed => "failed"
  }

  /** The fixed status-to-text table of `getDialogStatusDetails`. */
  function StatusText(s: DialogStatus): string {
    match s
    case Pending => "Dialog not started"
    case Completed => "Dialog completed successfully"
    case Canceled => "Dialog was canceled"
    case InProgress => "Dialog in progress"
    case Failed => "Dialog failed with error"
  }

  /** `chatData.requests` when it is an array (`Array.isArray`). */
  function RequestList(chat: Json): Option<seq<Json>> {
    match Prop(chat, "requests")
    case Some(JArr(xs)) => Some(xs)
    case _ => None
  }

  predicate HasRequests(chat: Json) {
    RequestList(chat).Some? && |RequestList(chat).value| > 0
  }

  function LastRequest(chat: Json): Json
    requires HasRequests(chat)
  {
    var xs := RequestList(chat).value;
    xs[|xs| - 1]
  }

  /** `getRequestsCount`: never throws, not even for `null`. */
  function GetRequestsCount(chat: Json): (n: nat)
    ensures n > 0 <==> HasRequests(chat)
    ensures HasRequests(chat) ==> n == |RequestList(chat).value|
  {
    if !Truthy(Some(chat)) then 0
    else match RequestList(chat)
      case Some(xs) => |xs|
      case None => 0
  }

  // The signals of one request, read the way the classifier reads them.

  predicate CanceledFlag(req: Json) {
    Prop(req, "isCanceled") == Some(JBool(true))
  }

  /** `req?.result?.errorDetails` */
  function ErrorDetails(req: Json): Option<Json> {
    OptProp(OptProp(Some(req), "result"), "errorDetails")
  }

  predicate HasErrorDetails(req: Json) {
    Truthy(ErrorDetails(req))
  }

  predicate ErrorCodeCanceled(req: Json) {
    HasErrorDetails(req) && Prop(ErrorDetails(req).value, "code") == Some(JStr("canceled"))
  }

  predicate EmptyFollowups(req: Json) {
    HasKey(req, "followups") && req.fields["followups"] == JArr([])
  }

  /** Values on which the `in` operator does not throw. */
  predicate IsContainer(req: Json) {
    req.JObj? || req.JArr?
  }

  /** The status decided by the last request. Precedence: a falsy element is
      pending; `isCanceled === true` wins over everything; then error details
      (canceled when their code is "canceled", failed otherwise); then an
      empty `followups` array means completed; anything else is in progress.
      A truthy primitive reaches the `in` test and throws. */
  function LastRequestStatus(last: Json): (r: Eval<DialogStatus>)
    ensures r == Returns(Pending) <==> !Truthy(Some(last))
    ensures r == Returns(Canceled) <==>
      Truthy(Some(last)) && (CanceledFlag(last) || ErrorCodeCanceled(last))
    ensures r == Returns(Failed) <==>
      Truthy(Some(last)) && !CanceledFlag(last) && HasErrorDetails(last) && !ErrorCodeCanceled(last)
    ensures r == Returns(Completed) <==>
      Truthy(Some(last)) && !CanceledFlag(last) && !HasErrorDetails(last) && EmptyFollowups(last)
    ensures r == Returns(InProgress) <==>
      Truthy(Some(last)) && !CanceledFlag(last) && !HasErrorDetails(last) && IsContainer(last) && !EmptyFollowups(last)
    ensures r == Throws <==>
      Truthy(Some(last)) && !CanceledFlag(last) && !HasErrorDetails(last) && !IsContainer(last)
  {
    if !Truthy(Some(last)) then Returns(Pending)
    else if CanceledFlag(last) then Returns(Canceled)
    else if HasErrorDetails(last) then
      (if Prop(ErrorDetails(last).value, "code") == Some(JStr("canceled")) then Returns(Canceled) else Returns(Failed))
    else if !IsContainer(last) then Throws
    else if HasKey(last, "followups") && last.fields["followups"].JArr? && |last.fields["followups"].items| == 0 then
      Returns(Completed)
    else Returns(InProgress)
  }

  /** `getDialogStatus`: only the last request is consulted. */
  function GetDialogStatus(chat: Json): (r: Eval<DialogStatus>)
    ensures chat.JNull? ==> r == Throws
    ensures !chat.JNull? && !HasRequests(chat) ==> r == Returns(Pending)
    ensures !chat.JNull? && HasRequests(chat) ==> r == LastRequestStatus(LastRequest(chat))
  {
    if chat.JNull? then Throws
    else if !HasRequests(chat) then Returns(Pending)
    else LastRequestStatus(LastRequest(chat))
  }

  /** A transcript whose requests list is empty, absent or not an array is
      pending and counts zero requests; `null` counts zero but its status throws. */
  lemma NoRequestsIsPending(chat: Json)
    ensures GetRequestsCount(chat) == 0 && !chat.JNull? ==> GetDialogStatus(chat) == Returns(Pending)
    ensures chat.JNull? ==> GetRequestsCount(chat) == 0 && GetDialogStatus(chat) == Throws
  {
  }

  /** Earlier requests never influence the status: replacing everything before
      the last request leaves the status as it was. */
  lemma {:induction false} OnlyLastRequestMatters(m: map<string, Json>, earlier: seq<Json>, other: seq<Json>, last: Json)
    ensures GetDialogStatus(JObj(m["requests" := JArr(earlier + [last])]))
         == GetDialogStatus(JObj(m["requests" := JArr(other + [last])]))
  {
    var c1 := JObj(m["requests" := JArr(earlier + [last])]);
    var c2 := JObj(m["requests" := JArr(other + [last])]);
    assert RequestList(c1) == Some(earlier + [last]);
    assert RequestList(c2) == Some(other + [last]);
    assert LastRequest(c1) == last == LastRequest(c2);
  }

  datatype StatusDetails = StatusDetails(
    status: DialogStatus,
    statusText: string,
    hasResult: bool,
    hasFollowups: bool,
    isCanceled: bool,
    isFailed: bool,
    lastRequestId: Option<Json>,
    errorCode: Option<Json>,
    errorMessage: Option<Json>)

  /** `getDialogStatusDetails`: it first computes the status (and throws with it). */
  function GetDialogStatusDetails(chat: Json): (r: Eval<StatusDetails>)
    ensures r.Returns? <==> GetDialogStatus(chat).Returns?
    ensures r.Returns? ==> r.value.status == GetDialogStatus(chat).value
    ensures r.Returns? ==> r.value.statusText == StatusText(r.value.status)
    ensures r.Returns? && !HasRequests(chat) ==>
      r.value == StatusDetails(Pending, "Dialog not started", false, false, false, false, None, None, None)
    ensures r.Returns? && HasRequests(chat) ==>
      var last := LastRequest(chat);
      && r.value.isFailed == HasErrorDetails(last)
      && r.value.isCanceled == (Truthy(Some(last)) && CanceledFlag(last))
      && r.value.hasFollowups == (Truthy(Some(last)) && HasKey(last, "followups"))
      && r.value.lastRequestId == OptProp(Some(last), "requestId")
      && (r.value.hasResult <==> last.JObj? && "result" in last.fields && last.fields["result"] != JNull)
      && r.value.errorCode == OptProp(ErrorDetails(last), "code")
      && r.value.errorMessage == OptProp(ErrorDetails(last), "message")
      && (r.value.errorCode.Some? || r.value.errorMessage.Some? ==> r.value.isFailed)
  {
    var status := GetDialogStatus(chat);
    if status.Throws? then Throws
    else if !HasRequests(chat) then
      Returns(StatusDetails(Pending, "Dialog not started", false, false, false, false, None, None, None))
    else
      var last := LastRequest(chat);
      var ed := ErrorDetails(last);
      Returns(StatusDetails(
        status.value,
        StatusText(status.value),
        Truthy(Some(last)) && HasKey(last, "result") && last.fields["result"] != JNull,
        Truthy(Some(last)) && HasKey(last, "followups"),
        Truthy(Some(last)) && CanceledFlag(last),
        Truthy(ed),
        OptProp(Some(last), "requestId"),
        OptProp(ed, "code"),
        OptProp(ed, "message")))
  }

  /** The flags of the detail record agree with the status: a canceled flag
      forces "canceled"; "failed" always carries `isFailed`; so does a
      cancellation signalled only by the error code; "completed" means the
      field `followups` exists and there is neither flag. */
  lemma DetailsAgreeWithStatus(chat: Json)
    requires GetDialogStatusDetails(chat).Returns?
    ensures var d := GetDialogStatusDetails(chat).value;
      && (d.isCanceled ==> d.status == Canceled)
      && (d.status == Failed ==> d.isFailed && !d.isCanceled)
      && (d.status == Canceled && !d.isCanceled ==> d.isFailed)
      && (d.status == Completed ==> d.hasFollowups && !d.isFailed && !d.isCanceled)
      && (d.status == Pending && HasRequests(chat) ==> !d.isFailed && !d.hasFollowups && !d.isCanceled)
  {
    var d := GetDialogStatusDetails(chat).value;
    if HasRequests(chat) {
      var last := LastRequest(chat);
      assert d.status == LastRequestStatus(last).value;
      if d.status == Pending {
        assert !Truthy(Some(last));
        assert ErrorDetails(last).None?;
      }
    }
  }

  /** `hasFollowups` reports that the field exists, not that it is empty:
      a non-empty `followups` list is in progress yet has followups. */
  lemma HasFollowupsIsPresenceOnly()
    ensures var req := JObj(map["requestId" := JStr("1"), "followups" := JArr([JStr("x")])]);
      var chat := JObj(map["requests" := JArr([req])]);
      && GetDialogStatusDetails(chat).Returns?
      && GetDialogStatusDetails(chat).value.status == InProgress
      && GetDialogStatusDetails(chat).value.hasFollowups
  {
    var req := JObj(map["requestId" := JStr("1"), "followups" := JArr([JStr("x")])]);
    var chat := JObj(map["requests" := JArr([req])]);
    assert RequestList(chat) == Some([req]);
    assert LastRequest(chat) == req;
    assert ErrorDetails(req).None?;
    assert !EmptyFollowups(req);
  }

  // ---- Session identity ----

  /** `request?.result?.metadata` */
  function MetadataOf(req: Json): Option<Json> {
    OptProp(OptProp(Some(req), "result"), "metadata")
  }

  /** The session id a request carries: a non-empty string at `result.metadata.sessionId`. */
  function SessionIdOf(req: Json): Option<string> {
    match OptProp(MetadataOf(req), "sessionId")
    case Some(JStr(s)) => if s != "" then Some(s) else None
    case _ => None
  }

  /** Position of the first request that carries a session id. */
  function FirstSessionIndex(xs: seq<Json>): (k: Option<nat>)
    ensures k.Some? ==> k.value < |xs| && SessionIdOf(xs[k.value]).Some?
    ensures k.Some? ==> forall j :: 0 <= j < k.value ==> SessionIdOf(xs[j]).None?
    ensures k.None? ==> forall j :: 0 <= j < |xs| ==> SessionIdOf(xs[j]).None?
  {
    if xs == [] then None
    else if SessionIdOf(xs[0]).Some? then Some(0)
    else match FirstSessionIndex(xs[1..])
      case None => None
      case Some(k) => Some(k + 1)
  }

  /** `getSessionId`. It guards on `chatData?.requests?.length` and then
      iterates with `for...of`: a string iterates as characters (which carry no
      metadata), an object with a truthy `length` is not iterable and throws. */
  function GetSessionId(chat: Json): (r: Eval<Option<string>>)
    ensures RequestList(chat).Some? ==>
      var xs := RequestList(chat).value;
      r == Returns(match FirstSessionIndex(xs) case Some(k) => SessionIdOf(xs[k]) case None => None)
    ensures r.Returns? && r.value.Some? ==> r.value.value != ""
  {
    var reqs := OptProp(Some(chat), "requests");
    if !Truthy(OptProp(reqs, "length")) then Returns(None)
    else match reqs.value
      case JArr(xs) =>
        (match FirstSessionIndex(xs)
         case Some(k) => Returns(SessionIdOf(xs[k]))
         case None => Returns(None))
      case JStr(_) => Returns(None)
      case _ => Throws
  }

  datatype SessionInfo = SessionInfo(sessionId: string, agentId: Option<Json>, modelId: Option<Json>)

  /** First request whose `metadata?.sessionId === sid`. */
  function MatchingMetadata(xs: seq<Json>, sid: string): (k: Option<nat>)
    ensures k.Some? ==> k.value < |xs| && OptProp(MetadataOf(xs[k.value]), "sessionId") == Some(JStr(sid))
    ensures k.Some? ==> forall j :: 0 <= j < k.value ==> OptProp(MetadataOf(xs[j]), "sessionId") != Some(JStr(sid))
    ensures k.None? ==> forall j :: 0 <= j < |xs| ==> OptProp(MetadataOf(xs[j]), "sessionId") != Some(JStr(sid))
  {
    if xs == [] then None
    else if OptProp(MetadataOf(xs[0]), "sessionId") == Some(JStr(sid)) then Some(0)
    else match MatchingMetadata(xs[1..], sid)
      case None => None
      case Some(k) => Some(k + 1)
  }

  /** `getSessionInfo`: null exactly when `getSessionId` is null. */
  function GetSessionInfo(chat: Json): (r: Eval<Option<SessionInfo>>)
    ensures r.Throws? <==> GetSessionId(chat).Throws?
    ensures r.Returns? ==> (r.value.None? <==> GetSessionId(chat).value.None?)
    ensures r.Returns? && r.value.Some? ==> r.value.value.sessionId == GetSessionId(chat).value.value
  {
    match GetSessionId(chat)
    case Throws => Throws
    case Returns(None) => Returns(None)
    case Returns(Some(sid)) =>
      var xs := RequestList(chat).value;
      match MatchingMetadata(xs, sid)
      case Some(k) =>
        var meta := MetadataOf(xs[k]);
        Returns(Some(SessionInfo(sid, OptProp(meta, "agentId"), OptProp(meta, "modelId"))))
      case None => Returns(Some(SessionInfo(sid, None, None)))
  }

  /** The request that supplies agent and model is always the one that supplied
      the session id: no earlier request can match it, because an earlier match
      would itself have been the first session id. So the fallback that returns
      a bare session id is never taken. */
  lemma {:induction false} SessionInfoFromSameRequest(chat: Json)
    requires GetSessionId(chat).Returns? && GetSessionId(chat).value.Some?
    ensures RequestList(chat).Some?
    ensures var xs := RequestList(chat).value;
      var k := FirstSessionIndex(xs);
      && k.Some?
      && GetSessionInfo(chat) == Returns(Some(SessionInfo(
           GetSessionId(chat).value.value,
           OptProp(MetadataOf(xs[k.value]), "agentId"),
           OptProp(MetadataOf(xs[k.value]), "modelId"))))
  {
    var reqs := OptProp(Some(chat), "requests");
    assert Truthy(OptProp(reqs, "length"));
    assert reqs.value.JArr?;
    assert RequestList(chat) == Some(reqs.value.items);
    var xs := RequestList(chat).value;
    var k := FirstSessionIndex(xs);
    var sid := GetSessionId(chat).value.value;
    assert k.Some? && SessionIdOf(xs[k.value]) == Some(sid);
    var m := MatchingMetadata(xs, sid);
    assert OptProp(MetadataOf(xs[k.value]), "sessionId") == Some(JStr(sid));
    assert m.Some? && m.value <= k.value;
    if m.value < k.value {
      assert false;
    }
  }
}
