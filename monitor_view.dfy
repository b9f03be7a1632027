/** The chat-monitor tree view: every second it exports the chat as JSON,
    compares the export with the previous one, re-analyses it and tells its
    subscribers about changes, completions and errors.

    The export and the read are inputs of a check (`ReadOutcome`): the export
    command failed, the file could not be read, or the text that was read
    together with what `JSON.parse` made of it (`None` when parsing threw).
    The clock reading `now` stands for `new Date()`. Broadcasts are recorded in
    `notices`, each with the set of subscribers it reaches; tree refreshes are
    counted in `refreshes`. */
module MonitorView {
  import opened Optional
  import opened JsonValue
  import opened AnalyzerStatus

  const UnknownStatus: string := "unknown"
  const AnalyzerErrorPrefix: string := "Analyzer error: "
  const MonitoringErrorPrefix: string := "Chat monitoring error: "

  /** A subscriber, with whether it implements the optional completion and
      error callbacks. */
  datatype Subscriber = Subscriber(id: nat, handlesCompletion: bool, handlesErrors: bool)

  /** The tree's record of the chat. */
  datatype ChatStatus = ChatStatus(
    status: string,
    lastUpdate: int,
    content: string,
    hasActivity: bool,
    requestsCount: nat,
    lastRequestId: Option<Json>,
    statusDetails: Option<StatusDetails>)

  /** `getCurrentStatus()`: the record without the raw content. */
  datatype MonitorData = MonitorData(
    status: string,
    requestsCount: nat,
    lastUpdate: int,
    hasActivity: bool,
    lastRequestId: Option<Json>,
    statusDetails: Option<StatusDetails>)

  datatype Notice =
    | StatusUpdate(to: set<Subscriber>, data: MonitorData)
    | Completion(to: set<Subscriber>)
    | Failure(to: set<Subscriber>, message: string)

  datatype ReadOutcome = ExportFailed | ReadFailed | Content(text: string, parsed: Option<Json>)

  /** The whole provider as a value. `refreshTimer` says whether the provider
      holds a timer handle; `leakedTimers` counts intervals that were
      replaced without being cleared and so can no longer be stopped. */
  datatype View = View(
    chat: ChatStatus,
    active: bool,
    refreshTimer: bool,
    leakedTimers: nat,
    subscribers: set<Subscriber>,
    notices: seq<Notice>,
    refreshes: nat)

  function DataOf(c: ChatStatus): (d: MonitorData)
    ensures d.status == c.status && d.requestsCount == c.requestsCount && d.hasActivity == c.hasActivity
    ensures d.lastRequestId == c.lastRequestId && d.statusDetails == c.statusDetails && d.lastUpdate == c.lastUpdate
  {
    MonitorData(c.status, c.requestsCount, c.lastUpdate, c.hasActivity, c.lastRequestId, c.statusDetails)
  }

  function CompletionAudience(subs: set<Subscriber>): (r: set<Subscriber>)
    ensures r <= subs
    ensures forall s :: s in subs ==> (s in r <==> s.handlesCompletion)
  {
    set s | s in subs && s.handlesCompletion
  }

  function ErrorAudience(subs: set<Subscriber>): (r: set<Subscriber>)
    ensures r <= subs
    ensures forall s :: s in subs ==> (s in r <==> s.handlesErrors)
  {
    set s | s in subs && s.handlesErrors
  }

  function Broadcast(v: View, n: Notice): View {
    v.(notices := v.notices + [n])
  }

  function Refresh(v: View): View {
    v.(refreshes := v.refreshes + 1)
  }

  function InitialView(now: int): View {
    View(ChatStatus(UnknownStatus, now, "", false, 0, None, None), true, true, 0, {}, [], 0)
  }

  /** The status the analyzer gives a parsed transcript: the status name,
      the request count and the details, or nothing when it throws. */
  function Analyze(chat: Json): (r: Option<(string, nat, StatusDetails)>)
    ensures r.None? <==> GetDialogStatus(chat).Throws?
    ensures r.Some? ==>
      && r.value.0 == StatusName(GetDialogStatus(chat).value)
      && r.value.1 == GetRequestsCount(chat) && r.value.2 == GetDialogStatusDetails(chat).value
  {
    var st := GetDialogStatus(chat);
    if st.Throws? then None
    else
      DetailsAgreeWithStatus(chat);
      Some((StatusName(st.value), GetRequestsCount(chat), GetDialogStatusDetails(chat).value))
  }

  /** The step after the content comparison: analyse, overwrite the status
      fields, and broadcast when something changed. */
  function AnalyseStep(v: View, chat: Json, hasChanged: bool): View {
    match Analyze(chat)
    case None =>
      var v1 := v.(chat := v.chat.(status := UnknownStatus, requestsCount := 0));
      Broadcast(v1, Failure(ErrorAudience(v1.subscribers), AnalyzerErrorPrefix))
    case Some((status, count, details)) =>
      var statusChanged := v.chat.status != status;
      var v1 := v.(chat := v.chat.(status := status, requestsCount := count, statusDetails := Some(details),
                                   lastRequestId := details.lastRequestId));
      if statusChanged || hasChanged then
        var v2 := Broadcast(v1, StatusUpdate(v1.subscribers, DataOf(v1.chat)));
        if status == "completed" && statusChanged then Broadcast(v2, Completion(CompletionAudience(v2.subscribers)))
        else v2
      else v1
  }

  /** `checkChatStatus` after the export. */
  function CheckSpec(v: View, read: ReadOutcome, now: int): View {
    match read
    case ExportFailed => Refresh(v.(chat := v.chat.(status := UnknownStatus, hasActivity := false)))
    case ReadFailed =>
      var v1 := v.(chat := v.chat.(status := UnknownStatus, hasActivity := false));
      Refresh(Broadcast(v1, Failure(ErrorAudience(v1.subscribers), MonitoringErrorPrefix)))
    case Content(text, parsed) =>
      var hasChanged := text != v.chat.content;
      var v1 := if hasChanged then v.(chat := v.chat.(content := text, lastUpdate := now, hasActivity := true))
                else v.(chat := v.chat.(hasActivity := false));
      if parsed.None? || parsed == Some(JNull) then
        Refresh(v1.(chat := v1.chat.(status := UnknownStatus, requestsCount := 0)))
      else Refresh(AnalyseStep(v1, parsed.value, hasChanged))
  }

  function StartSpec(v: View): View {
    v.(active := true, refreshTimer := true, leakedTimers := if v.refreshTimer then v.leakedTimers + 1 else v.leakedTimers)
  }

  function DisposeSpec(v: View): View {
    v.(active := false, refreshTimer := false, subscribers := {})
  }

  class ChatMonitorTreeProvider {
    var chat: ChatStatus
    var active: bool
    var refreshTimer: bool
    var leakedTimers: nat
    var subscribers: set<Subscriber>
    var notices: seq<Notice>
    var refreshes: nat

    ghost function Snapshot(): View
      reads this
    {
      View(chat, active, refreshTimer, leakedTimers, subscribers, notices, refreshes)
    }

    /** Creation starts the automatic monitoring; the first check is the
        first call of `CheckChatStatus`. */
    constructor(now: int)
      ensures Snapshot() == InitialView(now)
    {
      chat := ChatStatus(UnknownStatus, now, "", false, 0, None, None);
      active := true;
      refreshTimer := true;
      leakedTimers := 0;
      subscribers := {};
      notices := [];
      refreshes := 0;
    }

    method CheckChatStatus(read: ReadOutcome, now: int)
      modifies this
      ensures Snapshot() == CheckSpec(old(Snapshot()), read, now)
    {
      if read.ExportFailed? {
        chat := chat.(status := UnknownStatus, hasActivity := false);
        refreshes := refreshes + 1;
        return;
      }
      if read.ReadFailed? {
        chat := chat.(status := UnknownStatus, hasActivity := false);
        notices := notices + [Failure(ErrorAudience(subscribers), MonitoringErrorPrefix)];
        refreshes := refreshes + 1;
        return;
      }
      var text := read.text;
      var hasChanged := text != chat.content;
      if hasChanged {
        chat := chat.(content := text, lastUpdate := now, hasActivity := true);
      } else {
        chat := chat.(hasActivity := false);
      }
      if read.parsed.None? || read.parsed == Some(JNull) {
        chat := chat.(status := UnknownStatus, requestsCount := 0);
        refreshes := refreshes + 1;
        return;
      }
      var analysis := Analyze(read.parsed.value);
      if analysis.None? {
        chat := chat.(status := UnknownStatus, requestsCount := 0);
        notices := notices + [Failure(ErrorAudience(subscribers), AnalyzerErrorPrefix)];
      } else {
        var (status, count, details) := analysis.value;
        var statusChanged := chat.status != status;
        chat := chat.(status := status, requestsCount := count, statusDetails := Some(details),
                      lastRequestId := details.lastRequestId);
        if statusChanged || hasChanged {
          notices := notices + [StatusUpdate(subscribers, DataOf(chat))];
          if status == "completed" && statusChanged {
            notices := notices + [Completion(CompletionAudience(subscribers))];
          }
        }
      }
      refreshes := refreshes + 1;
    }

    method Subscribe(s: Subscriber)
      modifies this
      ensures subscribers == old(subscribers) + {s}
      ensures chat == old(chat) && notices == old(notices) && active == old(active)
    {
      subscribers := subscribers + {s};
    }

    method Unsubscribe(s: Subscriber)
      modifies this
      ensures subscribers == old(subscribers) - {s}
      ensures chat == old(chat) && notices == old(notices) && active == old(active)
    {
      subscribers := subscribers - {s};
    }

    method GetCurrentStatus() returns (data: MonitorData)
      ensures data == DataOf(chat)
    {
      data := MonitorData(chat.status, chat.requestsCount, chat.lastUpdate, chat.hasActivity,
                          chat.lastRequestId, chat.statusDetails);
    }

    method StartMonitoring()
      modifies this
      ensures Snapshot() == StartSpec(old(Snapshot()))
    {
      if refreshTimer {
        leakedTimers := leakedTimers + 1;
      }
      active := true;
      refreshTimer := true;
    }

    method IsMonitoring() returns (r: bool)
      ensures r == active
    {
      r := active;
    }

    /** `dispose`, also what `stopMonitoring` does. */
    method Dispose()
      modifies this
      ensures Snapshot() == DisposeSpec(old(Snapshot()))
    {
      active := false;
      refreshTimer := false;
      subscribers := {};
    }
  }

  /** Activity means the exported text differs from the stored one, and the
      stored text is replaced only then; the tree is refreshed once per
      check whatever happens. */
  lemma ActivityIsChange(v: View, text: string, parsed: Option<Json>, now: int)
    ensures var r := CheckSpec(v, Content(text, parsed), now);
      && r.chat.hasActivity == (text != v.chat.content)
      && r.chat.content == text
      && (text == v.chat.content ==> r.chat.lastUpdate == v.chat.lastUpdate)
      && r.refreshes == v.refreshes + 1
  {
  }

  /** On every successful analysis the status, the count and the last
      request id are overwritten, whether or not the content changed. */
  lemma StatusOverwrittenOnEveryParse(v: View, text: string, chat: Json, now: int)
    requires chat != JNull && GetDialogStatus(chat).Returns?
    ensures var r := CheckSpec(v, Content(text, Some(chat)), now);
      && r.chat.status == StatusName(GetDialogStatus(chat).value)
      && r.chat.requestsCount == GetRequestsCount(chat)
      && r.chat.lastRequestId == GetDialogStatusDetails(chat).value.lastRequestId
      && r.subscribers == v.subscribers
  {
  }

  /** Subscribers hear about a check only when the status or the content
      changed; completion is announced only on a change into "completed",
      and only to subscribers that handle it. */
  lemma NotifiesOnlyOnChange(v: View, text: string, chat: Json, now: int)
    requires chat != JNull && GetDialogStatus(chat).Returns?
    ensures var status := StatusName(GetDialogStatus(chat).value);
      var statusChanged := v.chat.status != status;
      var hasChanged := text != v.chat.content;
      var r := CheckSpec(v, Content(text, Some(chat)), now);
      && (r.notices == v.notices <==> !statusChanged && !hasChanged)
      && (statusChanged || hasChanged ==>
            |r.notices| > |v.notices| && r.notices[|v.notices|] == StatusUpdate(v.subscribers, DataOf(r.chat)))
      && ((Completion(CompletionAudience(v.subscribers)) in r.notices[|v.notices|..])
            <==> (GetDialogStatus(chat).value == Completed && statusChanged))
  {
    var status := StatusName(GetDialogStatus(chat).value);
    var statusChanged := v.chat.status != status;
    var hasChanged := text != v.chat.content;
    var r := CheckSpec(v, Content(text, Some(chat)), now);
    var isCompleted := status == "completed";
    assert isCompleted <==> GetDialogStatus(chat).value == Completed by {
      if GetDialogStatus(chat).value != Completed {
        assert status != "completed" by {
          assert status[0] != 'c' || |status| != 9;
        }
      }
    }
    var upd := StatusUpdate(v.subscribers, DataOf(r.chat));
    var done := Completion(CompletionAudience(v.subscribers));
    if statusChanged || hasChanged {
      if isCompleted && statusChanged {
        assert r.notices == v.notices + [upd, done];
        assert r.notices[|v.notices|..] == [upd, done];
      } else {
        assert r.notices == v.notices + [upd];
        assert r.notices[|v.notices|..] == [upd];
      }
    } else {
      assert r.notices == v.notices;
      assert r.notices[|v.notices|..] == [];
    }
  }

  /** Text that does not parse, or parses to `null`, makes the status
      unknown with no requests and tells nobody. */
  lemma ParseFailureIsUnknown(v: View, text: string, parsed: Option<Json>, now: int)
    requires parsed.None? || parsed == Some(JNull)
    ensures var r := CheckSpec(v, Content(text, parsed), now);
      r.chat.status == UnknownStatus && r.chat.requestsCount == 0 && r.notices == v.notices
  {
  }

  /** An analyzer exception makes the status unknown with no requests and
      is reported to the subscribers that handle errors. */
  lemma AnalyzerFailureIsUnknown(v: View, text: string, chat: Json, now: int)
    requires chat != JNull && GetDialogStatus(chat).Throws?
    ensures var r := CheckSpec(v, Content(text, Some(chat)), now);
      && r.chat.status == UnknownStatus && r.chat.requestsCount == 0
      && r.notices == v.notices + [Failure(ErrorAudience(v.subscribers), AnalyzerErrorPrefix)]
  {
  }

  /** A failed export makes the status unknown and clears the activity flag,
      leaving the stored content alone. */
  lemma ExportFailureIsUnknown(v: View, now: int)
    ensures var r := CheckSpec(v, ExportFailed, now);
      && r.chat.status == UnknownStatus && !r.chat.hasActivity
      && r.chat.content == v.chat.content && r.notices == v.notices
  {
  }

  /** Disposing stops the view and forgets every subscriber. Starting a view
      that already holds a timer loses track of that timer, so after a
      second start and a dispose one interval keeps running. */
  lemma DisposeAfterDoubleStart(v: View)
    requires v.refreshTimer && v.leakedTimers == 0
    ensures var r := DisposeSpec(StartSpec(v));
      && !r.active && !r.refreshTimer && r.subscribers == {}
      && r.leakedTimers == 1
  {
  }
}
