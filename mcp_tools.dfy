/** The two language-model tools that let an agent read back its own
    dialog: `get_request` returns the n-th user request of a recorded
    session, `get_first_request` the first request remembered for it. Each
    answers with a success payload or an error text, never by throwing.

    The session table is the ledger's; the session the chat monitor
    currently follows and the file system are inputs. */
module McpTools {
  import opened Optional
  import opened JsonValue
  import opened Text
  import opened Ledger
  import C = AnalyzerContent
  import S = AnalyzerStatus

  const IndexRequired := "Index parameter is required"
  const IndexTooSmall := "Index must be 1 or greater"
  const NoActiveDialog := "No active dialog found"
  const SessionNotFoundPrefix := "Session not found: "
  const ChatDataUnavailable := "Chat data not available for session"
  const RetrieveFailedPrefix := "Failed to retrieve request: "
  const FirstRequestUnavailable := "First request not available"
  /** The engine's message when the analyzer reads a property of a `null`
      request. */
  const NullRequestMessage := "Cannot read properties of null (reading 'message')"

  /** What `get_request` hands back. */
  datatype RequestData = RequestData(sessionId: string, request: string, index: int, timestamp: Json, totalRequests: nat)

  /** What `get_first_request` hands back. */
  datatype FirstRequestData = FirstRequestData(sessionId: string, firstRequest: string, timestamp: int, requestsCount: int)

  /** `formatSuccess` / `formatError`: the payload or the error text. */
  datatype ToolResult<+T> = Success(data: T) | Failure(error: string)

  /** Reading a chat file and parsing it as JSON: the read can fail, the
      text can fail to parse, or it parses to a value. */
  datatype ChatFile = ReadError(message: string) | SyntaxError(message: string) | Parsed(chat: Json)

  /** The session a tool works on: the one named in the input when it is a
      non-empty string, else the one the monitor follows, if any. */
  function TargetSession(sessionId: Option<string>, current: Option<string>): (t: Option<string>)
    ensures sessionId.Some? && sessionId.value != "" ==> t == sessionId
    ensures (sessionId.None? || sessionId.value == "") ==> (t.Some? <==> current.Some? && current.value != "")
    ensures t.Some? ==> t.value != "" && (t == sessionId || t == current)
  {
    if sessionId.Some? && sessionId.value != "" then sessionId
    else if current.Some? && current.value != "" then current
    else None
  }

  /** The session lookup both tools share: the chosen session's record, or
      the error text explaining why there is none. */
  function ResolveSession(sessionId: Option<string>, current: Option<string>, sessions: seq<SessionRecord>): (r: ToolResult<SessionRecord>)
    ensures r.Success? <==> TargetSession(sessionId, current).Some? && !Absent(sessions, TargetSession(sessionId, current).value)
    ensures r.Success? ==> r.data in sessions && Some(r.data.sessionId) == TargetSession(sessionId, current)
    ensures TargetSession(sessionId, current).None? ==> r == Failure(NoActiveDialog)
  {
    match TargetSession(sessionId, current)
    case None => Failure(NoActiveDialog)
    case Some(id) =>
      match Lookup(sessions, id)
      case None => Failure(SessionNotFoundPrefix + id)
      case Some(s) => Success(s)
  }

  /** `get_request` with a whole-number index. `read` is the file system:
      what reading and parsing a path yields. */
  function GetRequest(index: Option<int>, sessionId: Option<string>, current: Option<string>,
                      sessions: seq<SessionRecord>, read: string -> ChatFile): (r: ToolResult<RequestData>)
    ensures index.None? ==> r == Failure(IndexRequired)
    ensures index.Some? && index.value < 1 ==> r == Failure(IndexTooSmall)
    ensures index.Some? && index.value >= 1 && ResolveSession(sessionId, current, sessions).Failure? ==>
      r == Failure(ResolveSession(sessionId, current, sessions).error)
    ensures r.Success? ==>
      && index.Some? && r.data.index == index.value
      && 1 <= r.data.index <= r.data.totalRequests
      && Some(r.data.sessionId) == TargetSession(sessionId, current)
  {
    if index.None? then Failure(IndexRequired)
    else if index.value < 1 then Failure(IndexTooSmall)
    else match ResolveSession(sessionId, current, sessions)
      case Failure(e) => Failure(e)
      case Success(session) =>
        if session.chatJsonPath.None? || session.chatJsonPath.value == "" then Failure(ChatDataUnavailable)
        else match read(session.chatJsonPath.value)
          case ReadError(m) => Failure(RetrieveFailedPrefix + m)
          case SyntaxError(m) => Failure(RetrieveFailedPrefix + m)
          case Parsed(chat) =>
            match C.GetUserRequests(chat)
            case Throws => Failure(RetrieveFailedPrefix + NullRequestMessage)
            case Returns(requests) =>
              if index.value > |requests| then
                Failure("Index " + IntToString(index.value) + " exceeds total requests (" + IntToString(|requests|) + ")")
              else
                var request := requests[index.value - 1];
                Success(RequestData(session.sessionId, request.message, index.value,
                                    OrElse(request.timestamp, JNum(session.firstSeen)), |requests|))
  }

  /** A successful answer is the `index`-th request that has a text, counted
      from one, taken from the file of the chosen session, with the number of
      such requests; the timestamp falls back to when the session was first
      seen. Conversely every index within range of a readable session is
      answered. */
  lemma GetRequestAnswersNthRequest(index: Option<int>, sessionId: Option<string>, current: Option<string>,
                                    sessions: seq<SessionRecord>, read: string -> ChatFile)
    ensures var r := GetRequest(index, sessionId, current, sessions, read);
      r.Success? <==>
        && index.Some? && index.value >= 1
        && ResolveSession(sessionId, current, sessions).Success?
        && var s := ResolveSession(sessionId, current, sessions).data;
        && s.chatJsonPath.Some? && s.chatJsonPath.value != ""
        && read(s.chatJsonPath.value).Parsed?
        && C.GetUserRequests(read(s.chatJsonPath.value).chat).Returns?
        && index.value <= |C.GetUserRequests(read(s.chatJsonPath.value).chat).value|
    ensures var r := GetRequest(index, sessionId, current, sessions, read);
      r.Success? ==>
        var s := ResolveSession(sessionId, current, sessions).data;
        var requests := C.GetUserRequests(read(s.chatJsonPath.value).chat).value;
        && s in sessions && Some(s.sessionId) == TargetSession(sessionId, current)
        && r.data.sessionId == s.sessionId
        && r.data.index == index.value
        && r.data.totalRequests == |requests|
        && r.data.request == requests[index.value - 1].message
        && r.data.request != ""
        && (Truthy(requests[index.value - 1].timestamp) ==> r.data.timestamp == requests[index.value - 1].timestamp.value)
        && (!Truthy(requests[index.value - 1].timestamp) ==> r.data.timestamp == JNum(s.firstSeen))
  {
    var r := GetRequest(index, sessionId, current, sessions, read);
    if r.Success? {
      var s := ResolveSession(sessionId, current, sessions).data;
      var requests := C.GetUserRequests(read(s.chatJsonPath.value).chat).value;
      C.UserRequestsSound(S.RequestList(read(s.chatJsonPath.value).chat).value, 0);
    }
  }

  /** An index past the end names itself and the number of requests. */
  lemma IndexBeyondEndReported(index: int, sessionId: Option<string>, current: Option<string>,
                               sessions: seq<SessionRecord>, read: string -> ChatFile)
    requires index >= 1
    requires ResolveSession(sessionId, current, sessions).Success?
    requires var s := ResolveSession(sessionId, current, sessions).data;
      s.chatJsonPath.Some? && s.chatJsonPath.value != "" && read(s.chatJsonPath.value).Parsed?
    requires var s := ResolveSession(sessionId, current, sessions).data;
      var q := C.GetUserRequests(read(s.chatJsonPath.value).chat);
      q.Returns? && index > |q.value|
    ensures var s := ResolveSession(sessionId, current, sessions).data;
      var n := |C.GetUserRequests(read(s.chatJsonPath.value).chat).value|;
      GetRequest(Some(index), sessionId, current, sessions, read)
        == Failure("Index " + IntToString(index) + " exceeds total requests (" + IntToString(n) + ")")
  {
  }

  /** A non-empty session id in the input overrides the session the monitor
      follows. */
  lemma ExplicitSessionWins(index: Option<int>, sessionId: string, current1: Option<string>, current2: Option<string>,
                            sessions: seq<SessionRecord>, read: string -> ChatFile)
    requires sessionId != ""
    ensures GetRequest(index, Some(sessionId), current1, sessions, read)
         == GetRequest(index, Some(sessionId), current2, sessions, read)
    ensures GetFirstRequest(Some(sessionId), current1, sessions)
         == GetFirstRequest(Some(sessionId), current2, sessions)
  {
  }

  /** `get_first_request`: the remembered preview of the chosen session,
      with when the session was first seen and how many requests it had. */
  function GetFirstRequest(sessionId: Option<string>, current: Option<string>, sessions: seq<SessionRecord>): (r: ToolResult<FirstRequestData>)
    ensures r.Success? <==>
      && TargetSession(sessionId, current).Some?
      && var l := Lookup(sessions, TargetSession(sessionId, current).value);
      && l.Some? && l.value.firstRequestPreview != ""
    ensures r.Success? ==>
      var s := Lookup(sessions, TargetSession(sessionId, current).value).value;
      r.data == FirstRequestData(s.sessionId, s.firstRequestPreview, s.firstSeen, s.requestsCount)
    ensures ResolveSession(sessionId, current, sessions).Success? && !r.Success? ==> r == Failure(FirstRequestUnavailable)
  {
    match ResolveSession(sessionId, current, sessions)
    case Failure(e) => Failure(e)
    case Success(session) =>
      if session.firstRequestPreview == "" then Failure(FirstRequestUnavailable)
      else Success(FirstRequestData(session.sessionId, session.firstRequestPreview, session.firstSeen, session.requestsCount))
  }

  /** Both tools fail the same way on the session: with no session to work
      on, or an unknown one, a valid index gets the same error as the first
      request. */
  lemma ToolsAgreeOnSession(index: int, sessionId: Option<string>, current: Option<string>,
                            sessions: seq<SessionRecord>, read: string -> ChatFile)
    requires index >= 1
    requires ResolveSession(sessionId, current, sessions).Failure?
    ensures GetRequest(Some(index), sessionId, current, sessions, read).Failure?
    ensures GetRequest(Some(index), sessionId, current, sessions, read).error
         == GetFirstRequest(sessionId, current, sessions).error
    ensures GetFirstRequest(sessionId, current, sessions).error != FirstRequestUnavailable
  {
    match TargetSession(sessionId, current)
    case None =>
    case Some(id) =>
      assert ResolveSession(sessionId, current, sessions).error == SessionNotFoundPrefix + id;
      assert (SessionNotFoundPrefix + id)[0] == 'S' != FirstRequestUnavailable[0];
  }

  /** A session recorded through the ledger with a preview is what the
      first-request tool answers for, by its id. */
  lemma RecordedSessionIsAnswered(rs: seq<SessionRecord>, r: SessionRecord)
    requires DistinctIds(rs)
    requires r.sessionId != "" && r.firstRequestPreview != ""
    requires Absent(rs, r.sessionId)
    ensures GetFirstRequest(Some(r.sessionId), None, Upsert(rs, r))
         == Success(FirstRequestData(r.sessionId, r.firstRequestPreview, r.firstSeen, r.requestsCount))
  {
    UpsertLookup(rs, r, r.sessionId);
  }
}
