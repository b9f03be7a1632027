/** The commands other extensions call to read the dialog ledger: the
    current dialog, the history (optionally filtered by status and
    limited), and one session by id. Each answer is a copy of the stored
    record without its archive path.

    `sessions` is the ledger's table; the session the chat monitor follows
    is an input. */
module CommandsApi {
  import opened Optional
  import opened AnalyzerStatus
  import opened Ledger

  const DefaultHistoryLimit := 100

  /** The public view of a session record. */
  datatype DialogSessionResponse = DialogSessionResponse(
    sessionId: string,
    status: string,
    firstSeen: int,
    lastSeen: int,
    requestsCount: int,
    firstRequestPreview: string,
    agentId: Option<string>,
    modelId: Option<string>)

  /** `toDialogSessionResponse`: every public field copied, the archive path
      withheld. */
  function ToResponse(r: SessionRecord): (p: DialogSessionResponse)
    ensures p.sessionId == r.sessionId && p.status == StatusName(r.status)
    ensures p.firstSeen == r.firstSeen && p.lastSeen == r.lastSeen && p.requestsCount == r.requestsCount
    ensures p.firstRequestPreview == r.firstRequestPreview && p.agentId == r.agentId && p.modelId == r.modelId
  {
    DialogSessionResponse(r.sessionId, StatusName(r.status), r.firstSeen, r.lastSeen,
                          r.requestsCount, r.firstRequestPreview, r.agentId, r.modelId)
  }

  /** Two records with the same public fields give the same answer: the
      archive path never shows. */
  lemma ResponseHidesArchivePath(r: SessionRecord, path: Option<string>)
    ensures ToResponse(r.(chatJsonPath := path)) == ToResponse(r)
  {
  }

  /** Distinct statuses are told apart in the answer. */
  lemma StatusNamesDistinct(a: DialogStatus, b: DialogStatus)
    ensures StatusName(a) == StatusName(b) <==> a == b
  {
  }

  /** `getSession`: no id (or an empty one) and an unknown id both give
      `null`. */
  function GetSession(sessionId: Option<string>, sessions: seq<SessionRecord>): (r: Option<DialogSessionResponse>)
    ensures r.Some? <==> sessionId.Some? && sessionId.value != "" && !Absent(sessions, sessionId.value)
    ensures r.Some? ==> exists s :: s in sessions && s.sessionId == sessionId.value && r.value == ToResponse(s)
  {
    if sessionId.None? || sessionId.value == "" then None
    else match Lookup(sessions, sessionId.value)
      case None => None
      case Some(s) => Some(ToResponse(s))
  }

  /** `getCurrentDialog`: the record of the session the monitor follows. */
  function GetCurrentDialog(current: Option<string>, sessions: seq<SessionRecord>): (r: Option<DialogSessionResponse>)
    ensures r.Some? ==> current.Some? && r.value.sessionId == current.value
  {
    if current.None? || current.value == "" then None
    else match Lookup(sessions, current.value)
      case None => None
      case Some(s) => Some(ToResponse(s))
  }

  /** The current dialog is exactly the session lookup on the current id. */
  lemma CurrentDialogIsSessionLookup(current: Option<string>, sessions: seq<SessionRecord>)
    ensures GetCurrentDialog(current, sessions) == GetSession(current, sessions)
  {
  }

  /** A session the ledger has just recorded is the current dialog. */
  lemma RecordedSessionIsCurrent(rs: seq<SessionRecord>, r: SessionRecord)
    requires DistinctIds(rs) && Absent(rs, r.sessionId) && r.sessionId != ""
    ensures GetCurrentDialog(Some(r.sessionId), Upsert(rs, r)) == Some(ToResponse(r))
  {
    UpsertLookup(rs, r, r.sessionId);
  }

  /** `Array.prototype.slice(0, end)` on a length `n`: a negative end counts
      back from the end. */
  function SliceEnd(n: nat, end: int): (k: nat)
    ensures k <= n
    ensures end >= 0 ==> k == if end < n then end else n
    ensures end < 0 ==> k == if n + end > 0 then n + end else 0
  {
    if end >= 0 then (if end < n then end else n)
    else if n + end > 0 then n + end else 0
  }

  /** The records that pass the status filter: all of them when no filter
      (or an empty one) is given. */
  function FilterByStatus(rs: seq<SessionRecord>, status: Option<string>): (out: seq<SessionRecord>)
    ensures |out| <= |rs|
    ensures forall x :: x in out ==> x in rs
    ensures status.Some? && status.value != "" ==> forall x :: x in out ==> StatusName(x.status) == status.value
    ensures forall x :: x in rs && (status.None? || status.value == "" || StatusName(x.status) == status.value) ==> x in out
  {
    if status.None? || status.value == "" then rs
    else if rs == [] then []
    else if StatusName(rs[0].status) == status.value then [rs[0]] + FilterByStatus(rs[1..], status)
    else FilterByStatus(rs[1..], status)
  }

  /** Filtering keeps the order of what it keeps. */
  lemma {:induction false} FilterKeepsOrder(rs: seq<SessionRecord>, status: Option<string>)
    requires SortedDesc(rs)
    ensures SortedDesc(FilterByStatus(rs, status))
  {
    if status.Some? && status.value != "" && rs != [] {
      FilterKeepsOrder(rs[1..], status);
      var tail := FilterByStatus(rs[1..], status);
      if StatusName(rs[0].status) == status.value {
        forall j | 0 <= j < |tail| ensures rs[0].lastSeen >= tail[j].lastSeen {
          assert tail[j] in rs[1..];
        }
      }
    }
  }

  /** `getDialogHistory`: the history most recent first, filtered by status,
      cut to `limit` (100 when absent), as public records. It never holds
      more records than the ledger, nor more than a non-negative limit. */
  function GetDialogHistory(sessions: seq<SessionRecord>, limit: Option<int>, status: Option<string>): (h: seq<DialogSessionResponse>)
    ensures |h| <= |sessions|
    ensures limit.Some? && limit.value >= 0 ==> |h| <= limit.value
    ensures limit.None? ==> |h| <= DefaultHistoryLimit
  {
    var filtered := FilterByStatus(SortDesc(sessions), status);
    var k := SliceEnd(|filtered|, if limit.Some? then limit.value else DefaultHistoryLimit);
    seq(k, i requires 0 <= i < k => ToResponse(filtered[i]))
  }

  /** The answer is the first records of the filtered history, most recent
      first: `min(limit, n)` of them for a non-negative limit, all but the
      last `-limit` for a negative one. Every record in it has the requested
      status. */
  lemma HistoryIsFilteredPrefix(sessions: seq<SessionRecord>, limit: Option<int>, status: Option<string>)
    ensures var filtered := FilterByStatus(SortDesc(sessions), status);
      var h := GetDialogHistory(sessions, limit, status);
      && |h| == SliceEnd(|filtered|, if limit.Some? then limit.value else DefaultHistoryLimit)
      && (forall i :: 0 <= i < |h| ==> h[i] == ToResponse(filtered[i]))
    ensures var h := GetDialogHistory(sessions, limit, status);
      status.Some? && status.value != "" ==> forall i :: 0 <= i < |h| ==> h[i].status == status.value
  {
    var filtered := FilterByStatus(SortDesc(sessions), status);
    var h := GetDialogHistory(sessions, limit, status);
    forall i | 0 <= i < |h| ensures h[i] == ToResponse(filtered[i]) {
    }
    if status.Some? && status.value != "" {
      forall i | 0 <= i < |h| ensures h[i].status == status.value {
        assert filtered[i] in filtered;
      }
    }
  }

  /** The answer is ordered most recent first. */
  lemma HistoryMostRecentFirst(sessions: seq<SessionRecord>, limit: Option<int>, status: Option<string>)
    ensures var h := GetDialogHistory(sessions, limit, status);
      forall i, j :: 0 <= i < j < |h| ==> h[i].lastSeen >= h[j].lastSeen
  {
    var filtered := FilterByStatus(SortDesc(sessions), status);
    FilterKeepsOrder(SortDesc(sessions), status);
    HistoryIsFilteredPrefix(sessions, limit, status);
  }

  /** Every answer is the public view of a stored record. */
  lemma HistoryComesFromLedger(sessions: seq<SessionRecord>, limit: Option<int>, status: Option<string>)
    ensures var h := GetDialogHistory(sessions, limit, status);
      forall i :: 0 <= i < |h| ==> exists s :: s in sessions && h[i] == ToResponse(s)
  {
    var filtered := FilterByStatus(SortDesc(sessions), status);
    var h := GetDialogHistory(sessions, limit, status);
    HistoryIsFilteredPrefix(sessions, limit, status);
    forall i | 0 <= i < |h| ensures exists s :: s in sessions && h[i] == ToResponse(s) {
      var s := filtered[i];
      assert s in SortDesc(sessions);
      assert s in multiset(SortDesc(sessions));
      assert s in multiset(sessions);
    }
  }

  /** The ledger never holds more than 100 records, so without a limit the
      whole matching history comes back. */
  lemma DefaultLimitReturnsEverything(sessions: seq<SessionRecord>, status: Option<string>)
    requires |sessions| <= MaxHistorySize
    ensures var filtered := FilterByStatus(SortDesc(sessions), status);
      GetDialogHistory(sessions, None, status) == seq(|filtered|, i requires 0 <= i < |filtered| => ToResponse(filtered[i]))
  {
  }

  /** Without a filter and with a limit no smaller than the table, there is
      one answer per stored record. */
  lemma UnfilteredHistoryCountsAll(sessions: seq<SessionRecord>, limit: int)
    requires limit >= |sessions|
    ensures |GetDialogHistory(sessions, Some(limit), None)| == |sessions|
  {
  }
}
