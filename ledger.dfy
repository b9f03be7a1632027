/** The dialog-session ledger: a table of session records keyed by session id,
    kept in insertion order like a JavaScript `Map`, sorted by last activity
    for listing, pruned to the most recent sessions on every save, and
    persisted as the list of kept records. */
module Ledger {
  import opened Optional
  import opened AnalyzerStatus

  /** At most this many sessions survive a save. */
  const MaxHistorySize: nat := 100

  datatype SessionRecord = SessionRecord(
    sessionId: string,
    firstSeen: int,
    lastSeen: int,
    requestsCount: int,
    status: DialogStatus,
    firstRequestPreview: string,
    agentId: Option<string>,
    modelId: Option<string>,
    chatJsonPath: Option<string>)

  // ---- The table as an insertion-ordered map ----

  predicate DistinctIds(rs: seq<SessionRecord>) {
    forall i, j :: 0 <= i < j < |rs| ==> rs[i].sessionId != rs[j].sessionId
  }

  /** No record of `rs` has id `id`. */
  predicate Absent(rs: seq<SessionRecord>, id: string) {
    forall j :: 0 <= j < |rs| ==> rs[j].sessionId != id
  }

  /** Position of the first record with id `id`. */
  function Find(rs: seq<SessionRecord>, id: string): (p: Option<nat>)
    ensures p.Some? ==> p.value < |rs| && rs[p.value].sessionId == id
    ensures p.Some? ==> forall j :: 0 <= j < p.value ==> rs[j].sessionId != id
    ensures p.None? ==> Absent(rs, id)
  {
    if rs == [] then None
    else if rs[0].sessionId == id then Some(0)
    else match Find(rs[1..], id)
      case None => None
      case Some(p) => Some(p + 1)
  }

  /** `map.get(id)`. */
  function Lookup(rs: seq<SessionRecord>, id: string): (r: Option<SessionRecord>)
    ensures r.Some? ==> r.value in rs && r.value.sessionId == id
    ensures r.None? <==> Absent(rs, id)
  {
    match Find(rs, id)
    case Some(p) => Some(rs[p])
    case None => None
  }

  /** With distinct ids, the lookup of a record's id is that record. */
  lemma LookupDistinct(rs: seq<SessionRecord>, i: nat)
    requires DistinctIds(rs) && i < |rs|
    ensures Lookup(rs, rs[i].sessionId) == Some(rs[i])
  {
    var p := Find(rs, rs[i].sessionId);
    assert p.Some? && p.value <= i;
  }

  /** `map.set(r.sessionId, r)`: an existing key keeps its position and takes
      the new value; a new key goes to the end. */
  function Put(rs: seq<SessionRecord>, r: SessionRecord): (out: seq<SessionRecord>)
    requires DistinctIds(rs)
    ensures DistinctIds(out)
    ensures !Absent(rs, r.sessionId) ==> |out| == |rs|
    ensures Absent(rs, r.sessionId) ==> out == rs + [r]
  {
    match Find(rs, r.sessionId)
    case Some(i) => rs[i := r]
    case None => rs + [r]
  }

  /** After a set, the key holds the new record and every other key is as before. */
  lemma PutLookup(rs: seq<SessionRecord>, r: SessionRecord, id: string)
    requires DistinctIds(rs)
    ensures Lookup(Put(rs, r), id) == if id == r.sessionId then Some(r) else Lookup(rs, id)
  {
    var out := Put(rs, r);
    var k := if Absent(rs, r.sessionId) then |rs| else Find(rs, r.sessionId).value;
    assert out[k] == r;
    if id == r.sessionId {
      LookupDistinct(out, k);
    } else {
      match Find(rs, id)
      case Some(q) =>
        assert out[q] == rs[q];
        LookupDistinct(out, q);
        LookupDistinct(rs, q);
      case None =>
        assert Absent(out, id);
    }
  }

  /** The table built by setting `xs` in order, as loading does. */
  function LoadAll(xs: seq<SessionRecord>): (rs: seq<SessionRecord>)
    ensures DistinctIds(rs)
  {
    if xs == [] then [] else Put(LoadAll(xs[..|xs| - 1]), xs[|xs| - 1])
  }

  /** The last record of `xs` with id `id`. */
  function LastWith(xs: seq<SessionRecord>, id: string): (r: Option<SessionRecord>)
    ensures r.Some? ==> r.value in xs && r.value.sessionId == id
    ensures r.None? <==> Absent(xs, id)
  {
    if xs == [] then None
    else if xs[|xs| - 1].sessionId == id then Some(xs[|xs| - 1])
    else
      var r := LastWith(xs[..|xs| - 1], id);
      assert forall i :: 0 <= i < |xs| - 1 ==> xs[i] == xs[..|xs| - 1][i];
      r
  }

  /** Loading keeps, for every id, the last stored record with that id: a
      later duplicate overwrites an earlier one. */
  lemma {:induction false} LoadKeepsLastDuplicate(xs: seq<SessionRecord>, id: string)
    ensures Lookup(LoadAll(xs), id) == LastWith(xs, id)
  {
    if xs != [] {
      LoadKeepsLastDuplicate(xs[..|xs| - 1], id);
      PutLookup(LoadAll(xs[..|xs| - 1]), xs[|xs| - 1], id);
    }
  }

  /** Loading records whose ids are already distinct reproduces them in order. */
  lemma {:induction false} LoadDistinctIsIdentity(xs: seq<SessionRecord>)
    requires DistinctIds(xs)
    ensures LoadAll(xs) == xs
  {
    if xs != [] {
      var init := xs[..|xs| - 1];
      assert DistinctIds(init);
      LoadDistinctIsIdentity(init);
      assert Absent(init, xs[|xs| - 1].sessionId);
      assert init + [xs[|xs| - 1]] == xs;
    }
  }

  // ---- Upsert ----

  /** The record kept when `incoming` has the id of `existing`: the first
      sighting and agent/model stay, the preview stays unless it was empty,
      the activity fields are replaced, and the archive path is replaced only
      by a non-empty new path. */
  function Merge(existing: SessionRecord, incoming: SessionRecord): (m: SessionRecord)
    ensures m.sessionId == existing.sessionId
    ensures m.firstSeen == existing.firstSeen
    ensures m.firstRequestPreview == if existing.firstRequestPreview != "" then existing.firstRequestPreview else incoming.firstRequestPreview
    ensures m.lastSeen == incoming.lastSeen && m.requestsCount == incoming.requestsCount && m.status == incoming.status
    ensures m.chatJsonPath == if incoming.chatJsonPath.Some? && incoming.chatJsonPath.value != "" then incoming.chatJsonPath else existing.chatJsonPath
    ensures m.agentId == existing.agentId && m.modelId == existing.modelId
  {
    existing.(
      lastSeen := incoming.lastSeen,
      requestsCount := incoming.requestsCount,
      status := incoming.status,
      firstRequestPreview :=
        if existing.firstRequestPreview != "" then existing.firstRequestPreview else incoming.firstRequestPreview,
      chatJsonPath :=
        if incoming.chatJsonPath.Some? && incoming.chatJsonPath.value != "" then incoming.chatJsonPath else existing.chatJsonPath)
  }

  /** The table after `recordSession` has merged or inserted `r`, before the save. */
  function Upsert(rs: seq<SessionRecord>, r: SessionRecord): (out: seq<SessionRecord>)
    requires DistinctIds(rs)
    ensures DistinctIds(out)
    ensures Absent(rs, r.sessionId) ==> out == rs + [r]
    ensures !Absent(rs, r.sessionId) ==> |out| == |rs|
  {
    match Lookup(rs, r.sessionId)
    case Some(existing) => Put(rs, Merge(existing, r))
    case None => Put(rs, r)
  }

  /** An unknown session is stored as given; a known one is merged into the
      stored record; no other session changes. */
  lemma UpsertLookup(rs: seq<SessionRecord>, r: SessionRecord, id: string)
    requires DistinctIds(rs)
    ensures id == r.sessionId && Absent(rs, id) ==> Lookup(Upsert(rs, r), id) == Some(r)
    ensures id == r.sessionId && !Absent(rs, id) ==>
      Lookup(Upsert(rs, r), id) == Some(Merge(Lookup(rs, id).value, r))
    ensures id != r.sessionId ==> Lookup(Upsert(rs, r), id) == Lookup(rs, id)
  {
    match Lookup(rs, r.sessionId)
    case Some(existing) => PutLookup(rs, Merge(existing, r), id);
    case None => PutLookup(rs, r, id);
  }

  /** Recording a session twice keeps the first sighting of the first call
      and reports the activity of the second. */
  lemma RecordTwiceKeepsFirstSeen(rs: seq<SessionRecord>, a: SessionRecord, b: SessionRecord)
    requires DistinctIds(rs) && Absent(rs, a.sessionId) && b.sessionId == a.sessionId
    ensures var m := Lookup(Upsert(Upsert(rs, a), b), a.sessionId);
      && m.Some?
      && m.value.firstSeen == a.firstSeen
      && m.value.lastSeen == b.lastSeen
      && m.value.firstRequestPreview == (if a.firstRequestPreview != "" then a.firstRequestPreview else b.firstRequestPreview)
  {
    UpsertLookup(rs, a, a.sessionId);
    UpsertLookup(Upsert(rs, a), b, a.sessionId);
  }

  // ---- Ordering and pruning ----

  predicate SortedDesc(rs: seq<SessionRecord>) {
    forall i, j :: 0 <= i < j < |rs| ==> rs[i].lastSeen >= rs[j].lastSeen
  }

  /** Places `x` before the first record that is not more recent, so records
      of equal `lastSeen` keep their relative order. */
  function InsertDesc(x: SessionRecord, rs: seq<SessionRecord>): (out: seq<SessionRecord>)
    ensures |out| == |rs| + 1
    ensures multiset(out) == multiset(rs) + multiset{x}
    ensures forall y :: y in out ==> y == x || y in rs
    ensures SortedDesc(rs) ==> SortedDesc(out)
  {
    if rs == [] then [x]
    else if rs[0].lastSeen <= x.lastSeen then [x] + rs
    else
      var tail := InsertDesc(x, rs[1..]);
      assert rs == [rs[0]] + rs[1..];
      assert SortedDesc(rs) ==> SortedDesc([rs[0]] + tail) by {
        if SortedDesc(rs) {
          forall j | 0 < j < |tail| + 1 ensures rs[0].lastSeen >= ([rs[0]] + tail)[j].lastSeen {
            var y := tail[j - 1];
            assert ([rs[0]] + tail)[j] == y && y in tail;
            assert y == x || y in rs[1..];
          }
        }
      }
      [rs[0]] + tail
  }

  /** `Array.prototype.sort` with `(a, b) => b.lastSeen - a.lastSeen` (a stable sort). */
  function SortDesc(rs: seq<SessionRecord>): (out: seq<SessionRecord>)
    ensures |out| == |rs|
    ensures multiset(out) == multiset(rs)
    ensures SortedDesc(out)
  {
    if rs == [] then []
    else
      assert rs == [rs[0]] + rs[1..];
      InsertDesc(rs[0], SortDesc(rs[1..]))
  }

  lemma {:induction false} InsertDescDistinct(x: SessionRecord, rs: seq<SessionRecord>)
    requires DistinctIds(rs) && Absent(rs, x.sessionId)
    ensures DistinctIds(InsertDesc(x, rs))
  {
    if rs != [] && rs[0].lastSeen > x.lastSeen {
      InsertDescDistinct(x, rs[1..]);
      var tail := InsertDesc(x, rs[1..]);
      forall j | 0 <= j < |tail| ensures tail[j].sessionId != rs[0].sessionId {
        assert tail[j] in multiset(tail);
        if tail[j] != x {
          assert tail[j] in rs[1..];
        }
      }
    }
  }

  /** Sorting keeps the ids distinct. */
  lemma {:induction false} SortDescDistinct(rs: seq<SessionRecord>)
    requires DistinctIds(rs)
    ensures DistinctIds(SortDesc(rs))
  {
    if rs != [] {
      var tail := SortDesc(rs[1..]);
      SortDescDistinct(rs[1..]);
      forall j | 0 <= j < |tail| ensures tail[j].sessionId != rs[0].sessionId {
        assert tail[j] in multiset(rs[1..]);
      }
      InsertDescDistinct(rs[0], tail);
    }
  }

  /** The records a save keeps: the most recent `MaxHistorySize`. */
  function Kept(rs: seq<SessionRecord>): (out: seq<SessionRecord>)
    ensures |out| == if |rs| <= MaxHistorySize then |rs| else MaxHistorySize
    ensures SortedDesc(out)
  {
    var sorted := SortDesc(rs);
    if |sorted| <= MaxHistorySize then sorted else sorted[..MaxHistorySize]
  }

  /** The records a save drops. */
  function Dropped(rs: seq<SessionRecord>): (out: seq<SessionRecord>)
    ensures Kept(rs) + out == SortDesc(rs)
  {
    var sorted := SortDesc(rs);
    if |sorted| <= MaxHistorySize then [] else sorted[MaxHistorySize..]
  }

  /** Pruning keeps whole records: kept and dropped records together are the
      table. */
  lemma PruneSplitsTable(rs: seq<SessionRecord>)
    ensures multiset(Kept(rs)) + multiset(Dropped(rs)) == multiset(rs)
  {
    assert multiset(Kept(rs) + Dropped(rs)) == multiset(Kept(rs)) + multiset(Dropped(rs));
  }

  /** Nothing dropped is more recent than anything kept. */
  lemma PruneDropsOldest(rs: seq<SessionRecord>)
    ensures forall k, d :: k in Kept(rs) && d in Dropped(rs) ==> k.lastSeen >= d.lastSeen
  {
    var sorted := SortDesc(rs);
    forall k, d | k in Kept(rs) && d in Dropped(rs) ensures k.lastSeen >= d.lastSeen {
      var i :| 0 <= i < |Kept(rs)| && Kept(rs)[i] == k;
      var j :| 0 <= j < |Dropped(rs)| && Dropped(rs)[j] == d;
      assert sorted[i] == k && sorted[|Kept(rs)| + j] == d;
    }
  }

  /** The kept records have distinct ids. */
  lemma KeptDistinct(rs: seq<SessionRecord>)
    requires DistinctIds(rs)
    ensures DistinctIds(Kept(rs))
  {
    SortDescDistinct(rs);
  }

  /** A recorded session survives the save that follows whenever the table
      is within its bound; beyond it, a session whose `lastSeen` is older than
      a hundred others is dropped by the very save that records it. */
  lemma RecordedSessionSurvivesWithinBound(rs: seq<SessionRecord>, r: SessionRecord)
    requires DistinctIds(rs)
    requires |Upsert(rs, r)| <= MaxHistorySize
    ensures !Absent(Kept(Upsert(rs, r)), r.sessionId)
  {
    var u := Upsert(rs, r);
    UpsertLookup(rs, r, r.sessionId);
    var x := Lookup(u, r.sessionId).value;
    assert x in multiset(u);
    assert x in multiset(Kept(u));
    var i :| 0 <= i < |Kept(u)| && Kept(u)[i] == x;
  }

  /** Paths the pruning tries to delete: each dropped record's non-empty
      archive path, in the sorted order. */
  function ArchivePaths(dropped: seq<SessionRecord>): (ps: seq<string>)
    ensures |ps| <= |dropped|
    ensures forall p :: p in ps ==> p != "" && exists d :: d in dropped && d.chatJsonPath == Some(p)
  {
    if dropped == [] then []
    else
      var rest := ArchivePaths(dropped[1..]);
      match dropped[0].chatJsonPath
      case Some(p) => if p != "" then [p] + rest else rest
      case None => rest
  }

  /** Every dropped record with a non-empty path gets a delete attempt. */
  lemma {:induction false} EveryDroppedPathDeleted(dropped: seq<SessionRecord>)
    ensures forall d :: d in dropped && d.chatJsonPath.Some? && d.chatJsonPath.value != "" ==>
      d.chatJsonPath.value in ArchivePaths(dropped)
  {
    if dropped != [] {
      EveryDroppedPathDeleted(dropped[1..]);
      assert forall d :: d in dropped ==> d == dropped[0] || d in dropped[1..];
    }
  }

  /** The service: the table, the current session id, the persisted list and
      the delete attempts made on archive files (a failed delete is ignored,
      so an attempt is all that is recorded). */
  class DialogSessions {
    var sessions: seq<SessionRecord>
    var currentSessionId: Option<string>
    var persisted: seq<SessionRecord>
    ghost var deleteLog: seq<string>

    ghost predicate Valid()
      reads this
    {
      DistinctIds(sessions)
    }

    /** `loadFromStorage`, run by the constructor. */
    constructor (stored: seq<SessionRecord>)
      ensures Valid()
      ensures sessions == LoadAll(stored)
      ensures currentSessionId == None && persisted == stored && deleteLog == []
    {
      var table: seq<SessionRecord> := [];
      var i := 0;
      while i < |stored|
        invariant 0 <= i <= |stored|
        invariant table == LoadAll(stored[..i])
      {
        assert stored[..i + 1][..i] == stored[..i];
        table := Put(table, stored[i]);
        i := i + 1;
      }
      assert stored[..|stored|] == stored;
      sessions := table;
      currentSessionId := None;
      persisted := stored;
      deleteLog := [];
    }

    function GetCurrentSessionId(): (id: Option<string>)
      reads this
      ensures id == currentSessionId
    {
      currentSessionId
    }

    method SetCurrentSessionId(id: Option<string>)
      modifies this
      ensures currentSessionId == id
      ensures sessions == old(sessions) && persisted == old(persisted) && deleteLog == old(deleteLog)
    {
      currentSessionId := id;
    }

    /** `getSessionHistory`: every record, most recent first. */
    function GetSessionHistory(): (h: seq<SessionRecord>)
      reads this
      ensures multiset(h) == multiset(sessions) && SortedDesc(h)
    {
      SortDesc(sessions)
    }

    /** `getSession`: exact-key lookup. */
    function GetSession(id: string): (r: Option<SessionRecord>)
      reads this
      ensures r.None? <==> Absent(sessions, id)
      ensures r.Some? ==> r.value in sessions && r.value.sessionId == id
    {
      Lookup(sessions, id)
    }

    /** `saveToStorage`, taken as one step: delete the archives of the dropped
      records, rebuild the table from the kept records in their sorted order,
      and persist exactly those. */
    method SaveToStorage()
      requires Valid()
      modifies this
      ensures Valid()
      ensures sessions == Kept(old(sessions)) && persisted == sessions
      ensures deleteLog == old(deleteLog) + ArchivePaths(Dropped(old(sessions)))
      ensures currentSessionId == old(currentSessionId)
    {
      KeptDistinct(sessions);
      var keep := Kept(sessions);
      DeleteArchives(Dropped(sessions));
      Refill(keep);
      persisted := sessions;
    }

    /** The delete loop of a save: one attempt per dropped record that has an
      archive path. */
    method DeleteArchives(remove: seq<SessionRecord>)
      modifies this
      ensures deleteLog == old(deleteLog) + ArchivePaths(remove)
      ensures sessions == old(sessions) && persisted == old(persisted) && currentSessionId == old(currentSessionId)
    {
      var i := 0;
      while i < |remove|
        invariant 0 <= i <= |remove|
        invariant deleteLog == old(deleteLog) + ArchivePaths(remove[..i])
        invariant sessions == old(sessions) && persisted == old(persisted) && currentSessionId == old(currentSessionId)
      {
        ArchivePathsSnoc(remove[..i], remove[i]);
        assert remove[..i + 1] == remove[..i] + [remove[i]];
        var path := remove[i].chatJsonPath;
        if path.Some? && path.value != "" {
          deleteLog := deleteLog + [path.value];
        }
        i := i + 1;
      }
      assert remove[..|remove|] == remove;
    }

    /** Clearing the table and setting the kept records one by one; their ids
      are distinct, so the table ends up as exactly the kept list. */
    method Refill(keep: seq<SessionRecord>)
      requires DistinctIds(keep)
      modifies this
      ensures sessions == keep
      ensures persisted == old(persisted) && currentSessionId == old(currentSessionId) && deleteLog == old(deleteLog)
    {
      sessions := [];
      var j := 0;
      while j < |keep|
        invariant 0 <= j <= |keep|
        invariant sessions == keep[..j]
        invariant persisted == old(persisted) && currentSessionId == old(currentSessionId) && deleteLog == old(deleteLog)
      {
        assert DistinctIds(keep[..j]);
        assert Absent(keep[..j], keep[j].sessionId);
        sessions := Put(sessions, keep[j]);
        assert keep[..j + 1] == keep[..j] + [keep[j]];
        j := j + 1;
      }
      assert keep[..|keep|] == keep;
    }

    /** `recordSession`: merge or insert, make it the current session, save. */
    method RecordSession(r: SessionRecord)
      requires Valid()
      modifies this
      ensures Valid()
      ensures currentSessionId == Some(r.sessionId)
      ensures sessions == Kept(Upsert(old(sessions), r)) && persisted == sessions
      ensures deleteLog == old(deleteLog) + ArchivePaths(Dropped(Upsert(old(sessions), r)))
    {
      sessions := Upsert(sessions, r);
      currentSessionId := Some(r.sessionId);
      SaveToStorage();
    }

    /** `clearHistory`: empties the table and the persisted list and forgets
      the current session; no archive is deleted. */
    method ClearHistory()
      modifies this
      ensures Valid()
      ensures sessions == [] && persisted == [] && currentSessionId == None
      ensures deleteLog == old(deleteLog)
    {
      sessions := [];
      currentSessionId := None;
      persisted := [];
    }
  }

  lemma ArchivePathsSnoc(ds: seq<SessionRecord>, d: SessionRecord)
    ensures ArchivePaths(ds + [d]) ==
      ArchivePaths(ds) + (if d.chatJsonPath.Some? && d.chatJsonPath.value != "" then [d.chatJsonPath.value] else [])
  {
    if ds != [] {
      assert (ds + [d])[1..] == ds[1..] + [d];
      ArchivePathsSnoc(ds[1..], d);
    } else {
      assert [d][1..] == [];
    }
  }
}
