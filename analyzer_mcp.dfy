/** MCP tool invocations recorded in a transcript: extraction in
    request-then-item order, filtering by tool name, the distinct tool names,
    and the per-tool success/error counts of the monitoring summary. */
module AnalyzerMcp {
  import opened Optional
  import opened JsonValue
  import opened Text
  import opened AnalyzerStatus

  datatype ToolCall = ToolCall(
    toolId: Json,
    toolName: Json,
    requestId: Option<Json>,
    input: Json,
    output: Json,
    isError: Json,
    timestamp: Option<Json>,
    source: Json)

  /** A response element that records an MCP tool invocation. */
  predicate IsMcpInvocation(item: Json) {
    && Prop(item, "kind") == Some(JStr("toolInvocationSerialized"))
    && OptProp(Prop(item, "source"), "type") == Some(JStr("mcp"))
  }

  /** The record built for an MCP element of `req`, with the `||` defaults:
      id and name fall back on each other and then on "unknown", input and
      output on `null`, `isError` on `false`. */
  function CallOf(req: Json, item: Json): (c: ToolCall)
    requires IsMcpInvocation(item)
    ensures Truthy(Some(c.toolId)) && Truthy(Some(c.toolName))
    ensures !Truthy(OptProp(Prop(item, "resultDetails"), "isError")) ==> c.isError == JBool(false)
    ensures c.requestId == Prop(req, "requestId") && c.timestamp == Prop(req, "timestamp")
    ensures OptProp(Some(c.source), "type") == Some(JStr("mcp"))
  {
    var details := Prop(item, "resultDetails");
    ToolCall(
      OrElse(Prop(item, "toolId"), OrElse(Prop(item, "toolName"), JStr("unknown"))),
      OrElse(Prop(item, "toolName"), OrElse(Prop(item, "toolId"), JStr("unknown"))),
      Prop(req, "requestId"),
      OrElse(OptProp(details, "input"), OrElse(OptProp(Prop(item, "toolSpecificData"), "rawInput"), JNull)),
      OrElse(OptProp(details, "output"), JNull),
      OrElse(OptProp(details, "isError"), JBool(false)),
      Prop(req, "timestamp"),
      Prop(item, "source").value)
  }

  /** Number of MCP elements among `items`. */
  function McpCount(items: seq<Json>): nat {
    if items == [] then 0 else (if IsMcpInvocation(items[0]) then 1 else 0) + McpCount(items[1..])
  }

  /** The calls recorded in one request's `response[]`; reading `kind` of a
      `null` element throws. */
  function ItemCalls(req: Json, items: seq<Json>): (r: Eval<seq<ToolCall>>)
    ensures r.Throws? <==> JNull in items
    ensures r.Returns? ==> |r.value| == McpCount(items)
  {
    if items == [] then Returns([])
    else if items[0] == JNull then Throws
    else match ItemCalls(req, items[1..])
      case Throws => Throws
      case Returns(rest) =>
        Returns((if IsMcpInvocation(items[0]) then [CallOf(req, items[0])] else []) + rest)
  }

  /** Every extracted call comes from an MCP element of the request. */
  lemma {:induction false} ItemCallsSound(req: Json, items: seq<Json>)
    requires ItemCalls(req, items).Returns?
    ensures var r := ItemCalls(req, items).value;
      forall c :: c in r ==> exists k :: 0 <= k < |items| && IsMcpInvocation(items[k]) && c == CallOf(req, items[k])
  {
    if items != [] {
      ItemCallsSound(req, items[1..]);
      var r := ItemCalls(req, items).value;
      var rest := ItemCalls(req, items[1..]).value;
      forall c | c in r
        ensures exists k :: 0 <= k < |items| && IsMcpInvocation(items[k]) && c == CallOf(req, items[k])
      {
        if c in rest {
          var k :| 0 <= k < |items[1..]| && IsMcpInvocation(items[1..][k]) && c == CallOf(req, items[1..][k]);
          assert items[k + 1] == items[1..][k];
        } else {
          assert c == CallOf(req, items[0]);
        }
      }
    }
  }

  /** The elements a request contributes: `response` when it is a truthy array. */
  function ResponseItems(req: Json): seq<Json> {
    match Prop(req, "response")
    case Some(JArr(xs)) => xs
    case _ => []
  }

  /** The calls of a run of requests, request by request; reading `response`
      of a `null` request throws. */
  function RequestCalls(reqs: seq<Json>): (r: Eval<seq<ToolCall>>)
    ensures r.Throws? <==> exists k :: 0 <= k < |reqs| && (reqs[k] == JNull || JNull in ResponseItems(reqs[k]))
  {
    if reqs == [] then Returns([])
    else if reqs[0] == JNull then Throws
    else match ItemCalls(reqs[0], ResponseItems(reqs[0]))
      case Throws => Throws
      case Returns(first) =>
        match RequestCalls(reqs[1..])
        case Throws =>
          var k :| 0 <= k < |reqs[1..]| && (reqs[1..][k] == JNull || JNull in ResponseItems(reqs[1..][k]));
          assert reqs[k + 1] == reqs[1..][k];
          Throws
        case Returns(rest) =>
          assert forall k :: 1 <= k < |reqs| ==> reqs[k] == reqs[1..][k - 1];
          Returns(first + rest)
  }

  /** Extraction follows request order: the calls of two runs of requests are
      the calls of the first run followed by those of the second. */
  lemma {:induction false} RequestCallsAppend(a: seq<Json>, b: seq<Json>)
    requires RequestCalls(a).Returns? && RequestCalls(b).Returns?
    ensures RequestCalls(a + b) == Returns(RequestCalls(a).value + RequestCalls(b).value)
  {
    if a == [] {
      assert a + b == b;
      assert RequestCalls(a).value + RequestCalls(b).value == RequestCalls(b).value;
    } else {
      assert (a + b)[1..] == a[1..] + b;
      assert a[0] != JNull;
      var first := ItemCalls(a[0], ResponseItems(a[0]));
      assert first.Returns?;
      var restA := RequestCalls(a[1..]);
      assert restA.Returns?;
      RequestCallsAppend(a[1..], b);
      assert first.value + (restA.value + RequestCalls(b).value) == (first.value + restA.value) + RequestCalls(b).value;
    }
  }

  /** `extractMcpToolCalls`; reading `requests` of a `null` transcript throws. */
  function ExtractMcpToolCalls(chat: Json): (r: Eval<seq<ToolCall>>)
    ensures chat.JNull? ==> r.Throws?
    ensures !chat.JNull? && !HasRequests(chat) ==> r == Returns([])
    ensures !chat.JNull? && HasRequests(chat) ==> r == RequestCalls(RequestList(chat).value)
  {
    if chat.JNull? then Throws
    else if !HasRequests(chat) then Returns([])
    else RequestCalls(RequestList(chat).value)
  }

  // ---- Filtering by tool ----

  /** `v.includes(needle)`: substring search on strings, element search on
      arrays; every other value has no `includes` and the call throws. */
  function Includes(v: Json, needle: string): (r: Eval<bool>)
    ensures v.JStr? ==> r == Returns(Contains(v.s, needle))
    ensures v.JArr? ==> r == Returns(JStr(needle) in v.items)
    ensures !v.JStr? && !v.JArr? ==> r.Throws?
  {
    match v
    case JStr(s) => Returns(Contains(s, needle))
    case JArr(xs) => Returns(JStr(needle) in xs)
    case _ => Throws
  }

  /** `call.toolName.includes(name) || call.toolId.includes(name)`, evaluated
      left to right, so the id is not consulted once the name matches. */
  function Matches(c: ToolCall, name: string): (r: Eval<bool>)
    ensures Includes(c.toolName, name) == Returns(true) ==> r == Returns(true)
    ensures Includes(c.toolName, name) == Returns(false) ==> r == Includes(c.toolId, name)
    ensures Includes(c.toolName, name).Throws? ==> r.Throws?
  {
    match Includes(c.toolName, name)
    case Throws => Throws
    case Returns(true) => Returns(true)
    case Returns(false) => Includes(c.toolId, name)
  }

  /** The `filter` over the calls; a call whose name or id has no `includes` throws. */
  function FilterCalls(calls: seq<ToolCall>, name: string): (r: Eval<seq<ToolCall>>)
    ensures r.Throws? <==> exists k :: 0 <= k < |calls| && Matches(calls[k], name).Throws?
    ensures r.Returns? ==> |r.value| <= |calls|
    ensures r.Returns? ==> forall c :: c in r.value ==> c in calls && Matches(c, name) == Returns(true)
    ensures r.Returns? ==> forall c :: c in calls && Matches(c, name) == Returns(true) ==> c in r.value
    ensures r.Returns? ==> r.value == Kept(calls, name)
  {
    if calls == [] then Returns([])
    else match Matches(calls[0], name)
      case Throws => Throws
      case Returns(keep) =>
        match FilterCalls(calls[1..], name)
        case Throws =>
          var k :| 0 <= k < |calls[1..]| && Matches(calls[1..][k], name).Throws?;
          assert calls[k + 1] == calls[1..][k];
          Throws
        case Returns(rest) =>
          assert forall c :: c in calls ==> c == calls[0] || c in calls[1..];
          Returns((if keep then [calls[0]] else []) + rest)
  }

  /** The calls that match `name`, in their order: what the filter keeps
      when no call throws. */
  function Kept(calls: seq<ToolCall>, name: string): seq<ToolCall> {
    if calls == [] then []
    else (if Matches(calls[0], name) == Returns(true) then [calls[0]] else []) + Kept(calls[1..], name)
  }

  /** Keeping distributes over concatenation, so the kept calls stay in
      their order and with their multiplicity. */
  lemma {:induction false} KeptAppend(a: seq<ToolCall>, b: seq<ToolCall>, name: string)
    ensures Kept(a + b, name) == Kept(a, name) + Kept(b, name)
    decreases |a|
  {
    if a == [] {
      assert a + b == b;
    } else {
      var ab := a + b;
      assert ab[0] == a[0] && ab[1..] == a[1..] + b;
      var head := if Matches(a[0], name) == Returns(true) then [a[0]] else [];
      assert Kept(ab, name) == head + Kept(a[1..] + b, name);
      KeptAppend(a[1..], b, name);
      assert head + (Kept(a[1..], name) + Kept(b, name)) == (head + Kept(a[1..], name)) + Kept(b, name);
    }
  }

  /** Filtering a concatenation filters each part: the filter keeps the
      order of the calls. */
  lemma FilterCallsPreservesOrder(a: seq<ToolCall>, b: seq<ToolCall>, name: string)
    requires FilterCalls(a + b, name).Returns?
    ensures FilterCalls(a, name).Returns? && FilterCalls(b, name).Returns?
    ensures FilterCalls(a + b, name).value == FilterCalls(a, name).value + FilterCalls(b, name).value
  {
    forall k | 0 <= k < |a| ensures Matches(a[k], name).Returns? {
      assert (a + b)[k] == a[k];
    }
    forall k | 0 <= k < |b| ensures Matches(b[k], name).Returns? {
      assert (a + b)[|a| + k] == b[k];
    }
    KeptAppend(a, b, name);
  }

  /** `getMcpToolCalls`. */
  function GetMcpToolCalls(chat: Json, name: string): (r: Eval<seq<ToolCall>>)
    ensures ExtractMcpToolCalls(chat).Throws? ==> r.Throws?
    ensures ExtractMcpToolCalls(chat).Returns? ==> r == FilterCalls(ExtractMcpToolCalls(chat).value, name)
  {
    match ExtractMcpToolCalls(chat)
    case Throws => Throws
    case Returns(calls) => FilterCalls(calls, name)
  }

  /** When names are plain strings, filtering is substring matching on the
      name or the id. */
  lemma FilterOnStrings(c: ToolCall, name: string)
    requires c.toolName.JStr? && c.toolId.JStr?
    ensures Matches(c, name) == Returns(Contains(c.toolName.s, name) || Contains(c.toolId.s, name))
  {
  }

  // ---- Distinct names and grouping ----

  /** Equality of `Set` and `Map` keys (SameValueZero): primitive values
      compare by value, while every array or object parsed from the
      transcript is a distinct key. */
  predicate SameKey(a: Json, b: Json) {
    a == b && !a.JArr? && !a.JObj?
  }

  /** The key a call is grouped under, `call.toolName || call.toolId`; the
      name is always truthy, so it is the name. */
  function KeyOf(c: ToolCall): (k: Json)
    ensures Truthy(Some(c.toolName)) ==> k == c.toolName
  {
    OrElse(Some(c.toolName), c.toolId)
  }

  predicate HasKeyLike(keys: seq<Json>, k: Json) {
    exists i :: 0 <= i < |keys| && SameKey(keys[i], k)
  }

  /** `Set.add` on an insertion-ordered set. */
  function AddKey(keys: seq<Json>, k: Json): (r: seq<Json>)
    ensures HasKeyLike(keys, k) ==> r == keys
    ensures !HasKeyLike(keys, k) ==> r == keys + [k]
  {
    if HasKeyLike(keys, k) then keys else keys + [k]
  }

  /** The keys of `calls` added in order to the set `keys`. */
  function AddKeys(keys: seq<Json>, calls: seq<ToolCall>): seq<Json>
    decreases |calls|
  {
    if calls == [] then keys else AddKeys(AddKey(keys, KeyOf(calls[0])), calls[1..])
  }

  /** No two entries of a key list are the same key. */
  predicate DistinctKeys(keys: seq<Json>) {
    forall i, j :: 0 <= i < j < |keys| ==> !SameKey(keys[i], keys[j])
  }

  lemma {:induction false} AddKeysDistinct(keys: seq<Json>, calls: seq<ToolCall>)
    requires DistinctKeys(keys)
    ensures DistinctKeys(AddKeys(keys, calls))
    ensures keys <= AddKeys(keys, calls)
    ensures forall c :: c in calls ==> KeyOf(c) in AddKeys(keys, calls)
    ensures forall k :: k in AddKeys(keys, calls) ==> k in keys || exists c :: c in calls && KeyOf(c) == k
    decreases |calls|
  {
    if calls != [] {
      var next := AddKey(keys, KeyOf(calls[0]));
      if !HasKeyLike(keys, KeyOf(calls[0])) {
        forall i, j | 0 <= i < j < |next| ensures !SameKey(next[i], next[j]) {
          if j == |keys| {
            assert !SameKey(keys[i], KeyOf(calls[0]));
          }
        }
      } else {
        var i :| 0 <= i < |keys| && SameKey(keys[i], KeyOf(calls[0]));
        assert keys[i] == KeyOf(calls[0]);
      }
      assert KeyOf(calls[0]) in next;
      AddKeysDistinct(next, calls[1..]);
      assert forall c :: c in calls ==> c == calls[0] || c in calls[1..];
    }
  }

  /** `getMcpToolNames`: each tool key once, in order of first use. */
  function GetMcpToolNames(chat: Json): (r: Eval<seq<Json>>)
    ensures r.Throws? <==> ExtractMcpToolCalls(chat).Throws?
    ensures r.Returns? ==> DistinctKeys(r.value)
    ensures r.Returns? ==> forall c :: c in ExtractMcpToolCalls(chat).value ==> KeyOf(c) in r.value
    ensures r.Returns? ==> forall k :: k in r.value ==> exists c :: c in ExtractMcpToolCalls(chat).value && KeyOf(c) == k
  {
    match ExtractMcpToolCalls(chat)
    case Throws => Throws
    case Returns(calls) =>
      AddKeysDistinct([], calls);
      Returns(AddKeys([], calls))
  }

  // ---- Monitoring counts ----

  /** Calls whose `isError` is falsy. */
  function SuccessCount(calls: seq<ToolCall>): nat {
    if calls == [] then 0 else (if !Truthy(Some(calls[0].isError)) then 1 else 0) + SuccessCount(calls[1..])
  }

  /** Calls whose `isError` is truthy. */
  function ErrorCount(calls: seq<ToolCall>): nat {
    if calls == [] then 0 else (if Truthy(Some(calls[0].isError)) then 1 else 0) + ErrorCount(calls[1..])
  }

  lemma {:induction false} SuccessPlusErrors(calls: seq<ToolCall>)
    ensures SuccessCount(calls) + ErrorCount(calls) == |calls|
  {
    if calls != [] {
      SuccessPlusErrors(calls[1..]);
    }
  }

  /** The counts reported for one tool. */
  datatype ToolMonitoring = ToolMonitoring(toolName: Json, totalCalls: nat, successfulCalls: nat, errorCalls: nat, calls: seq<ToolCall>)

  function MonitoringOf(key: Json, calls: seq<ToolCall>): (m: ToolMonitoring)
    ensures m.successfulCalls + m.errorCalls == m.totalCalls == |m.calls|
    ensures m.calls == calls && m.toolName == key
  {
    SuccessPlusErrors(calls);
    ToolMonitoring(key, |calls|, SuccessCount(calls), ErrorCount(calls), calls)
  }

  /** A group of calls under one key, as held by the `Map`. */
  datatype Group = Group(key: Json, calls: seq<ToolCall>)

  function GroupKeys(groups: seq<Group>): seq<Json> {
    if groups == [] then [] else [groups[0].key] + GroupKeys(groups[1..])
  }

  function GroupedCount(groups: seq<Group>): nat {
    if groups == [] then 0 else |groups[0].calls| + GroupedCount(groups[1..])
  }

  /** Appends `c` to the group of its key, or opens a new group at the end. */
  function InsertCall(groups: seq<Group>, c: ToolCall): (r: seq<Group>)
    ensures GroupKeys(r) == AddKey(GroupKeys(groups), KeyOf(c))
    ensures GroupedCount(r) == GroupedCount(groups) + 1
  {
    if groups == [] then [Group(KeyOf(c), [c])]
    else if SameKey(groups[0].key, KeyOf(c)) then
      [Group(groups[0].key, groups[0].calls + [c])] + groups[1..]
    else
      var rest := InsertCall(groups[1..], c);
      assert HasKeyLike(GroupKeys(groups), KeyOf(c)) <==> HasKeyLike(GroupKeys(groups[1..]), KeyOf(c)) by {
        var ks := GroupKeys(groups);
        assert ks == [groups[0].key] + GroupKeys(groups[1..]);
        if HasKeyLike(ks, KeyOf(c)) {
          var i :| 0 <= i < |ks| && SameKey(ks[i], KeyOf(c));
          assert i > 0 && ks[i] == GroupKeys(groups[1..])[i - 1];
        }
        if HasKeyLike(GroupKeys(groups[1..]), KeyOf(c)) {
          var i :| 0 <= i < |GroupKeys(groups[1..])| && SameKey(GroupKeys(groups[1..])[i], KeyOf(c));
          assert ks[i + 1] == GroupKeys(groups[1..])[i];
        }
      }
      [groups[0]] + rest
  }

  function GroupAll(groups: seq<Group>, calls: seq<ToolCall>): (r: seq<Group>)
    ensures GroupKeys(r) == AddKeys(GroupKeys(groups), calls)
    ensures GroupedCount(r) == GroupedCount(groups) + |calls|
    decreases |calls|
  {
    if calls == [] then groups else GroupAll(InsertCall(groups, calls[0]), calls[1..])
  }

  /** Total monitoring over all tools. */
  datatype MonitoringSummary = MonitoringSummary(totalTools: nat, totalCalls: nat, tools: seq<ToolMonitoring>)

  /** The outcome of `getMcpToolMonitoring`: one tool when a name is given,
      the summary over all tools otherwise. */
  datatype Monitoring = OneTool(tool: ToolMonitoring) | AllTools(summary: MonitoringSummary)

  function TotalOver(tools: seq<ToolMonitoring>): nat {
    if tools == [] then 0 else tools[0].totalCalls + TotalOver(tools[1..])
  }

  function MonitorGroups(groups: seq<Group>): (r: seq<ToolMonitoring>)
    ensures |r| == |groups|
    ensures TotalOver(r) == GroupedCount(groups)
    ensures forall i :: 0 <= i < |r| ==> r[i] == MonitoringOf(groups[i].key, groups[i].calls)
  {
    if groups == [] then [] else [MonitoringOf(groups[0].key, groups[0].calls)] + MonitorGroups(groups[1..])
  }

  lemma {:induction false} GroupKeysLength(groups: seq<Group>)
    ensures |GroupKeys(groups)| == |groups|
    ensures forall i :: 0 <= i < |groups| ==> GroupKeys(groups)[i] == groups[i].key
  {
    if groups != [] {
      GroupKeysLength(groups[1..]);
    }
  }

  /** Keys that compare by value; an array or object key only ever equals
      itself as the very same object, which no other call shares. */
  predicate PrimitiveKey(k: Json) {
    !k.JArr? && !k.JObj?
  }

  /** The calls whose key is the same `Map` key as `key`, in order. */
  function CallsUnder(calls: seq<ToolCall>, key: Json): seq<ToolCall> {
    if calls == [] then []
    else (if SameKey(key, KeyOf(calls[0])) then [calls[0]] else []) + CallsUnder(calls[1..], key)
  }

  lemma {:induction false} NoCallsUnderObjectKey(calls: seq<ToolCall>, key: Json)
    requires !PrimitiveKey(key)
    ensures CallsUnder(calls, key) == []
    decreases |calls|
  {
    if calls != [] {
      NoCallsUnderObjectKey(calls[1..], key);
    }
  }

  /** Inserting one call into groups with distinct keys appends it to the
      group of its key and changes no other group, or opens a new group
      holding just that call at the end. */
  lemma {:induction false} InsertCallContents(groups: seq<Group>, c: ToolCall)
    requires DistinctKeys(GroupKeys(groups))
    ensures var r := InsertCall(groups, c);
      && |r| == (if HasKeyLike(GroupKeys(groups), KeyOf(c)) then |groups| else |groups| + 1)
      && (forall i :: 0 <= i < |groups| ==>
            r[i] == Group(groups[i].key, groups[i].calls + CallsUnder([c], groups[i].key)))
      && (!HasKeyLike(GroupKeys(groups), KeyOf(c)) ==> r[|groups|] == Group(KeyOf(c), [c]))
    decreases |groups|
  {
    var r := InsertCall(groups, c);
    GroupKeysLength(groups);
    GroupKeysLength(r);
    assert [c][1..] == [];
    if groups != [] {
      var ks := GroupKeys(groups);
      assert ks == [groups[0].key] + GroupKeys(groups[1..]);
      GroupKeysLength(groups[1..]);
      if SameKey(groups[0].key, KeyOf(c)) {
        forall i | 1 <= i < |groups| ensures !SameKey(groups[i].key, KeyOf(c)) {
          assert !SameKey(ks[0], ks[i]);
        }
      } else {
        assert DistinctKeys(GroupKeys(groups[1..])) by {
          forall i, j | 0 <= i < j < |groups| - 1
            ensures !SameKey(GroupKeys(groups[1..])[i], GroupKeys(groups[1..])[j])
          {
            assert !SameKey(ks[i + 1], ks[j + 1]);
          }
        }
        InsertCallContents(groups[1..], c);
        var rest := InsertCall(groups[1..], c);
        assert r == [groups[0]] + rest;
        forall i | 1 <= i < |groups|
          ensures r[i] == Group(groups[i].key, groups[i].calls + CallsUnder([c], groups[i].key))
        {
          assert r[i] == rest[i - 1] && groups[1..][i - 1] == groups[i];
        }
      }
    }
  }

  /** Keys in a list that already holds `KeyOf(c)` after `c` was inserted. */
  lemma KeyOfInsertedCall(groups: seq<Group>, c: ToolCall)
    requires DistinctKeys(GroupKeys(groups))
    ensures var g := InsertCall(groups, c);
      exists j :: 0 <= j < |g| && j <= |groups| && g[j].key == KeyOf(c)
  {
    var g := InsertCall(groups, c);
    InsertCallContents(groups, c);
    GroupKeysLength(groups);
    if HasKeyLike(GroupKeys(groups), KeyOf(c)) {
      var j :| 0 <= j < |GroupKeys(groups)| && SameKey(GroupKeys(groups)[j], KeyOf(c));
      assert g[j].key == groups[j].key == KeyOf(c);
    } else {
      assert g[|groups|].key == KeyOf(c);
    }
  }

  /** The calls under a key, split after the first call. */
  lemma CallsUnderCons(calls: seq<ToolCall>, key: Json)
    requires calls != []
    ensures CallsUnder(calls, key) == CallsUnder([calls[0]], key) + CallsUnder(calls[1..], key)
  {
    assert [calls[0]][1..] == [];
  }

  lemma InsertKeepsKeysDistinct(groups: seq<Group>, c: ToolCall)
    requires DistinctKeys(GroupKeys(groups))
    ensures DistinctKeys(GroupKeys(InsertCall(groups, c)))
  {
    AddKeysDistinct(GroupKeys(groups), [c]);
    assert [c][1..] == [];
  }

  lemma InsertCallGrowsByOne(groups: seq<Group>, c: ToolCall)
    ensures |groups| <= |InsertCall(groups, c)| <= |groups| + 1
  {
    GroupKeysLength(groups);
    GroupKeysLength(InsertCall(groups, c));
  }

  lemma GroupAllKeysDistinct(groups: seq<Group>, calls: seq<ToolCall>)
    requires DistinctKeys(GroupKeys(groups))
    ensures var r := GroupAll(groups, calls);
      && DistinctKeys(GroupKeys(r)) && |GroupKeys(r)| == |r|
      && forall i :: 0 <= i < |r| ==> GroupKeys(r)[i] == r[i].key
  {
    AddKeysDistinct(GroupKeys(groups), calls);
    GroupKeysLength(GroupAll(groups, calls));
  }

  /** Step for the groups that existed before the first call was inserted. */
  lemma GroupAllOldGroups(groups: seq<Group>, calls: seq<ToolCall>, r: seq<Group>)
    requires calls != [] && DistinctKeys(GroupKeys(groups))
    requires var g1 := InsertCall(groups, calls[0]);
      && |g1| <= |r|
      && forall i :: 0 <= i < |g1| ==> r[i] == Group(g1[i].key, g1[i].calls + CallsUnder(calls[1..], g1[i].key))
    ensures |groups| <= |r|
    ensures forall i :: 0 <= i < |groups| ==>
      r[i] == Group(groups[i].key, groups[i].calls + CallsUnder(calls, groups[i].key))
  {
    var g1 := InsertCall(groups, calls[0]);
    InsertCallContents(groups, calls[0]);
    forall i | 0 <= i < |groups|
      ensures r[i] == Group(groups[i].key, groups[i].calls + CallsUnder(calls, groups[i].key))
    {
      OldGroupStep(groups[i], g1[i], r[i], calls);
    }
  }

  lemma OldGroupStep(g: Group, g1: Group, r: Group, calls: seq<ToolCall>)
    requires calls != []
    requires g1 == Group(g.key, g.calls + CallsUnder([calls[0]], g.key))
    requires r == Group(g1.key, g1.calls + CallsUnder(calls[1..], g1.key))
    ensures r == Group(g.key, g.calls + CallsUnder(calls, g.key))
  {
    CallsUnderCons(calls, g.key);
    assert g.calls + CallsUnder([calls[0]], g.key) + CallsUnder(calls[1..], g.key)
        == g.calls + (CallsUnder([calls[0]], g.key) + CallsUnder(calls[1..], g.key));
  }

  /** Step for the group the first call may have opened. */
  lemma GroupAllOpenedGroup(groups: seq<Group>, calls: seq<ToolCall>, r: seq<Group>)
    requires calls != [] && DistinctKeys(GroupKeys(groups))
    requires var g1 := InsertCall(groups, calls[0]);
      && |g1| <= |r|
      && forall i :: 0 <= i < |g1| ==> r[i] == Group(g1[i].key, g1[i].calls + CallsUnder(calls[1..], g1[i].key))
    requires |groups| < |InsertCall(groups, calls[0])|
    ensures var i := |groups|;
      && (PrimitiveKey(r[i].key) ==> r[i].calls == CallsUnder(calls, r[i].key))
      && (!PrimitiveKey(r[i].key) ==> |r[i].calls| == 1 && r[i].calls[0] in calls && KeyOf(r[i].calls[0]) == r[i].key)
  {
    var c0 := calls[0];
    InsertCallContents(groups, c0);
    GroupKeysLength(groups);
    assert InsertCall(groups, c0)[|groups|] == Group(KeyOf(c0), [c0]);
    CallsUnderCons(calls, KeyOf(c0));
    if PrimitiveKey(KeyOf(c0)) {
      assert CallsUnder([c0], KeyOf(c0)) == [c0];
    } else {
      NoCallsUnderObjectKey(calls[1..], KeyOf(c0));
    }
  }

  /** Step for the groups opened by the later calls: the first call's key
      already has a group before them, so none of them is its key. */
  lemma GroupAllLaterGroups(groups: seq<Group>, calls: seq<ToolCall>, r: seq<Group>)
    requires calls != [] && DistinctKeys(GroupKeys(groups))
    requires DistinctKeys(GroupKeys(r)) && |GroupKeys(r)| == |r|
    requires forall i :: 0 <= i < |r| ==> GroupKeys(r)[i] == r[i].key
    requires var g1 := InsertCall(groups, calls[0]);
      && |g1| <= |r|
      && (forall i :: 0 <= i < |g1| ==> r[i].key == g1[i].key)
      && (forall i :: |g1| <= i < |r| && PrimitiveKey(r[i].key) ==> r[i].calls == CallsUnder(calls[1..], r[i].key))
      && (forall i :: |g1| <= i < |r| && !PrimitiveKey(r[i].key) ==>
            |r[i].calls| == 1 && r[i].calls[0] in calls[1..] && KeyOf(r[i].calls[0]) == r[i].key)
    ensures var g1 := InsertCall(groups, calls[0]);
      && (forall i :: |g1| <= i < |r| && PrimitiveKey(r[i].key) ==> r[i].calls == CallsUnder(calls, r[i].key))
      && (forall i :: |g1| <= i < |r| && !PrimitiveKey(r[i].key) ==>
            |r[i].calls| == 1 && r[i].calls[0] in calls && KeyOf(r[i].calls[0]) == r[i].key)
  {
    var c0 := calls[0];
    var g1 := InsertCall(groups, c0);
    KeyOfInsertedCall(groups, c0);
    var j :| 0 <= j < |g1| && j <= |groups| && g1[j].key == KeyOf(c0);
    assert r[j].key == KeyOf(c0);
    forall i | |g1| <= i < |r| && PrimitiveKey(r[i].key)
      ensures r[i].calls == CallsUnder(calls, r[i].key)
    {
      assert !SameKey(GroupKeys(r)[j], GroupKeys(r)[i]);
      LaterGroupStep(r[i], calls);
    }
  }

  lemma LaterGroupStep(g: Group, calls: seq<ToolCall>)
    requires calls != [] && !SameKey(KeyOf(calls[0]), g.key)
    requires g.calls == CallsUnder(calls[1..], g.key)
    ensures g.calls == CallsUnder(calls, g.key)
  {
    CallsUnderCons(calls, g.key);
    assert CallsUnder([calls[0]], g.key) == [];
  }

  /** One call of the grouping: what holds of the groups after the rest of
      the calls, given what holds after the first one was inserted. */
  lemma GroupAllStep(groups: seq<Group>, calls: seq<ToolCall>, r: seq<Group>)
    requires calls != [] && DistinctKeys(GroupKeys(groups))
    requires DistinctKeys(GroupKeys(r)) && |GroupKeys(r)| == |r|
    requires forall i :: 0 <= i < |r| ==> GroupKeys(r)[i] == r[i].key
    requires var g1 := InsertCall(groups, calls[0]);
      && |g1| <= |r|
      && (forall i :: 0 <= i < |g1| ==> r[i] == Group(g1[i].key, g1[i].calls + CallsUnder(calls[1..], g1[i].key)))
      && (forall i :: |g1| <= i < |r| && PrimitiveKey(r[i].key) ==> r[i].calls == CallsUnder(calls[1..], r[i].key))
      && (forall i :: |g1| <= i < |r| && !PrimitiveKey(r[i].key) ==>
            |r[i].calls| == 1 && r[i].calls[0] in calls[1..] && KeyOf(r[i].calls[0]) == r[i].key)
    ensures |groups| <= |r|
    ensures forall i :: 0 <= i < |groups| ==>
      r[i] == Group(groups[i].key, groups[i].calls + CallsUnder(calls, groups[i].key))
    ensures forall i :: |groups| <= i < |r| && PrimitiveKey(r[i].key) ==>
      r[i].calls == CallsUnder(calls, r[i].key)
    ensures forall i :: |groups| <= i < |r| && !PrimitiveKey(r[i].key) ==>
      |r[i].calls| == 1 && r[i].calls[0] in calls && KeyOf(r[i].calls[0]) == r[i].key
  {
    var g1 := InsertCall(groups, calls[0]);
    InsertCallGrowsByOne(groups, calls[0]);
    GroupAllOldGroups(groups, calls, r);
    GroupAllLaterGroups(groups, calls, r);
    if |groups| < |g1| {
      GroupAllOpenedGroup(groups, calls, r);
      var n := |groups|;
      forall i | n <= i < |r| && PrimitiveKey(r[i].key) ensures r[i].calls == CallsUnder(calls, r[i].key) {
        assert i == n || i >= |g1|;
      }
      forall i | n <= i < |r| && !PrimitiveKey(r[i].key)
        ensures |r[i].calls| == 1 && r[i].calls[0] in calls && KeyOf(r[i].calls[0]) == r[i].key
      {
        assert i == n || i >= |g1|;
      }
    }
  }

  /** Grouping the calls into groups with distinct keys: each existing group
      gains exactly the calls of its key, in order; a new group with a
      by-value key holds exactly the calls of that key, in order; a new
      group under an array or object key holds the one call it came from. */
  lemma {:induction false} GroupAllContents(groups: seq<Group>, calls: seq<ToolCall>)
    requires DistinctKeys(GroupKeys(groups))
    ensures var r := GroupAll(groups, calls);
      && |groups| <= |r|
      && (forall i :: 0 <= i < |groups| ==>
            r[i] == Group(groups[i].key, groups[i].calls + CallsUnder(calls, groups[i].key)))
      && (forall i :: |groups| <= i < |r| && PrimitiveKey(r[i].key) ==>
            r[i].calls == CallsUnder(calls, r[i].key))
      && (forall i :: |groups| <= i < |r| && !PrimitiveKey(r[i].key) ==>
            |r[i].calls| == 1 && r[i].calls[0] in calls && KeyOf(r[i].calls[0]) == r[i].key)
    decreases |calls|
  {
    if calls == [] {
      forall k ensures CallsUnder(calls, k) == [] {
      }
    } else {
      var g1 := InsertCall(groups, calls[0]);
      var r := GroupAll(g1, calls[1..]);
      assert r == GroupAll(groups, calls);
      InsertKeepsKeysDistinct(groups, calls[0]);
      GroupAllContents(g1, calls[1..]);
      GroupAllKeysDistinct(g1, calls[1..]);
      GroupAllStep(groups, calls, r);
    }
  }

  /** `getMcpToolMonitoring`, counts only. A truthy name selects one tool by
      the same matching as `getMcpToolCalls`; otherwise the calls are grouped by key. */
  function GetMcpToolMonitoring(chat: Json, name: Option<string>): (r: Eval<Monitoring>)
    ensures ExtractMcpToolCalls(chat).Throws? ==> r.Throws?
    ensures name.Some? && name.value != "" ==>
      (r.Returns? <==> GetMcpToolCalls(chat, name.value).Returns?)
    ensures name.Some? && name.value != "" && r.Returns? ==>
      r.value.OneTool? && r.value.tool.calls == GetMcpToolCalls(chat, name.value).value
  {
    match ExtractMcpToolCalls(chat)
    case Throws => Throws
    case Returns(calls) =>
      if name.Some? && name.value != "" then
        match FilterCalls(calls, name.value)
        case Throws => Throws
        case Returns(selected) => Returns(OneTool(MonitoringOf(JStr(name.value), selected)))
      else
        var tools := MonitorGroups(GroupAll([], calls));
        Returns(AllTools(MonitoringSummary(|tools|, |calls|, tools)))
  }

  /** In the summary every call is counted in exactly one tool, and there is
      one tool per distinct name reported by `getMcpToolNames`. */
  lemma SummaryAccountsForEveryCall(chat: Json)
    requires GetMcpToolMonitoring(chat, None).Returns?
    ensures var s := GetMcpToolMonitoring(chat, None).value.summary;
      && TotalOver(s.tools) == s.totalCalls == |ExtractMcpToolCalls(chat).value|
      && s.totalTools == |GetMcpToolNames(chat).value|
      && forall i :: 0 <= i < |s.tools| ==>
           s.tools[i].successfulCalls + s.tools[i].errorCalls == s.tools[i].totalCalls
  {
    var calls := ExtractMcpToolCalls(chat).value;
    var groups := GroupAll([], calls);
    assert GroupKeys([]) == [];
    GroupKeysLength(groups);
  }

  /** Each tool of the summary holds the calls made under its name, in the
      order they were made; a tool keyed by an array or object holds one call. */
  lemma SummaryToolsHoldCallsOfTheirKey(chat: Json)
    requires GetMcpToolMonitoring(chat, None).Returns?
    ensures var calls := ExtractMcpToolCalls(chat).value;
      var tools := GetMcpToolMonitoring(chat, None).value.summary.tools;
      forall i :: 0 <= i < |tools| ==>
        (PrimitiveKey(tools[i].toolName) ==> tools[i].calls == CallsUnder(calls, tools[i].toolName))
        && (!PrimitiveKey(tools[i].toolName) ==> |tools[i].calls| == 1 && tools[i].calls[0] in calls)
  {
    var calls := ExtractMcpToolCalls(chat).value;
    var groups := GroupAll([], calls);
    GroupAllContents([], calls);
    var tools := MonitorGroups(groups);
    assert GetMcpToolMonitoring(chat, None).value.summary.tools == tools;
    forall i | 0 <= i < |tools|
      ensures PrimitiveKey(tools[i].toolName) ==> tools[i].calls == CallsUnder(calls, tools[i].toolName)
      ensures !PrimitiveKey(tools[i].toolName) ==> |tools[i].calls| == 1 && tools[i].calls[0] in calls
    {
      assert tools[i] == MonitoringOf(groups[i].key, groups[i].calls);
    }
  }
}
