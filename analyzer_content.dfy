/** The content views of `CopilotChatAnalyzer`: the text of an AI response
    (with duplicate tool-round text removed), the tool-call count, the user
    requests, the AI responses and the conversation history that pairs them. */
module AnalyzerContent {
  import opened Optional
  import opened JsonValue
  import opened Text
  import opened AnalyzerStatus

  // ---- Response text ----

  /** The text one element of `response[]` contributes: a string element as it
      is, even when empty, or the element's `value` when that is a non-empty string. */
  function ItemText(item: Json): Option<string> {
    match item
    case JStr(s) => Some(s)
    case _ =>
      match Prop(item, "value")
      case Some(JStr(s)) => if s != "" then Some(s) else None
      case _ => None
  }

  /** The parts collected from `response[]`; a `null` element throws when its
      `value` is read. */
  function ItemParts(items: seq<Json>): (r: Eval<seq<string>>)
    ensures r.Throws? <==> JNull in items
    ensures r.Returns? ==> |r.value| <= |items|
    ensures r.Returns? ==>
      forall k :: 0 <= k < |items| && ItemText(items[k]).Some? ==> ItemText(items[k]).value in r.value
  {
    if items == [] then Returns([])
    else if items[0] == JNull then Throws
    else match ItemParts(items[1..])
      case Throws => Throws
      case Returns(rest) =>
        Returns((if ItemText(items[0]).Some? then [ItemText(items[0]).value] else []) + rest)
  }

  /** Collecting parts is compositional: the parts of two runs of elements are
      the parts of the first followed by the parts of the second, so the
      response order is preserved. */
  lemma {:induction false} ItemPartsAppend(a: seq<Json>, b: seq<Json>)
    requires JNull !in a && JNull !in b
    ensures ItemParts(a + b).Returns?
    ensures ItemParts(a + b).value == ItemParts(a).value + ItemParts(b).value
  {
    if a == [] {
      assert a + b == b;
    } else {
      var ab := a + b;
      assert ab[0] == a[0] && ab[1..] == a[1..] + b;
      assert JNull !in a[1..];
      ItemPartsAppend(a[1..], b);
    }
  }

  /** `round.response` when it is a non-empty string. */
  function RoundText(round: Json): Option<string> {
    match Prop(round, "response")
    case Some(JStr(s)) => if s != "" then Some(s) else None
    case _ => None
  }

  /** The tool-round pass: a round's text is appended unless it equals a part
      already collected (from `response[]` or from an earlier round). */
  function AddRoundTexts(parts: seq<string>, rounds: seq<Json>): (r: Eval<seq<string>>)
    ensures r.Throws? <==> JNull in rounds
    ensures r.Returns? ==> parts <= r.value
    decreases |rounds|
  {
    if rounds == [] then Returns(parts)
    else if rounds[0] == JNull then Throws
    else AddRoundTexts(NextParts(parts, rounds[0]), rounds[1..])
  }

  /** The parts after one round. */
  function NextParts(parts: seq<string>, round: Json): (r: seq<string>)
    ensures parts <= r
  {
    match RoundText(round)
    case Some(s) => if s in parts then parts else parts + [s]
    case None => parts
  }

  /** No part added by the tool-round pass repeats an earlier part. */
  lemma {:induction false} RoundTextsAddNoDuplicates(parts: seq<string>, rounds: seq<Json>)
    requires AddRoundTexts(parts, rounds).Returns?
    ensures var r := AddRoundTexts(parts, rounds).value;
      forall i :: |parts| <= i < |r| ==> r[i] !in r[..i]
    decreases |rounds|
  {
    if rounds != [] {
      var next := NextParts(parts, rounds[0]);
      RoundTextsAddNoDuplicates(next, rounds[1..]);
      var r := AddRoundTexts(parts, rounds).value;
      forall i | |parts| <= i < |r| ensures r[i] !in r[..i] {
        if i < |next| {
          assert r[..i] == parts && r[i] == next[i];
        }
      }
    }
  }

  /** Every round text ends up among the parts. */
  lemma {:induction false} RoundTextsCovered(parts: seq<string>, rounds: seq<Json>)
    requires AddRoundTexts(parts, rounds).Returns?
    ensures var r := AddRoundTexts(parts, rounds).value;
      forall k :: 0 <= k < |rounds| && RoundText(rounds[k]).Some? ==> RoundText(rounds[k]).value in r
    decreases |rounds|
  {
    if rounds != [] {
      var next := NextParts(parts, rounds[0]);
      RoundTextsCovered(next, rounds[1..]);
      var r := AddRoundTexts(parts, rounds).value;
      forall k | 0 <= k < |rounds| && RoundText(rounds[k]).Some?
        ensures RoundText(rounds[k]).value in r
      {
        if k == 0 {
          assert RoundText(rounds[0]).value in next;
        } else {
          assert rounds[k] == rounds[1..][k - 1];
        }
      }
    }
  }

  /** Every part the tool-round pass adds is the text of some round. */
  lemma {:induction false} RoundTextsFromRounds(parts: seq<string>, rounds: seq<Json>)
    requires AddRoundTexts(parts, rounds).Returns?
    ensures var r := AddRoundTexts(parts, rounds).value;
      forall i :: |parts| <= i < |r| ==> exists k :: 0 <= k < |rounds| && RoundText(rounds[k]) == Some(r[i])
    decreases |rounds|
  {
    if rounds != [] {
      var next := NextParts(parts, rounds[0]);
      RoundTextsFromRounds(next, rounds[1..]);
      var r := AddRoundTexts(parts, rounds).value;
      forall i | |parts| <= i < |r|
        ensures exists k :: 0 <= k < |rounds| && RoundText(rounds[k]) == Some(r[i])
      {
        if i < |next| {
          assert RoundText(rounds[0]) == Some(r[i]);
        } else {
          var k :| 0 <= k < |rounds[1..]| && RoundText(rounds[1..][k]) == Some(r[i]);
          assert RoundText(rounds[k + 1]) == Some(r[i]);
        }
      }
    }
  }

  /** `request.response` when it is an array. */
  function ResponseArray(req: Json): seq<Json> {
    match Prop(req, "response")
    case Some(JArr(xs)) => xs
    case _ => []
  }

  /** `request.result?.metadata?.toolCallRounds` when it is an array. */
  function ToolCallRounds(req: Json): seq<Json> {
    match OptProp(OptProp(Prop(req, "result"), "metadata"), "toolCallRounds")
    case Some(JArr(xs)) => xs
    case _ => []
  }

  /** All parts of a response: first those of `response[]` in order, then the
      tool-round texts that are not yet present. Reading a property of a `null`
      request, element or round throws. */
  function ResponseParts(req: Json): (r: Eval<seq<string>>)
    ensures r.Throws? <==> req.JNull? || JNull in ResponseArray(req) || JNull in ToolCallRounds(req)
    ensures r.Returns? ==> ItemParts(ResponseArray(req)).Returns? && ItemParts(ResponseArray(req)).value <= r.value
  {
    if req.JNull? then Throws
    else match ItemParts(ResponseArray(req))
      case Throws => Throws
      case Returns(parts) => AddRoundTexts(parts, ToolCallRounds(req))
  }

  /** The parts after those of `response[]` are distinct from every part before
      them, and every non-empty round text is among the parts. */
  lemma ResponsePartsDeduplicated(req: Json)
    requires ResponseParts(req).Returns?
    ensures var r := ResponseParts(req).value;
      forall i :: |ItemParts(ResponseArray(req)).value| <= i < |r| ==> r[i] !in r[..i]
    ensures var r := ResponseParts(req).value;
      var rounds := ToolCallRounds(req);
      forall k :: 0 <= k < |rounds| && RoundText(rounds[k]).Some? ==> RoundText(rounds[k]).value in r
  {
    var parts := ItemParts(ResponseArray(req)).value;
    RoundTextsAddNoDuplicates(parts, ToolCallRounds(req));
    RoundTextsCovered(parts, ToolCallRounds(req));
  }

  /** `extractResponseText`: the parts joined by a blank line. */
  function ExtractResponseText(req: Json): (r: Eval<string>)
    ensures r.Throws? <==> ResponseParts(req).Throws?
    ensures r.Returns? ==> r.value == Join(ResponseParts(req).value, "\n\n")
  {
    match ResponseParts(req)
    case Throws => Throws
    case Returns(parts) => Returns(Join(parts, "\n\n"))
  }

  lemma ItemPartsSingle(item: Json)
    requires item != JNull
    ensures ItemParts([item]) == Returns(if ItemText(item).Some? then [ItemText(item).value] else [])
  {
    assert [item][1..] == [];
    assert ItemParts([]) == Returns([]);
    var head: seq<string> := if ItemText(item).Some? then [ItemText(item).value] else [];
    assert head + [] == head;
  }

  lemma AddRoundTextsSingle(parts: seq<string>, round: Json)
    requires round != JNull
    ensures AddRoundTexts(parts, [round]) == Returns(NextParts(parts, round))
  {
    assert [round][1..] == [];
  }

  /** The request with one response item `body` and one tool round `round`. */
  function OneItemOneRound(body: string, round: Json): Json {
    JObj(map["response" := JArr([JObj(map["value" := JStr(body)])]),
             "result" := JObj(map["metadata" := JObj(map["toolCallRounds" := JArr([round])])])])
  }

  /** The response text of such a request: the body, then the round's text
      unless it repeats the body. */
  lemma OneRoundText(body: string, round: Json)
    requires body != "" && round != JNull
    ensures ExtractResponseText(OneItemOneRound(body, round)) == Returns(Join(NextParts([body], round), "\n\n"))
  {
    var item := JObj(map["value" := JStr(body)]);
    assert ItemText(item) == Some(body);
    ItemPartsSingle(item);
    AddRoundTextsSingle([body], round);
  }

  /** A tool round whose text repeats the response body adds nothing, while a
      new text is appended after a blank line. */
  lemma RoundTextDeduplicated(body: string, other: string)
    requires body != "" && other != "" && other != body
    ensures var same := JObj(map["response" := JArr([JObj(map["value" := JStr(body)])]),
                                 "result" := JObj(map["metadata" := JObj(map["toolCallRounds" :=
                                   JArr([JObj(map["response" := JStr(body), "toolCalls" := JArr([])])])])])]);
            ExtractResponseText(same) == Returns(body)
    ensures var novel := JObj(map["response" := JArr([JObj(map["value" := JStr(body)])]),
                                  "result" := JObj(map["metadata" := JObj(map["toolCallRounds" :=
                                    JArr([JObj(map["response" := JStr(other)])])])])]);
            ExtractResponseText(novel) == Returns(body + "\n\n" + other)
  {
    var round1 := JObj(map["response" := JStr(body), "toolCalls" := JArr([])]);
    assert RoundText(round1) == Some(body);
    OneRoundText(body, round1);
    assert NextParts([body], round1) == [body];
    var round2 := JObj(map["response" := JStr(other)]);
    assert RoundText(round2) == Some(other);
    OneRoundText(body, round2);
    assert NextParts([body], round2) == [body, other];
    assert Join([body, other], "\n\n") == body + "\n\n" + other;
  }

  // ---- Tool-call counting ----

  /** What one round adds to the count, `round.toolCalls?.length || 0`: the
      length of an array or string, a numeric `length` field of an object, and
      1 for `true` (which JavaScript adds as 1). */
  function RoundToolCalls(round: Json): (n: int)
    ensures Prop(round, "toolCalls").None? ==> n == 0
    ensures Prop(round, "toolCalls") == Some(JNull) ==> n == 0
    ensures forall xs :: Prop(round, "toolCalls") == Some(JArr(xs)) ==> n == |xs|
    ensures n < 0 ==> exists m :: Prop(round, "toolCalls") == Some(JObj(m)) && "length" in m
  {
    match OptProp(Prop(round, "toolCalls"), "length")
    case Some(JNum(n)) => n
    case Some(JBool(true)) => 1
    case _ => 0
  }

  /** The `reduce` over the rounds; reading `toolCalls` of a `null` round throws. */
  function SumToolCalls(rounds: seq<Json>): (r: Eval<int>)
    ensures r.Throws? <==> JNull in rounds
  {
    if rounds == [] then Returns(0)
    else if rounds[0] == JNull then Throws
    else match SumToolCalls(rounds[1..])
      case Throws => Throws
      case Returns(rest) => Returns(RoundToolCalls(rounds[0]) + rest)
  }

  /** `countToolCalls`. */
  function CountToolCalls(req: Json): (r: Eval<int>)
    ensures r.Throws? <==> req.JNull? || JNull in ToolCallRounds(req)
  {
    if req.JNull? then Throws else SumToolCalls(ToolCallRounds(req))
  }

  /** The count is additive over the rounds. */
  lemma {:induction false} SumToolCallsAppend(a: seq<Json>, b: seq<Json>)
    requires JNull !in a && JNull !in b
    ensures SumToolCalls(a + b).Returns?
    ensures SumToolCalls(a + b).value == SumToolCalls(a).value + SumToolCalls(b).value
  {
    if a == [] {
      assert a + b == b;
    } else {
      var ab := a + b;
      assert ab[0] == a[0] && ab[1..] == a[1..] + b;
      assert JNull !in a[1..];
      SumToolCallsAppend(a[1..], b);
      var n := RoundToolCalls(a[0]);
      assert SumToolCalls(ab).value == n + SumToolCalls(a[1..] + b).value;
      assert SumToolCalls(a).value == n + SumToolCalls(a[1..]).value;
    }
  }

  /** When every round lists its calls in an array, the count is the total
      number of listed calls, and so it is never negative. */
  function ListedCalls(rounds: seq<Json>): nat {
    if rounds == [] then 0
    else (match Prop(rounds[0], "toolCalls") case Some(JArr(cs)) => |cs| case _ => 0) + ListedCalls(rounds[1..])
  }

  lemma {:induction false} CountIsListedCalls(rounds: seq<Json>)
    requires forall k :: 0 <= k < |rounds| ==> rounds[k].JObj? && Prop(rounds[k], "toolCalls").Some? && Prop(rounds[k], "toolCalls").value.JArr?
    ensures SumToolCalls(rounds) == Returns(ListedCalls(rounds))
  {
    if rounds != [] {
      CountIsListedCalls(rounds[1..]);
    }
  }

  // ---- AI responses ----

  datatype AIResponse = AIResponse(
    requestId: Json,
    responseId: Option<Json>,
    message: string,
    timestamp: Option<Json>,
    index: nat,
    hasToolCalls: bool,
    toolCallCount: int)

  /** The `req-<index>` identifier used when a request has none. */
  function DefaultId(i: nat): Json {
    JStr("req-" + NatToString(i))
  }

  /** Counting never fails where collecting the text succeeded. */
  lemma CountThrowsOnlyWithText(req: Json)
    ensures CountToolCalls(req).Throws? ==> ResponseParts(req).Throws?
  {
  }

  /** The response entry built for the request at position `i`. */
  function ResponseOf(req: Json, i: nat): (r: Eval<AIResponse>)
    ensures r.Throws? <==> ResponseParts(req).Throws?
    ensures r.Returns? ==>
      && r.value.index == i
      && r.value.message == ExtractResponseText(req).value
      && r.value.toolCallCount == CountToolCalls(req).value
      && (r.value.hasToolCalls <==> r.value.toolCallCount > 0)
      && r.value.requestId == OrElse(Prop(req, "requestId"), DefaultId(i))
      && r.value.responseId == Prop(req, "responseId")
      && r.value.timestamp == Prop(req, "timestamp")
  {
    match ExtractResponseText(req)
    case Throws => Throws
    case Returns(message) =>
      CountThrowsOnlyWithText(req);
      var count := CountToolCalls(req).value;
      Returns(AIResponse(OrElse(Prop(req, "requestId"), DefaultId(i)), Prop(req, "responseId"),
                         message, Prop(req, "timestamp"), i, count > 0, count))
  }

  /** `getAIResponses`: one entry per request, at the request's own position. */
  function GetAIResponses(chat: Json): (r: Eval<seq<AIResponse>>)
    ensures !Truthy(Some(chat)) || RequestList(chat).None? ==> r == Returns([])
    ensures Truthy(Some(chat)) && RequestList(chat).Some? ==>
      var xs := RequestList(chat).value;
      && (r.Throws? <==> exists k :: 0 <= k < |xs| && ResponseParts(xs[k]).Throws?)
      && (r.Returns? ==> (|r.value| == |xs|
            && forall k :: 0 <= k < |xs| ==> r.value[k].index == k && ResponseOf(xs[k], k) == Returns(r.value[k])))
  {
    if !Truthy(Some(chat)) then Returns([])
    else match RequestList(chat)
      case None => Returns([])
      case Some(xs) =>
        if exists k :: 0 <= k < |xs| && ResponseParts(xs[k]).Throws? then Throws
        else Returns(seq(|xs|, k requires 0 <= k < |xs| => ResponseOf(xs[k], k).value))
  }

  // ---- User requests ----

  datatype UserRequest = UserRequest(id: Json, message: string, timestamp: Option<Json>, index: nat)

  /** The request's text: `message` when it is a string, else `message.text`
      when `message` is truthy and that is a string; an empty text counts as none. */
  function MessageText(req: Json): (r: Option<string>)
    ensures r.Some? ==> r.value != ""
  {
    var m := Prop(req, "message");
    if m.Some? && m.value.JStr? then
      (if m.value.s != "" then Some(m.value.s) else None)
    else if Truthy(m) then
      match Prop(m.value, "text")
      case Some(JStr(s)) => if s != "" then Some(s) else None
      case _ => None
    else None
  }

  /** `variableData?.requestId || requestId || "req-<index>"`. */
  function UserRequestId(req: Json, i: nat): Json {
    OrElse(OptProp(Prop(req, "variableData"), "requestId"), OrElse(Prop(req, "requestId"), DefaultId(i)))
  }

  function UserRequestsFrom(xs: seq<Json>, start: nat): (r: Eval<seq<UserRequest>>)
    ensures r.Throws? <==> JNull in xs
    ensures r.Returns? ==> |r.value| <= |xs|
  {
    if xs == [] then Returns([])
    else if xs[0] == JNull then Throws
    else match UserRequestsFrom(xs[1..], start + 1)
      case Throws => Throws
      case Returns(rest) =>
        match MessageText(xs[0])
        case None => Returns(rest)
        case Some(text) =>
          Returns([UserRequest(UserRequestId(xs[0], start), text, Prop(xs[0], "timestamp"), start)] + rest)
  }

  /** Every kept entry describes a request that has a text: its own position,
      that text, its id with the fallbacks, and its timestamp. */
  lemma {:induction false} UserRequestsSound(xs: seq<Json>, start: nat)
    requires UserRequestsFrom(xs, start).Returns?
    ensures var r := UserRequestsFrom(xs, start).value;
      forall k :: 0 <= k < |r| ==>
        && start <= r[k].index < start + |xs|
        && MessageText(xs[r[k].index - start]) == Some(r[k].message)
        && r[k].id == UserRequestId(xs[r[k].index - start], r[k].index)
        && r[k].timestamp == Prop(xs[r[k].index - start], "timestamp")
  {
    if xs != [] {
      UserRequestsSound(xs[1..], start + 1);
      assert forall i :: 1 <= i < |xs| ==> xs[i] == xs[1..][i - 1];
    }
  }

  /** The kept entries keep the transcript order. */
  lemma {:induction false} UserRequestsOrdered(xs: seq<Json>, start: nat)
    requires UserRequestsFrom(xs, start).Returns?
    ensures var r := UserRequestsFrom(xs, start).value;
      forall k, l :: 0 <= k < l < |r| ==> r[k].index < r[l].index
  {
    if xs != [] {
      UserRequestsOrdered(xs[1..], start + 1);
      UserRequestsSound(xs[1..], start + 1);
    }
  }

  /** No request with a text is left out. */
  lemma {:induction false} UserRequestsComplete(xs: seq<Json>, start: nat)
    requires UserRequestsFrom(xs, start).Returns?
    ensures var r := UserRequestsFrom(xs, start).value;
      forall i :: 0 <= i < |xs| && MessageText(xs[i]).Some? ==>
        exists k :: 0 <= k < |r| && r[k].index == start + i
  {
    if xs != [] {
      UserRequestsComplete(xs[1..], start + 1);
      var r := UserRequestsFrom(xs, start).value;
      var rest := UserRequestsFrom(xs[1..], start + 1).value;
      forall i | 0 <= i < |xs| && MessageText(xs[i]).Some?
        ensures exists k :: 0 <= k < |r| && r[k].index == start + i
      {
        if i == 0 {
          assert r[0].index == start;
        } else {
          assert xs[i] == xs[1..][i - 1];
          var k :| 0 <= k < |rest| && rest[k].index == start + 1 + (i - 1);
          if MessageText(xs[0]).Some? {
            assert r == [r[0]] + rest;
            assert r[k + 1].index == start + i;
          } else {
            assert r == rest;
          }
        }
      }
    }
  }

  /** `getUserRequests`: requests with a non-empty text, in order, each with
      its original position. A `null` request throws. */
  function GetUserRequests(chat: Json): (r: Eval<seq<UserRequest>>)
    ensures !Truthy(Some(chat)) || RequestList(chat).None? ==> r == Returns([])
    ensures Truthy(Some(chat)) && RequestList(chat).Some? ==> r == UserRequestsFrom(RequestList(chat).value, 0)
  {
    if !Truthy(Some(chat)) then Returns([])
    else match RequestList(chat)
      case None => Returns([])
      case Some(xs) => UserRequestsFrom(xs, 0)
  }

  // ---- Conversation history ----

  datatype Turn = Turn(index: nat, request: UserRequest, response: Option<AIResponse>)

  /** `responses.find(r => r.index === i)`: the position of the first match. */
  function FindIndex(rs: seq<AIResponse>, i: int): (p: Option<nat>)
    ensures p.Some? ==> p.value < |rs| && rs[p.value].index == i
    ensures p.Some? ==> forall l :: 0 <= l < p.value ==> rs[l].index != i
    ensures p.None? ==> forall l :: 0 <= l < |rs| ==> rs[l].index != i
  {
    if rs == [] then None
    else if rs[0].index == i then Some(0)
    else match FindIndex(rs[1..], i)
      case None => None
      case Some(p) => Some(p + 1)
  }

  /** The found response, or `null`. */
  function FindByIndex(rs: seq<AIResponse>, i: int): Option<AIResponse> {
    match FindIndex(rs, i)
    case Some(p) => Some(rs[p])
    case None => None
  }

  /** `getConversationHistory` as written: turn `k` is the `k`-th kept request,
      paired with the response whose index is `k` — a position in the
      filtered list of requests, not the request's own position. */
  function GetConversationHistory(chat: Json): (r: Eval<seq<Turn>>)
    ensures r.Throws? <==> GetUserRequests(chat).Throws? || GetAIResponses(chat).Throws?
    ensures r.Returns? ==>
      var users := GetUserRequests(chat).value;
      && |r.value| == |users|
      && forall k :: 0 <= k < |users| ==>
           r.value[k].index == k && r.value[k].request == users[k]
           && r.value[k].response == FindByIndex(GetAIResponses(chat).value, k)
  {
    match GetUserRequests(chat)
    case Throws => Throws
    case Returns(users) =>
      match GetAIResponses(chat)
      case Throws => Throws
      case Returns(ais) =>
        Returns(seq(|users|, k requires 0 <= k < |users| => Turn(k, users[k], FindByIndex(ais, k))))
  }

  /** In a list where every entry sits at its own index, the lookup by index
      is that entry. */
  lemma FindAtOwnIndex(rs: seq<AIResponse>, i: nat)
    requires i < |rs|
    requires forall l :: 0 <= l < |rs| ==> rs[l].index == l
    ensures FindByIndex(rs, i) == Some(rs[i])
  {
  }

  /** The `|| null` fallback never fires: there are never more kept requests
      than responses, and turn `k` is always paired with the response of the
      request at position `k` of the whole transcript. */
  lemma HistoryPairsByTurnPosition(chat: Json)
    requires GetConversationHistory(chat).Returns?
    ensures var h := GetConversationHistory(chat).value;
      forall k :: 0 <= k < |h| ==>
        && h[k].response.Some?
        && h[k].response.value.index == k
        && ResponseOf(RequestList(chat).value[k], k) == Returns(h[k].response.value)
  {
    var h := GetConversationHistory(chat).value;
    if |h| > 0 {
      var users := GetUserRequests(chat).value;
      var ais := GetAIResponses(chat).value;
      assert Truthy(Some(chat)) && RequestList(chat).Some?;
      forall k | 0 <= k < |h|
        ensures h[k].response == Some(ais[k])
      {
        FindAtOwnIndex(ais, k);
      }
    }
  }

  /** Pairing a kept request with its own response, by the request's position
      in the transcript. This is the pairing the history promises. */
  function PairedHistory(chat: Json): (r: Eval<seq<Turn>>)
    ensures r.Throws? <==> GetConversationHistory(chat).Throws?
    ensures r.Returns? ==>
      var users := GetUserRequests(chat).value;
      && |r.value| == |users|
      && forall k :: 0 <= k < |users| ==> r.value[k].index == k && r.value[k].request == users[k]
  {
    match GetUserRequests(chat)
    case Throws => Throws
    case Returns(users) =>
      match GetAIResponses(chat)
      case Throws => Throws
      case Returns(ais) =>
        Returns(seq(|users|, k requires 0 <= k < |users| => Turn(k, users[k], FindByIndex(ais, users[k].index))))
  }

  /** Every turn of the corrected history carries the response built from the
      very request the turn shows. */
  lemma PairedHistoryMatchesRequest(chat: Json)
    requires PairedHistory(chat).Returns?
    ensures var h := PairedHistory(chat).value;
      forall k :: 0 <= k < |h| ==>
        && h[k].response.Some?
        && h[k].response.value.index == h[k].request.index
        && ResponseOf(RequestList(chat).value[h[k].request.index], h[k].request.index) == Returns(h[k].response.value)
  {
    var h := PairedHistory(chat).value;
    if |h| > 0 {
      var users := GetUserRequests(chat).value;
      var ais := GetAIResponses(chat).value;
      assert Truthy(Some(chat)) && RequestList(chat).Some?;
      UserRequestsSound(RequestList(chat).value, 0);
      forall k | 0 <= k < |h|
        ensures h[k].response == Some(ais[users[k].index])
      {
        FindAtOwnIndex(ais, users[k].index);
      }
    }
  }

  /** When every request has a text the two pairings agree, which is the case
      the unit tests exercise. */
  lemma {:induction false} PairingsAgreeWithoutGaps(chat: Json)
    requires GetConversationHistory(chat).Returns?
    requires RequestList(chat).Some?
    requires forall i :: 0 <= i < |RequestList(chat).value| ==> MessageText(RequestList(chat).value[i]).Some?
    ensures PairedHistory(chat) == GetConversationHistory(chat)
  {
    var xs := RequestList(chat).value;
    var users := GetUserRequests(chat).value;
    UserIndicesAreDense(xs, 0, users);
    var a := PairedHistory(chat).value;
    var b := GetConversationHistory(chat).value;
    assert |a| == |b|;
    forall k | 0 <= k < |a| ensures a[k] == b[k] {
      assert users[k].index == k;
    }
    assert a == b;
  }

  /** With no request skipped, the kept requests are numbered consecutively. */
  lemma {:induction false} UserIndicesAreDense(xs: seq<Json>, start: nat, users: seq<UserRequest>)
    requires UserRequestsFrom(xs, start) == Returns(users)
    requires forall i :: 0 <= i < |xs| ==> MessageText(xs[i]).Some?
    ensures |users| == |xs|
    ensures forall k :: 0 <= k < |users| ==> users[k].index == start + k
  {
    if xs != [] {
      assert xs[0] != JNull;
      var rest := UserRequestsFrom(xs[1..], start + 1);
      assert rest.Returns?;
      UserIndicesAreDense(xs[1..], start + 1, rest.value);
      assert users == [users[0]] + rest.value;
    }
  }

  /** The as-written history pairs a request with another request's response:
      when the first request has no text, the only turn ("hi") is shown with
      the answer "A" to the first request instead of its own answer "B". */
  lemma HistoryMispairsAfterSkippedRequest()
    ensures var r0 := JObj(map["response" := JArr([JStr("A")])]);
      var r1 := JObj(map["message" := JStr("hi"), "response" := JArr([JStr("B")])]);
      var chat := JObj(map["requests" := JArr([r0, r1])]);
      && GetConversationHistory(chat).Returns?
      && |GetConversationHistory(chat).value| == 1
      && GetConversationHistory(chat).value[0].request.message == "hi"
      && GetConversationHistory(chat).value[0].request.index == 1
      && GetConversationHistory(chat).value[0].response.Some?
      && GetConversationHistory(chat).value[0].response.value.message == "A"
      && PairedHistory(chat).value[0].response.value.message == "B"
  {
    var r0 := JObj(map["response" := JArr([JStr("A")])]);
    var r1 := JObj(map["message" := JStr("hi"), "response" := JArr([JStr("B")])]);
    var chat := JObj(map["requests" := JArr([r0, r1])]);
    assert RequestList(chat) == Some([r0, r1]);
    assert MessageText(r0).None?;
    assert MessageText(r1) == Some("hi");
    ItemPartsSingle(JStr("A"));
    ItemPartsSingle(JStr("B"));
    assert ExtractResponseText(r0) == Returns("A");
    assert ExtractResponseText(r1) == Returns("B");
    var users := GetUserRequests(chat).value;
    assert UserRequestsFrom([r1], 1).value == [UserRequest(UserRequestId(r1, 1), "hi", None, 1)];
    assert users == [UserRequest(UserRequestId(r1, 1), "hi", None, 1)];
    var ais := GetAIResponses(chat).value;
    FindAtOwnIndex(ais, 0);
    FindAtOwnIndex(ais, 1);
  }
}
