/** The "opened dialog" view: the conversation of the current chat as turns,
    each marked with a response status, and the one-line labels it shows. */
module OpenedDialog {
  import opened Optional
  import opened JsonValue
  import S = AnalyzerStatus
  import C = AnalyzerContent

  /** The visual status of one turn's response. */
  datatype ResponseStatus = Success | Error | InProgress | Pending

  /** `getResponseStatus`: only the last turn reflects the dialog status; a
      turn without a response is waiting, one with an empty message is
      treated as waiting too. `count` is the number of turns shown. */
  function GetResponseStatus(turn: C.Turn, count: nat, dialog: S.DialogStatus): (r: ResponseStatus)
    ensures turn.response.None? ==>
      (r == InProgress <==> turn.index == count - 1 && dialog == S.InProgress) && r != Success && r != Error
    ensures turn.response.Some? ==>
      (r == Error <==> turn.index == count - 1 && (dialog == S.Canceled || dialog == S.Failed))
    ensures turn.response.Some? && r != Error ==>
      (r == Success <==> turn.response.value.message != "") && r != InProgress
  {
    var isLastTurn := turn.index == count - 1;
    if turn.response.None? then
      if isLastTurn && dialog == S.InProgress then InProgress else Pending
    else if dialog == S.Canceled && isLastTurn then Error
    else if dialog == S.Failed && isLastTurn then Error
    else if turn.response.value.message != "" then Success
    else Pending
  }

  /** Only the last turn can show the dialog as running or broken; earlier
      turns show success or waiting whatever the dialog status is. */
  lemma OnlyLastTurnIsLive(turn: C.Turn, count: nat, dialog: S.DialogStatus, other: S.DialogStatus)
    requires turn.index != count - 1
    ensures GetResponseStatus(turn, count, dialog) == GetResponseStatus(turn, count, other)
    ensures GetResponseStatus(turn, count, dialog) in {Success, Pending}
  {
  }

  /** The characters `\s` matches in a JavaScript regular expression, which
      are also the ones `trim` removes. */
  predicate IsSpace(c: char) {
    c == ' ' || c == '\t' || c == '\n' || c == '\r' || c == '\U{000B}' || c == '\U{000C}'
    || c == '\U{00A0}' || c == '\U{1680}' || ('\U{2000}' <= c <= '\U{200A}')
    || c == '\U{2028}' || c == '\U{2029}' || c == '\U{202F}' || c == '\U{205F}'
    || c == '\U{3000}' || c == '\U{FEFF}'
  }

  /** `s` without its leading whitespace. */
  function DropSpaces(s: string): (r: string)
    ensures |r| <= |s| && r == s[|s| - |r|..]
    ensures r != [] ==> !IsSpace(r[0])
    ensures forall i :: 0 <= i < |s| - |r| ==> IsSpace(s[i])
  {
    if s != [] && IsSpace(s[0]) then DropSpaces(s[1..]) else s
  }

  /** `s` without its trailing whitespace. */
  function DropTrailingSpaces(s: string): (r: string)
    ensures |r| <= |s| && r == s[..|r|]
    ensures r != [] ==> !IsSpace(r[|r| - 1])
    ensures forall i :: |r| <= i < |s| ==> IsSpace(s[i])
  {
    if s != [] && IsSpace(s[|s| - 1]) then DropTrailingSpaces(s[..|s| - 1]) else s
  }

  /** `s.replace(/\s+/g, " ")` */
  function Collapse(s: string): (r: string)
    ensures |r| <= |s|
    ensures s != [] && !IsSpace(s[0]) ==> r != [] && r[0] == s[0]
    decreases |s|
  {
    if s == [] then []
    else if IsSpace(s[0]) then " " + Collapse(DropSpaces(s[1..]))
    else [s[0]] + Collapse(s[1..])
  }

  /** `s.trim()`: no whitespace left at either end; nothing left of a text
      that is all whitespace; a text without outer whitespace unchanged. */
  function Trim(s: string): (r: string)
    ensures Trimmed(r) && |r| <= |s|
    ensures r == [] <==> forall i :: 0 <= i < |s| ==> IsSpace(s[i])
    ensures Trimmed(s) ==> r == s
  {
    DropTrailingSpaces(DropSpaces(s))
  }

  /** The label text: whitespace runs collapsed to one space, then trimmed.
      It is tidy and trimmed, and never longer than the message. */
  function Clean(s: string): (r: string)
    ensures Tidy(r) && Trimmed(r) && |r| <= |s|
  {
    CollapseIsTidy(s);
    TrimOfTidy(Collapse(s));
    Trim(Collapse(s))
  }

  /** Every whitespace character is a plain space and no two are adjacent. */
  predicate Tidy(s: string) {
    && (forall i :: 0 <= i < |s| && IsSpace(s[i]) ==> s[i] == ' ')
    && (forall i :: 0 <= i < |s| - 1 ==> !IsSpace(s[i]) || !IsSpace(s[i + 1]))
  }

  predicate Trimmed(s: string) {
    s == [] || (!IsSpace(s[0]) && !IsSpace(s[|s| - 1]))
  }

  /** Putting one character in front of a tidy string keeps it tidy when the
      character is not a second space in a row. */
  lemma ConsTidy(c: char, x: string)
    requires Tidy(x)
    requires IsSpace(c) ==> c == ' ' && (x == [] || !IsSpace(x[0]))
    ensures Tidy([c] + x)
  {
    var y := [c] + x;
    forall i | 0 <= i < |y| && IsSpace(y[i]) ensures y[i] == ' ' {
      if i > 0 {
        assert y[i] == x[i - 1];
      }
    }
    forall i | 0 <= i < |y| - 1 ensures !IsSpace(y[i]) || !IsSpace(y[i + 1]) {
      if i > 0 {
        assert y[i] == x[i - 1] && y[i + 1] == x[i];
      } else {
        assert y[1] == x[0];
      }
    }
  }

  lemma {:induction false} CollapseIsTidy(s: string)
    ensures Tidy(Collapse(s))
    decreases |s|
  {
    if s == [] {
    } else if IsSpace(s[0]) {
      var t := DropSpaces(s[1..]);
      CollapseIsTidy(t);
      ConsTidy(' ', Collapse(t));
      assert Collapse(s) == [' '] + Collapse(t);
    } else {
      CollapseIsTidy(s[1..]);
      ConsTidy(s[0], Collapse(s[1..]));
      assert Collapse(s) == [s[0]] + Collapse(s[1..]);
    }
  }

  /** The tail of a tidy string is tidy. */
  lemma TailTidy(s: string)
    requires Tidy(s) && s != []
    ensures Tidy(s[1..])
  {
    var t := s[1..];
    forall i | 0 <= i < |t| ensures t[i] == s[i + 1] {
    }
    forall i | 0 <= i < |t| - 1 ensures !IsSpace(t[i]) || !IsSpace(t[i + 1]) {
      assert !IsSpace(s[i + 1]) || !IsSpace(s[i + 2]);
    }
  }

  lemma {:induction false} CollapseOfTidy(s: string)
    requires Tidy(s)
    ensures Collapse(s) == s
    decreases |s|
  {
    if s == [] {
    } else if IsSpace(s[0]) {
      assert s[1..] == [] || !IsSpace(s[1]);
      assert DropSpaces(s[1..]) == s[1..];
      TailTidy(s);
      CollapseOfTidy(s[1..]);
      assert s == " " + s[1..];
    } else {
      TailTidy(s);
      CollapseOfTidy(s[1..]);
      assert s == [s[0]] + s[1..];
    }
  }

  /** Dropping leading whitespace keeps a string tidy. */
  lemma DropSpacesTidy(s: string)
    requires Tidy(s)
    ensures Tidy(DropSpaces(s))
  {
    var a := DropSpaces(s);
    var d := |s| - |a|;
    assert a == s[d..];
    forall i | 0 <= i < |a| ensures a[i] == s[d + i] {
    }
    forall i | 0 <= i < |a| && IsSpace(a[i]) ensures a[i] == ' ' {
      assert IsSpace(s[d + i]);
    }
    forall i | 0 <= i < |a| - 1 ensures !IsSpace(a[i]) || !IsSpace(a[i + 1]) {
      assert !IsSpace(s[d + i]) || !IsSpace(s[d + i + 1]);
    }
  }

  /** Dropping trailing whitespace keeps a string tidy. */
  lemma DropTrailingSpacesTidy(a: string)
    requires Tidy(a)
    ensures Tidy(DropTrailingSpaces(a))
  {
    var b := DropTrailingSpaces(a);
    forall i | 0 <= i < |b| - 1 ensures !IsSpace(b[i]) || !IsSpace(b[i + 1]) {
      assert b[i] == a[i] && b[i + 1] == a[i + 1];
    }
  }

  /** Trimming a tidy string leaves it tidy and without outer whitespace. */
  lemma TrimOfTidy(s: string)
    requires Tidy(s)
    ensures Tidy(Trim(s)) && Trimmed(Trim(s))
  {
    var a := DropSpaces(s);
    var b := DropTrailingSpaces(a);
    DropSpacesTidy(s);
    DropTrailingSpacesTidy(a);
    if b != [] {
      assert b[0] == a[0];
    }
  }

  /** The cleaned text is tidy and trimmed, and cleaning it again changes
      nothing. */
  lemma CleanIdempotent(s: string)
    ensures Tidy(Clean(s)) && Trimmed(Clean(s))
    ensures Clean(Clean(s)) == Clean(s)
  {
    CollapseIsTidy(s);
    TrimOfTidy(Collapse(s));
    var c := Clean(s);
    CollapseOfTidy(c);
  }

  /** `truncateMessage`: whitespace collapsed and trimmed, then cut to
      `maxLength - 3` characters followed by "..." when longer than
      `maxLength` (a negative cut position counts as zero). */
  function TruncateMessage(message: string, maxLength: int): (r: string)
    ensures |Clean(message)| <= maxLength ==> r == Clean(message)
    ensures |Clean(message)| > maxLength ==>
      var n := if maxLength - 3 < 0 then 0 else maxLength - 3;
      r == Clean(message)[..n] + "..."
    ensures maxLength >= 3 ==> |r| <= maxLength
  {
    var clean := Clean(message);
    if |clean| <= maxLength then clean
    else clean[..if maxLength - 3 < 0 then 0 else maxLength - 3] + "..."
  }

  /** A prefix of a tidy, trimmed text followed by "..." is tidy and
      trimmed. */
  lemma CutIsClean(clean: string, n: nat)
    requires Tidy(clean) && Trimmed(clean) && n <= |clean|
    ensures Tidy(clean[..n] + "...") && Trimmed(clean[..n] + "...")
  {
    var r := clean[..n] + "...";
    forall i | 0 <= i < |r| && IsSpace(r[i]) ensures r[i] == ' ' {
      if i >= n {
        assert r[i] == '.';
      } else {
        assert r[i] == clean[i];
      }
    }
    forall i | 0 <= i < |r| - 1 ensures !IsSpace(r[i]) || !IsSpace(r[i + 1]) {
      if i + 1 >= n {
        assert r[i + 1] == '.';
      } else {
        assert r[i] == clean[i] && r[i + 1] == clean[i + 1];
      }
    }
    assert r[|r| - 1] == '.';
    if n > 0 {
      assert r[0] == clean[0];
    } else {
      assert r[0] == '.';
    }
  }

  /** A tidy, trimmed text is its own cleaned form. */
  lemma CleanFixed(t: string)
    requires Tidy(t) && Trimmed(t)
    ensures Clean(t) == t
  {
    CollapseOfTidy(t);
  }

  /** Cutting a tidy, trimmed text to a limit of at least three keeps it in
      cleaned form. */
  lemma CutFixed(clean: string, maxLength: int)
    requires Tidy(clean) && Trimmed(clean) && maxLength >= 3
    ensures var r := if |clean| <= maxLength then clean else clean[..maxLength - 3] + "...";
      Clean(r) == r
  {
    if |clean| > maxLength {
      CutIsClean(clean, maxLength - 3);
      CleanFixed(clean[..maxLength - 3] + "...");
    } else {
      CleanFixed(clean);
    }
  }

  /** A truncated label is already in cleaned form. */
  lemma TruncatedIsClean(message: string, maxLength: int)
    requires maxLength >= 3
    ensures Clean(TruncateMessage(message, maxLength)) == TruncateMessage(message, maxLength)
  {
    CleanIdempotent(message);
    CutFixed(Clean(message), maxLength);
  }

  /** A label that was already truncated to at least three characters is
      left as it is by truncating it again. */
  lemma TruncateIdempotent(message: string, maxLength: int)
    requires maxLength >= 3
    ensures TruncateMessage(TruncateMessage(message, maxLength), maxLength) == TruncateMessage(message, maxLength)
  {
    TruncatedIsClean(message, maxLength);
  }

  class OpenedDialogTreeProvider {
    var conversation: seq<C.Turn>
    var dialogStatus: S.DialogStatus
    var refreshes: nat

    /** Every turn sits at the position its index names. */
    ghost predicate Valid()
      reads this
    {
      forall k :: 0 <= k < |conversation| ==> conversation[k].index == k
    }

    constructor()
      ensures Valid()
      ensures conversation == [] && dialogStatus == S.Pending && refreshes == 0
    {
      conversation := [];
      dialogStatus := S.Pending;
      refreshes := 0;
    }

    /** `updateFromChatData`: the conversation is replaced first, the status
        second, and an analyzer exception escapes after whatever was already
        replaced; `ok` is false when it does. The new conversation is the
        analyzer's history, which pairs every request with the response at its
        own position in the request list. */
    method UpdateFromChatData(chat: Json) returns (ok: bool)
      requires Valid()
      modifies this
      ensures Valid()
      ensures C.GetConversationHistory(chat).Throws? ==>
        !ok && conversation == old(conversation) && dialogStatus == old(dialogStatus) && refreshes == old(refreshes)
      ensures C.GetConversationHistory(chat).Returns? && S.GetDialogStatus(chat).Throws? ==>
        !ok && conversation == C.GetConversationHistory(chat).value && dialogStatus == old(dialogStatus)
        && refreshes == old(refreshes)
      ensures ok <==> C.GetConversationHistory(chat).Returns? && S.GetDialogStatus(chat).Returns?
      ensures ok ==>
        && conversation == C.GetConversationHistory(chat).value && dialogStatus == S.GetDialogStatus(chat).value
        && refreshes == old(refreshes) + 1
      ensures C.GetConversationHistory(chat).Returns? ==>
        && |conversation| == |C.GetUserRequests(chat).value|
        && forall k :: 0 <= k < |conversation| ==>
             && conversation[k].request == C.GetUserRequests(chat).value[k]
             && conversation[k].response.Some? && conversation[k].response.value.index == k
    {
      var history := C.GetConversationHistory(chat);
      if history.Throws? {
        return false;
      }
      C.HistoryPairsByTurnPosition(chat);
      conversation := history.value;
      var status := S.GetDialogStatus(chat);
      if status.Throws? {
        return false;
      }
      dialogStatus := status.value;
      refreshes := refreshes + 1;
      ok := true;
    }

    method GetConversationCount() returns (n: nat)
      ensures n == |conversation|
    {
      n := |conversation|;
    }

    /** The status shown for one of the conversation's turns. */
    method ResponseStatusOf(k: nat) returns (r: ResponseStatus)
      requires Valid() && k < |conversation|
      ensures conversation[k].response.None? ==>
        (r == InProgress <==> k == |conversation| - 1 && dialogStatus == S.InProgress)
      ensures k < |conversation| - 1 ==> r in {Success, Pending}
      ensures conversation[k].response.Some? && k < |conversation| - 1 ==>
        (r == Success <==> conversation[k].response.value.message != "")
    {
      r := GetResponseStatus(conversation[k], |conversation|, dialogStatus);
    }
  }
}
