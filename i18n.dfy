/** The extension's message table and its `t(key, ...args)` lookup: the
    text for a key (the key itself when there is none), with the arguments
    substituted for `{0}`, `{1}`, … one after the other. Each substitution
    is a JavaScript `String.prototype.replace` with a string pattern: only
    the first occurrence is replaced, and `$`-patterns in the argument are
    expanded. */
module I18n {
  import opened Optional
  import opened Text

  const Activated := "Copilot Chat Secretary activated"
  const Deactivated := "Copilot Chat Secretary deactivated"

  /** The localization table. */
  function Table(key: string): (r: Option<string>)
    ensures r.Some? <==> key == "extension.activated" || key == "extension.deactivated"
    ensures key == "extension.activated" ==> r == Some(Activated)
    ensures key == "extension.deactivated" ==> r == Some(Deactivated)
  {
    if key == "extension.activated" then Some(Activated)
    else if key == "extension.deactivated" then Some(Deactivated)
    else None
  }

  /** `strings[key] || key`: the table text when it is non-empty, else the
      key. */
  function BaseText(key: string): string {
    match Table(key)
    case Some(s) => if s != "" then s else key
    case None => key
  }

  /** The placeholder for argument `i`. */
  function Placeholder(i: nat): (p: string)
    ensures |p| >= 3 && p[0] == '{' && p[|p| - 1] == '}'
  {
    "{" + NatToString(i) + "}"
  }

  /** The replacement string of `replace` with its `$`-patterns expanded:
      `$$` is a dollar, `$&` the matched text, `` $` `` the text before the
      match and `$'` the text after it; any other `$` stays as it is (a
      string pattern has no capture groups). */
  function Expand(rep: string, matched: string, before: string, after: string): string {
    if rep == [] then []
    else if rep[0] == '$' && |rep| >= 2 then
      if rep[1] == '$' then "$" + Expand(rep[2..], matched, before, after)
      else if rep[1] == '&' then matched + Expand(rep[2..], matched, before, after)
      else if rep[1] == '`' then before + Expand(rep[2..], matched, before, after)
      else if rep[1] == '\'' then after + Expand(rep[2..], matched, before, after)
      else "$" + Expand(rep[1..], matched, before, after)
    else [rep[0]] + Expand(rep[1..], matched, before, after)
  }

  /** A replacement without a dollar sign is inserted as it is. */
  lemma {:induction false} ExpandWithoutDollar(rep: string, matched: string, before: string, after: string)
    requires '$' !in rep
    ensures Expand(rep, matched, before, after) == rep
  {
    if rep != [] {
      assert '$' !in rep[1..];
      ExpandWithoutDollar(rep[1..], matched, before, after);
    }
  }

  /** `text.replace(pattern, rep)` with a string pattern: a text without an
      occurrence is unchanged; otherwise the text before the first
      occurrence and the text after it are kept. */
  function ReplaceFirst(text: string, pattern: string, rep: string): (r: string)
    ensures (forall j :: 0 <= j <= |text| ==> !OccursAt(text, pattern, j)) ==> r == text
    ensures IndexOf(text, pattern).Some? ==>
      var p := IndexOf(text, pattern).value;
      var after := text[p + |pattern|..];
      && p + |after| <= |r|
      && r[..p] == text[..p]
      && r[|r| - |after|..] == after
  {
    match IndexOf(text, pattern)
    case None => text
    case Some(p) =>
      text[..p] + Expand(rep, pattern, text[..p], text[p + |pattern|..]) + text[p + |pattern|..]
  }

  /** Only the first occurrence is replaced, and a replacement without `$`
      goes in verbatim; without an occurrence the text is unchanged. */
  lemma ReplaceFirstOccurrence(text: string, pattern: string, rep: string, p: nat)
    requires '$' !in rep
    requires OccursAt(text, pattern, p)
    requires forall j :: 0 <= j < p ==> !OccursAt(text, pattern, j)
    ensures ReplaceFirst(text, pattern, rep) == text[..p] + rep + text[p + |pattern|..]
  {
    var q := IndexOf(text, pattern);
    assert q == Some(p);
    ExpandWithoutDollar(rep, pattern, text[..p], text[p + |pattern|..]);
  }

  /** The arguments from `from` on, applied to `text` in order. */
  function ApplyArgs(text: string, args: seq<string>, from: nat): string
    decreases |args| - from
  {
    if from >= |args| then text
    else ApplyArgs(ReplaceFirst(text, Placeholder(from), args[from]), args, from + 1)
  }

  /** What `t(key, ...args)` returns: the base text itself when there is
      no argument or the text holds no placeholder. */
  function Translate(key: string, args: seq<string>): (r: string)
    ensures args == [] ==> r == BaseText(key)
    ensures '{' !in BaseText(key) ==> r == BaseText(key)
  {
    NoBraceNoChange(BaseText(key), args, 0);
    ApplyArgs(BaseText(key), args, 0)
  }

  /** `t(key, ...args)`: the arguments are substituted one at a time. */
  method T(key: string, args: seq<string>) returns (text: string)
    ensures text == Translate(key, args)
  {
    text := BaseText(key);
    var i := 0;
    while i < |args|
      invariant 0 <= i <= |args|
      invariant ApplyArgs(text, args, i) == Translate(key, args)
    {
      text := ReplaceFirst(text, Placeholder(i), args[i]);
      i := i + 1;
    }
  }

  /** A text with no opening brace has no placeholder, so no argument
      changes it. */
  lemma {:induction false} NoBraceNoChange(text: string, args: seq<string>, from: nat)
    ensures '{' !in text ==> ApplyArgs(text, args, from) == text
    decreases |args| - from
  {
    if from < |args| && '{' !in text {
      var ph := Placeholder(from);
      forall j | 0 <= j <= |text| ensures !OccursAt(text, ph, j) {
        if j + |ph| <= |text| {
          assert text[j..j + |ph|][0] == text[j];
          assert text[j] != '{';
        }
      }
      NoBraceNoChange(text, args, from + 1);
    }
  }

  /** The two table messages take no arguments: whatever is passed, the
      table text comes back. */
  lemma TableMessagesIgnoreArguments(args: seq<string>)
    ensures Translate("extension.activated", args) == Activated
    ensures Translate("extension.deactivated", args) == Deactivated
  {
  }

  /** A key missing from the table comes back as itself when it holds no
      placeholder. */
  lemma UnknownKeyEchoed(key: string, args: seq<string>)
    requires Table(key).None? && '{' !in key
    ensures Translate(key, args) == key
  {
  }

  /** A single placeholder in a template is replaced by an argument
      without `$` verbatim. */
  lemma SinglePlaceholderFilled(before: string, after: string, arg: string)
    requires '{' !in before && '{' !in after && '$' !in arg && '{' !in arg
    requires Table(before + "{0}" + after).None?
    ensures Translate(before + "{0}" + after, [arg]) == before + arg + after
  {
    var text := before + "{0}" + after;
    assert Placeholder(0) == "{0}";
    assert OccursAt(text, "{0}", |before|) by {
      assert text[|before|..|before| + 3] == "{0}";
    }
    forall j | 0 <= j < |before| ensures !OccursAt(text, "{0}", j) {
      assert text[j..j + 3][0] == text[j] == before[j] != '{';
    }
    ReplaceFirstOccurrence(text, "{0}", arg, |before|);
    assert text[..|before|] == before;
    assert text[|before| + 3..] == after;
    assert BaseText(text) == text;
    assert ApplyArgs(text, [arg], 0) == ApplyArgs(ReplaceFirst(text, "{0}", arg), [arg], 1);
  }

  /** A placeholder that appears twice is filled only where it first
      appears. */
  lemma OnlyFirstOccurrenceFilled()
    ensures Translate("{0}{0}", ["a"]) == "a{0}"
  {
    assert Placeholder(0) == "{0}";
    ReplaceFirstOccurrence("{0}{0}", "{0}", "a", 0);
  }

  /** `$&` in an argument is not inserted literally: it stands for the
      placeholder itself. */
  lemma DollarAmpersandReinsertsPlaceholder()
    ensures Translate("{0}", ["$&"]) == "{0}"
  {
    assert Placeholder(0) == "{0}";
    assert OccursAt("{0}", "{0}", 0);
    assert IndexOf("{0}", "{0}") == Some(0);
  }

  /** The two substitutions of `t("{0} {1}", "{1}", "x")`, one at a time. */
  lemma RewriteSteps()
    ensures ReplaceFirst("{0} {1}", "{0}", "{1}") == "{1} {1}"
    ensures ReplaceFirst("{1} {1}", "{1}", "x") == "x {1}"
  {
    ReplaceFirstOccurrence("{0} {1}", "{0}", "{1}", 0);
    ReplaceFirstOccurrence("{1} {1}", "{1}", "x", 0);
  }

  /** An argument inserted for `{0}` that itself reads `{1}` is taken by
      the next substitution, ahead of the template's own `{1}`. */
  lemma LaterArgumentRewritesEarlierOne()
    ensures Translate("{0} {1}", ["{1}", "x"]) == "x {1}"
  {
    var args := ["{1}", "x"];
    assert Placeholder(0) == "{0}" && Placeholder(1) == "{1}";
    assert BaseText("{0} {1}") == "{0} {1}";
    RewriteSteps();
    calc {
      Translate("{0} {1}", args);
      ApplyArgs("{0} {1}", args, 0);
      ApplyArgs(ReplaceFirst("{0} {1}", "{0}", "{1}"), args, 1);
      ApplyArgs("{1} {1}", args, 1);
      ApplyArgs(ReplaceFirst("{1} {1}", "{1}", "x"), args, 2);
      ApplyArgs("x {1}", args, 2);
    }
  }
}
