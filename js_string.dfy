/**
 * The pieces of JavaScript's string library the loader relies on, over ASCII:
 * `toLowerCase`, `startsWith`/`endsWith`, and `String.prototype.replace` with a
 * global regular expression, both as the engine runs it (the replacement string
 * is a template in which `$` introduces a substitution) and as a literal insertion.
 */
module JsString {
  import opened Wrappers

  /** The regular-expression class `[A-Z]`. */
  predicate IsUpper(c: char) {
    'A' <= c <= 'Z'
  }

  function LowerChar(c: char): (r: char)
    ensures !IsUpper(r)
    ensures IsUpper(c) ==> r as int == c as int + 32
    ensures !IsUpper(c) ==> r == c
  {
    if IsUpper(c) then (c as int + 32) as char else c
  }

  /** `s.toLowerCase()` restricted to ASCII letters. */
  function Lower(s: string): (r: string)
    ensures |r| == |s|
    ensures forall i :: 0 <= i < |s| ==> r[i] == LowerChar(s[i])
  {
    seq(|s|, i requires 0 <= i < |s| => LowerChar(s[i]))
  }

  predicate HasUpper(s: string) {
    exists i :: 0 <= i < |s| && IsUpper(s[i])
  }

  predicate StartsWith(s: string, prefix: string) {
    |prefix| <= |s| && s[..|prefix|] == prefix
  }

  predicate EndsWith(s: string, suffix: string) {
    |suffix| <= |s| && s[|s| - |suffix|..] == suffix
  }

  lemma LowerAppend(a: string, b: string)
    ensures Lower(a + b) == Lower(a) + Lower(b)
  {
  }

  lemma LowerSlice(s: string, i: nat, j: nat)
    requires i <= j <= |s|
    ensures Lower(s[i..j]) == Lower(s)[i..j]
  {
  }

  lemma LowerIdempotent(s: string)
    ensures Lower(Lower(s)) == Lower(s)
  {
  }

  /** Lower-casing leaves a string without upper-case letters unchanged. */
  lemma LowerNoUpper(s: string)
    requires !HasUpper(s)
    ensures Lower(s) == s
  {
  }

  /**
   * The expansion of a replacement template `t` for one match, as the
   * engine does it (GetSubstitution in ECMAScript): `$$` is a dollar sign,
   * `$&` the matched text, `` $` `` the text before the match, `$'` the text
   * after it, `$1` and `$01` the first capture group when the pattern has one;
   * every other `$` stands for itself.
   */
  function Expand(t: string, matched: string, before: string, after: string, group: Option<string>): (r: string)
    ensures '$' !in t ==> r == t
    decreases |t|
  {
    if |t| == 0 then ""
    else if t[0] != '$' || |t| == 1 then
      assert t == [t[0]] + t[1..];
      [t[0]] + Expand(t[1..], matched, before, after, group)
    else if t[1] == '$' then "$" + Expand(t[2..], matched, before, after, group)
    else if t[1] == '&' then matched + Expand(t[2..], matched, before, after, group)
    else if t[1] == '`' then before + Expand(t[2..], matched, before, after, group)
    else if t[1] == '\'' then after + Expand(t[2..], matched, before, after, group)
    else if group.Some? && t[1] == '0' && |t| >= 3 && t[2] == '1' then
      group.value + Expand(t[3..], matched, before, after, group)
    else if group.Some? && t[1] == '1' then group.value + Expand(t[2..], matched, before, after, group)
    else "$" + Expand(t[1..], matched, before, after, group)
  }

  /** A template without a dollar sign expands to itself, in front of whatever follows it. */
  lemma {:induction false} ExpandLiteralPrefix(p: string, t: string, matched: string, before: string, after: string, group: Option<string>)
    requires '$' !in p
    ensures Expand(p + t, matched, before, after, group) == p + Expand(t, matched, before, after, group)
  {
    if |p| > 0 {
      assert (p + t)[0] == p[0];
      assert (p + t)[1..] == p[1..] + t;
      ExpandLiteralPrefix(p[1..], t, matched, before, after, group);
    } else {
      assert p + t == t;
    }
  }

  /**
   * `s.replace(/([A-Z])/g, t)` from position `i` on: every upper-case letter is
   * replaced by the expansion of the template `t`, the letter itself being the
   * match and the first capture group.
   */
  function ReplaceUppersWithTemplate(s: string, t: string, i: nat): (r: string)
    requires i <= |s|
    decreases |s| - i
  {
    assert i < |s| ==> s[i..] == [s[i]] + s[i + 1..] && s[i..][0] == s[i];
    if i == |s| then ""
    else if IsUpper(s[i]) then
      Expand(t, [s[i]], s[..i], s[i + 1..], Some([s[i]])) + ReplaceUppersWithTemplate(s, t, i + 1)
    else [s[i]] + ReplaceUppersWithTemplate(s, t, i + 1)
  }

  /** The literal version: `sep` is put in front of every upper-case letter. */
  function InsertBeforeUppers(s: string, sep: string): (r: string)
    ensures |s| <= |r|
    decreases |s|
  {
    if |s| == 0 then ""
    else (if IsUpper(s[0]) then sep + [s[0]] else [s[0]]) + InsertBeforeUppers(s[1..], sep)
  }

  /** Number of upper-case letters in `s`. */
  function CountUpper(s: string): nat
    decreases |s|
  {
    if |s| == 0 then 0 else (if IsUpper(s[0]) then 1 else 0) + CountUpper(s[1..])
  }

  /** The template `sep + "$1"` behaves like the literal insertion whenever `sep` has no dollar sign. */
  lemma {:induction false} ReplaceUppersLiteral(s: string, sep: string, i: nat)
    requires i <= |s|
    requires '$' !in sep
    ensures ReplaceUppersWithTemplate(s, sep + "$1", i) == InsertBeforeUppers(s[i..], sep)
    decreases |s| - i
  {
    if i < |s| {
      assert s[i..][0] == s[i];
      assert s[i..][1..] == s[i + 1..];
      assert InsertBeforeUppers(s[i..], sep)
          == (if IsUpper(s[i]) then sep + [s[i]] else [s[i]]) + InsertBeforeUppers(s[i + 1..], sep);
      ReplaceUppersLiteral(s, sep, i + 1);
      if IsUpper(s[i]) {
        ExpandGroupOne(sep, [s[i]], s[..i], s[i + 1..]);
      }
    }
  }

  /** `sep` followed by `$1` expands to `sep` followed by the first group. */
  lemma ExpandGroupOne(sep: string, g: string, before: string, after: string)
    requires '$' !in sep
    ensures Expand(sep + "$1", g, before, after, Some(g)) == sep + g
  {
    ExpandLiteralPrefix(sep, "$1", g, before, after, Some(g));
    assert Expand("$1", g, before, after, Some(g)) == g by {
      assert "$1"[2..] == "";
    }
  }

  /** The placeholder that a style template marks the component's directory with. */
  const PLACEHOLDER := "{{name}}"

  /**
   * `s.replace(/\{\{name\}\}/g, t)` from position `i` on, as the engine does it:
   * a regular expression without capture groups, scanned left to right, each
   * occurrence replaced by the expansion of `t`.
   */
  function ReplacePlaceholderWithTemplate(s: string, t: string, i: nat): (r: string)
    requires i <= |s|
    ensures '{' !in s[i..] ==> r == s[i..]
    decreases |s| - i
  {
    assert i < |s| ==> s[i..] == [s[i]] + s[i + 1..] && s[i..][0] == s[i];
    if i == |s| then ""
    else if StartsWith(s[i..], PLACEHOLDER) then
      Expand(t, PLACEHOLDER, s[..i], s[i + |PLACEHOLDER|..], None)
        + ReplacePlaceholderWithTemplate(s, t, i + |PLACEHOLDER|)
    else [s[i]] + ReplacePlaceholderWithTemplate(s, t, i + 1)
  }

  /** The literal version: every occurrence of the placeholder, left to right, becomes `rep`. */
  function ReplacePlaceholder(s: string, rep: string): (r: string)
    ensures CountPlaceholders(s) == 0 ==> r == s
    decreases |s|
  {
    assert |s| > 0 ==> s == [s[0]] + s[1..];
    if |s| == 0 then ""
    else if StartsWith(s, PLACEHOLDER) then rep + ReplacePlaceholder(s[|PLACEHOLDER|..], rep)
    else [s[0]] + ReplacePlaceholder(s[1..], rep)
  }

  /** Without a dollar sign in `rep` the engine's replacement is the literal one. */
  lemma {:induction false} ReplacePlaceholderLiteral(s: string, rep: string, i: nat)
    requires i <= |s|
    requires '$' !in rep
    ensures ReplacePlaceholderWithTemplate(s, rep, i) == ReplacePlaceholder(s[i..], rep)
    decreases |s| - i
  {
    if i < |s| {
      if StartsWith(s[i..], PLACEHOLDER) {
        assert s[i..][|PLACEHOLDER|..] == s[i + |PLACEHOLDER|..];
        ReplacePlaceholderLiteral(s, rep, i + |PLACEHOLDER|);
      } else {
        assert s[i..][0] == s[i];
        assert s[i..][1..] == s[i + 1..];
        ReplacePlaceholderLiteral(s, rep, i + 1);
      }
    }
  }

  /** Number of occurrences the left-to-right scan of `ReplacePlaceholder` replaces. */
  function CountPlaceholders(s: string): nat
    decreases |s|
  {
    if |s| == 0 then 0
    else if StartsWith(s, PLACEHOLDER) then 1 + CountPlaceholders(s[|PLACEHOLDER|..])
    else CountPlaceholders(s[1..])
  }

  /** Each replaced occurrence changes the length by the difference of the two. */
  lemma {:induction false} ReplacePlaceholderLength(s: string, rep: string)
    ensures |ReplacePlaceholder(s, rep)| == |s| + (|rep| - |PLACEHOLDER|) * CountPlaceholders(s)
    decreases |s|
  {
    if |s| > 0 {
      var d := |rep| - |PLACEHOLDER|;
      if StartsWith(s, PLACEHOLDER) {
        var tail := s[|PLACEHOLDER|..];
        var c := CountPlaceholders(tail);
        ReplacePlaceholderLength(tail, rep);
        assert ReplacePlaceholder(s, rep) == rep + ReplacePlaceholder(tail, rep);
        assert CountPlaceholders(s) == 1 + c;
        assert |tail| == |s| - |PLACEHOLDER|;
        MulAdd(d, 1, c);
      } else {
        var tail := s[1..];
        ReplacePlaceholderLength(tail, rep);
        assert ReplacePlaceholder(s, rep) == [s[0]] + ReplacePlaceholder(tail, rep);
        assert CountPlaceholders(s) == CountPlaceholders(tail);
      }
    }
  }

  /** Only an arithmetic step for the solver: multiplication distributes over a sum. */
  lemma MulAdd(k: int, a: int, b: int)
    ensures k * (a + b) == k * a + k * b
  {
  }

  /** No placeholder starts in the first `n` positions of `s`. */
  predicate NoPlaceholderBefore(s: string, n: nat) {
    forall j :: 0 <= j < n && j <= |s| ==> !StartsWith(s[j..], PLACEHOLDER)
  }

  /**
   * The first placeholder is replaced and the text before it is copied as it
   * is, whatever that text holds (a lone `{` included).
   */
  lemma ReplacePlaceholderAfterLiteral(lit: string, rest: string, rep: string)
    requires NoPlaceholderBefore(lit + PLACEHOLDER + rest, |lit|)
    ensures ReplacePlaceholder(lit + PLACEHOLDER + rest, rep) == lit + rep + ReplacePlaceholder(rest, rep)
  {
    var s := lit + PLACEHOLDER + rest;
    CopyUpTo(s, 0, |lit|, rep);
    assert s[0..] == s && s[0..|lit|] == lit;
    assert s[|lit|..] == PLACEHOLDER + rest;
    ReplacePlaceholderAtStart(rest, rep);
  }

  /** A placeholder at the very start is replaced. */
  lemma ReplacePlaceholderAtStart(rest: string, rep: string)
    ensures ReplacePlaceholder(PLACEHOLDER + rest, rep) == rep + ReplacePlaceholder(rest, rep)
  {
    var s := PLACEHOLDER + rest;
    assert s[..|PLACEHOLDER|] == PLACEHOLDER;
    assert s[|PLACEHOLDER|..] == rest;
  }

  /** The stretch before position `n`, where no placeholder starts, is copied as it is. */
  lemma {:induction false} CopyUpTo(s: string, i: nat, n: nat, rep: string)
    requires i <= n <= |s| && NoPlaceholderBefore(s, n)
    ensures ReplacePlaceholder(s[i..], rep) == s[i..n] + ReplacePlaceholder(s[n..], rep)
    decreases n - i
  {
    if i < n {
      CopyUpTo(s, i + 1, n, rep);
      var t := s[i..];
      assert !StartsWith(t, PLACEHOLDER);
      assert t[0] == s[i] && t[1..] == s[i + 1..];
      assert s[i..n] == [s[i]] + s[i + 1..n];
    }
  }

  /** Text without `{` holds no placeholder, whatever follows it. */
  lemma NoBraceNoPlaceholderBefore(lit: string, rest: string)
    requires '{' !in lit
    ensures NoPlaceholderBefore(lit + rest, |lit|)
  {
    var s := lit + rest;
    forall j | 0 <= j < |lit| && j <= |s|
      ensures !StartsWith(s[j..], PLACEHOLDER)
    {
      assert s[j..][0] == lit[j];
    }
  }

  /** A string without `{` has no placeholder. */
  lemma {:induction false} NoBraceNoPlaceholder(s: string)
    requires '{' !in s
    ensures CountPlaceholders(s) == 0
    decreases |s|
  {
    if |s| > 0 {
      assert s[0] != PLACEHOLDER[0];
      NoBraceNoPlaceholder(s[1..]);
    }
  }

  /** The engine's scan copies a stretch without `{` as it is. */
  lemma {:induction false} TemplateScanCopies(s: string, t: string, i: nat, j: nat)
    requires i <= j <= |s| && '{' !in s[i..j]
    ensures ReplacePlaceholderWithTemplate(s, t, i) == s[i..j] + ReplacePlaceholderWithTemplate(s, t, j)
    decreases j - i
  {
    if i < j {
      assert s[i..j][0] == s[i] && s[i..][0] == s[i];
      assert !StartsWith(s[i..], PLACEHOLDER) by {
        assert s[i] != PLACEHOLDER[0];
      }
      assert ReplacePlaceholderWithTemplate(s, t, i) == [s[i]] + ReplacePlaceholderWithTemplate(s, t, i + 1);
      assert s[i + 1..j] == s[i..j][1..];
      TemplateScanCopies(s, t, i + 1, j);
      assert s[i..j] == [s[i]] + s[i + 1..j];
    }
  }

  /** The concatenation of a list of texts, in order. */
  function Join(parts: seq<string>): string
    decreases |parts|
  {
    if |parts| == 0 then "" else Join(parts[..|parts| - 1]) + parts[|parts| - 1]
  }

  /** Joining a list of texts joins its parts, in order. */
  lemma {:induction false} JoinAppend(a: seq<string>, b: seq<string>)
    ensures Join(a + b) == Join(a) + Join(b)
    decreases |b|
  {
    if |b| == 0 {
      assert a + b == a;
    } else {
      var ab := a + b;
      var b' := b[..|b| - 1];
      var x := b[|b| - 1];
      assert ab[..|ab| - 1] == a + b';
      assert ab[|ab| - 1] == x;
      assert Join(ab) == Join(a + b') + x;
      JoinAppend(a, b');
      assert Join(b) == Join(b') + x;
    }
  }

  /** Joining a single text gives it back. */
  lemma JoinSingle(x: string)
    ensures Join([x]) == x
  {
    assert [x][..0] == [];
  }
}
