/**
 * The name converter of lib/util.js: a camel- or Pascal-case component name
 * becomes a lower-case name with a separator in front of each former
 * upper-case letter (`HeadBack` with `_` is `head_back`).
 */
module Util {
  import opened Wrappers
  import opened JsString

  /** JavaScript truthiness of the separator: present and not the empty string. */
  predicate Truthy(split: Option<string>) {
    split.Some? && split.value != ""
  }

  /** The separator-inserted, lower-cased name before the leading strip. */
  function Spread(name: string, sep: string): (r: string)
    ensures !HasUpper(r)
  {
    Lower(InsertBeforeUppers(name, sep))
  }

  /** Whether the leading strip fires for this name and separator. */
  predicate LeadingStrip(name: string, sep: string) {
    StartsWith(Spread(name, sep), sep)
  }

  /**
   * `convertName(name, split)` with the separator inserted literally. A falsy
   * separator leaves the name as it is; otherwise the separator goes in front
   * of every upper-case letter, the whole is lower-cased, and one leading
   * occurrence of the separator, if there is one, is removed.
   */
  function ConvertName(name: string, split: Option<string>): (r: string)
    ensures !Truthy(split) ==> r == name
    ensures Truthy(split) ==> !HasUpper(r)
  {
    if Truthy(split) then
      var newName := Spread(name, split.value);
      if StartsWith(newName, split.value) then newName[|split.value|..] else newName
    else name
  }

  /**
   * `convertName` as written: the separator is spliced into the replacement
   * template `${split}$1`, so a dollar sign in it is read as a substitution.
   */
  function ConvertNameAsWritten(name: string, split: Option<string>): (r: string)
    ensures !Truthy(split) ==> r == name
  {
    if Truthy(split) then
      var newName := Lower(ReplaceUppersWithTemplate(name, split.value + "$1", 0));
      if StartsWith(newName, split.value) then newName[|split.value|..] else newName
    else name
  }

  /** The two agree for every separator without a dollar sign. */
  lemma AsWrittenAgrees(name: string, split: Option<string>)
    requires split.Some? ==> '$' !in split.value
    ensures ConvertNameAsWritten(name, split) == ConvertName(name, split)
  {
    if Truthy(split) {
      ReplaceUppersLiteral(name, split.value, 0);
      assert name[0..] == name;
    }
  }

  lemma ExpandDollarOne(m: string, before: string, after: string)
    ensures Expand("$$1", m, before, after, Some(m)) == "$1"
  {
    assert "$$1"[2..] == "1";
    assert "1"[1..] == "";
  }

  lemma ReplaceUppersDollar(s: string, t: string)
    requires s == "HeadBack" && t == "$$1"
    ensures ReplaceUppersWithTemplate(s, t, 0) == "$1ead$1ack"
  {
    CopyLowerStep(s, t, 7);
    CopyLowerStep(s, t, 6);
    CopyLowerStep(s, t, 5);
    assert ReplaceUppersWithTemplate(s, t, 5) == "ack";
    DollarOneStep(s, t, 4);
    assert ReplaceUppersWithTemplate(s, t, 4) == "$1ack";
    CopyLowerStep(s, t, 3);
    CopyLowerStep(s, t, 2);
    CopyLowerStep(s, t, 1);
    assert ReplaceUppersWithTemplate(s, t, 1) == "ead$1ack";
    DollarOneStep(s, t, 0);
  }

  /** A character that is not upper-case is copied. */
  lemma CopyLowerStep(s: string, t: string, i: nat)
    requires i < |s| && !IsUpper(s[i])
    ensures ReplaceUppersWithTemplate(s, t, i) == [s[i]] + ReplaceUppersWithTemplate(s, t, i + 1)
  {
  }

  /** With the template `$$1` a capital becomes the two characters `$1`. */
  lemma DollarOneStep(s: string, t: string, i: nat)
    requires i < |s| && IsUpper(s[i]) && t == "$$1"
    ensures ReplaceUppersWithTemplate(s, t, i) == "$1" + ReplaceUppersWithTemplate(s, t, i + 1)
  {
    ExpandDollarOne([s[i]], s[..i], s[i + 1..]);
  }

  lemma InsertNoUpper(s: string, sep: string)
    requires !HasUpper(s)
    ensures InsertBeforeUppers(s, sep) == s
    decreases |s|
  {
    if |s| > 0 {
      assert !IsUpper(s[0]);
      assert !HasUpper(s[1..]) by {
        forall i | 0 <= i < |s[1..]| ensures !IsUpper(s[1..][i]) {
          assert s[1..][i] == s[i + 1];
        }
      }
      InsertNoUpper(s[1..], sep);
    }
  }

  /** One capitalised word: the separator goes in front, the rest is untouched. */
  lemma InsertWord(c: char, rest: string, sep: string)
    requires IsUpper(c) && !HasUpper(rest)
    ensures InsertBeforeUppers([c] + rest, sep) == sep + [c] + rest
  {
    assert ([c] + rest)[1..] == rest;
    InsertNoUpper(rest, sep);
  }

  /** A name of two capitalised words: the separator goes before each word, and only the capitals change case. */
  lemma SpreadTwoWords(c1: char, r1: string, c2: char, r2: string, sep: string)
    requires IsUpper(c1) && IsUpper(c2) && !HasUpper(r1) && !HasUpper(r2) && !HasUpper(sep)
    ensures Spread([c1] + r1 + [c2] + r2, sep) == (sep + [LowerChar(c1)] + r1) + (sep + [LowerChar(c2)] + r2)
  {
    InsertWord(c1, r1, sep);
    InsertWord(c2, r2, sep);
    assert [c1] + r1 + [c2] + r2 == ([c1] + r1) + ([c2] + r2);
    InsertBeforeUppersAppend([c1] + r1, [c2] + r2, sep);
    LowerAppend(sep + [c1] + r1, sep + [c2] + r2);
    LowerWord(c1, r1, sep);
    LowerWord(c2, r2, sep);
  }

  lemma LowerWord(c: char, r: string, sep: string)
    requires !HasUpper(r) && !HasUpper(sep)
    ensures Lower(sep + [c] + r) == sep + [LowerChar(c)] + r
  {
    LowerNoUpper(sep);
    LowerNoUpper(r);
    LowerAppend(sep + [c], r);
    LowerAppend(sep, [c]);
  }

  /** `HeadBack` spread with a one-character lower-case separator. */
  lemma HeadBackSpread(name: string, sep: string)
    requires name == "HeadBack" && (sep == "$" || sep == "_")
    ensures Spread(name, sep) == sep + "head" + sep + "back"
  {
    assert name == ['H'] + "ead" + ['B'] + "ack";
    SpreadTwoWords('H', "ead", 'B', "ack", sep);
    assert LowerChar('H') == 'h' && LowerChar('B') == 'b';
  }

  lemma LowerUnchanged(a: string, b: string, w: string)
    requires a == "$1ead" && b == "$1ack" && w == a + b
    ensures Lower(w) == w
  {
    LowerAppend(a, b);
    assert Lower(a) == a && Lower(b) == b;
  }

  lemma AsWrittenHeadBack(name: string, split: Option<string>)
    requires name == "HeadBack" && split == Some("$")
    ensures ConvertNameAsWritten(name, split) == "1ead$1ack"
  {
    var t := split.value + "$1";
    assert t == "$$1";
    ReplaceUppersDollar(name, t);
    var w := "$1ead$1ack";
    LowerUnchanged("$1ead", "$1ack", w);
    assert StartsWith(w, "$") && w[1..] == "1ead$1ack";
  }

  /** With `$` as separator the engine drops every upper-case letter and leaves a `1` in its place. */
  lemma DollarSeparatorCounterexample()
    ensures ConvertNameAsWritten("HeadBack", Some("$")) == "1ead$1ack"
    ensures ConvertName("HeadBack", Some("$")) == "head$back"
  {
    AsWrittenHeadBack("HeadBack", Some("$"));
    DollarHeadBack("HeadBack");
  }

  /** The corrected conversion of `HeadBack` with `$`. */
  lemma DollarHeadBack(name: string)
    requires name == "HeadBack"
    ensures ConvertName(name, Some("$")) == "head$back"
  {
    HeadBackSpread(name, "$");
    var c := "$" + "head" + "$" + "back";
    assert StartsWith(c, "$") && c[1..] == "head$back";
  }

  /** The insertion works character by character: it distributes over concatenation. */
  lemma {:induction false} InsertBeforeUppersAppend(a: string, b: string, sep: string)
    ensures InsertBeforeUppers(a + b, sep) == InsertBeforeUppers(a, sep) + InsertBeforeUppers(b, sep)
    decreases |a|
  {
    if |a| == 0 {
      assert a + b == b;
    } else {
      assert (a + b)[0] == a[0];
      assert (a + b)[1..] == a[1..] + b;
      InsertBeforeUppersAppend(a[1..], b, sep);
    }
  }

  /**
   * Where each character of the name lands: everything before it is converted
   * on its own, an upper-case letter gets the separator right in front of it,
   * and the rest follows; so the characters keep their order.
   */
  lemma InsertBeforeUppersAt(s: string, sep: string, i: nat)
    requires i < |s|
    ensures InsertBeforeUppers(s, sep)
         == InsertBeforeUppers(s[..i], sep) + (if IsUpper(s[i]) then sep + [s[i]] else [s[i]])
            + InsertBeforeUppers(s[i + 1..], sep)
  {
    assert s == s[..i] + s[i..];
    InsertBeforeUppersAppend(s[..i], s[i..], sep);
    assert s[i..][0] == s[i] && s[i..][1..] == s[i + 1..];
  }

  /** Each character keeps its place among the others, lower-cased, with the (lower-cased) separator before an upper-case letter. */
  lemma SpreadAt(name: string, sep: string, i: nat)
    requires i < |name|
    ensures Spread(name, sep)
         == Spread(name[..i], sep) + (if IsUpper(name[i]) then Lower(sep) else "") + [LowerChar(name[i])]
            + Spread(name[i + 1..], sep)
  {
    InsertBeforeUppersAt(name, sep, i);
    var a, b := InsertBeforeUppers(name[..i], sep), InsertBeforeUppers(name[i + 1..], sep);
    var blk := if IsUpper(name[i]) then sep + [name[i]] else [name[i]];
    LowerBlock(sep, name[i]);
    LowerThree(a, blk, b);
  }

  lemma LowerThree(a: string, b: string, c: string)
    ensures Lower(a + b + c) == Lower(a) + Lower(b) + Lower(c)
  {
    LowerAppend(a + b, c);
    LowerAppend(a, b);
  }

  lemma LowerBlock(sep: string, c: char)
    ensures Lower(if IsUpper(c) then sep + [c] else [c]) == (if IsUpper(c) then Lower(sep) else "") + [LowerChar(c)]
  {
    if IsUpper(c) {
      LowerAppend(sep, [c]);
    }
  }

  /** Only the one leading separator is removed: the spread name is that separator (if the strip fires) followed by the result. */
  lemma ConvertNameStripsOnlyLeading(name: string, sep: string)
    requires sep != ""
    ensures Spread(name, sep) == (if LeadingStrip(name, sep) then sep else "") + ConvertName(name, Some(sep))
  {
  }

  /** Result length: one separator per upper-case letter, minus the stripped one. */
  lemma ConvertNameLength(name: string, sep: string)
    requires sep != ""
    ensures |ConvertName(name, Some(sep))|
         == |name| + |sep| * CountUpper(name) - (if LeadingStrip(name, sep) then |sep| else 0)
  {
    ConvertNameStripsOnlyLeading(name, sep);
    InsertBeforeUppersLength(name, sep);
  }

  /** Inserting the separator adds its length once per upper-case letter. */
  lemma {:induction false} InsertBeforeUppersLength(s: string, sep: string)
    ensures |InsertBeforeUppers(s, sep)| == |s| + |sep| * CountUpper(s)
    decreases |s|
  {
    if |s| > 0 {
      InsertBeforeUppersLength(s[1..], sep);
      var c := if IsUpper(s[0]) then 1 else 0;
      MulAdd(|sep|, c, CountUpper(s[1..]));
    }
  }

  /**
   * A name that starts with an upper-case letter gets no separator for it:
   * with a separator that lower-casing leaves alone, the result is that letter
   * lower-cased followed by the converted rest.
   */
  lemma ConvertNameLeadingUpper(name: string, sep: string)
    requires sep != "" && Lower(sep) == sep
    requires |name| > 0 && IsUpper(name[0])
    ensures ConvertName(name, Some(sep)) == [LowerChar(name[0])] + Spread(name[1..], sep)
  {
    SpreadAt(name, sep, 0);
    assert name[..0] == [];
    assert Spread(name, sep) == sep + ([LowerChar(name[0])] + Spread(name[1..], sep));
    assert LeadingStrip(name, sep);
  }

  /**
   * A name without upper-case letters is returned as it is, except that a
   * separator it already starts with is removed.
   */
  lemma ConvertNameNoUpper(name: string, sep: string)
    requires sep != "" && !HasUpper(name)
    ensures ConvertName(name, Some(sep)) == if StartsWith(name, sep) then name[|sep|..] else name
  {
    InsertNoUpper(name, sep);
    LowerNoUpper(name);
  }

  /** `HeadBack` with `_` becomes `head_back`. */
  lemma HeadBackUnderscore()
    ensures ConvertName("HeadBack", Some("_")) == "head_back"
  {
    HeadBackSpread("HeadBack", "_");
    var l := "_" + "head" + "_" + "back";
    assert StartsWith(l, "_") && l[1..] == "head_back";
  }

  /** A name already in lower case is kept, and without a separator nothing is converted. */
  lemma MessageUnchanged(name: string)
    requires name == "message"
    ensures ConvertName(name, Some("_")) == name
    ensures ConvertName("HeadBack", None) == "HeadBack"
  {
    ConvertNameNoUpper(name, "_");
  }

  /** A one-letter name loses the separator put before it. */
  lemma SingleLetter()
    ensures ConvertName("A", Some("-")) == "a"
  {
    InsertWord('A', "", "-");
    assert "-" + ['A'] + "" == "-A";
    var l := Lower("-A");
    assert l[1] == 'a';
    assert l == "-a";
    assert StartsWith(l, "-") && l[1..] == "a";
  }
}
