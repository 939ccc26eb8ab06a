/**
 * The title slug used to name each link descriptor (`stub_title`): the title
 * is lower-cased, every maximal run of characters other than ASCII letters and
 * digits becomes one hyphen, and hyphens at either end are removed.
 *
 * The two regular-expression substitutions of the source are modelled as two
 * functions, `Collapse` and `StripHyphens`.  `Words` and `Join` give an
 * independent reference definition, and the lemmas prove the shape of a slug,
 * that it keeps exactly the letters and digits, and idempotence.
 */
module Slug {

  predicate IsAlnum(c: char) {
    'a' <= c <= 'z' || 'A' <= c <= 'Z' || '0' <= c <= '9'
  }

  predicate IsUpper(c: char) {
    'A' <= c <= 'Z'
  }

  /** The alphabet of a slug: lower-case ASCII letters, digits and '-'. */
  predicate IsSlugChar(c: char) {
    'a' <= c <= 'z' || '0' <= c <= '9' || c == '-'
  }

  /** No ASCII upper-case letter occurs in `s`. */
  predicate IsLowerCase(s: string) {
    forall i :: 0 <= i < |s| ==> !IsUpper(s[i])
  }

  /** A well-formed slug: slug alphabet, no hyphen at either end, no two hyphens in a row. */
  predicate IsSlug(s: string) {
    && (forall i :: 0 <= i < |s| ==> IsSlugChar(s[i]))
    && (s != [] ==> s[0] != '-' && s[|s| - 1] != '-')
    && (forall i :: 0 <= i < |s| - 1 ==> !(s[i] == '-' && s[i + 1] == '-'))
  }

  /** `str.lower()` on one character, over ASCII. */
  function LowerChar(c: char): char {
    if IsUpper(c) then (c as int + 32) as char else c
  }

  function Lower(s: string): (r: string)
    ensures |r| == |s|
  {
    seq(|s|, i requires 0 <= i < |s| => LowerChar(s[i]))
  }

  /** The letters and digits of `s`, in order. */
  function Alnums(s: string): string {
    if s == [] then []
    else if IsAlnum(s[0]) then [s[0]] + Alnums(s[1..])
    else Alnums(s[1..])
  }

  /** `s` without its leading run of characters other than letters and digits. */
  function DropNonAlnum(s: string): (r: string)
    ensures |r| <= |s|
  {
    if s != [] && !IsAlnum(s[0]) then DropNonAlnum(s[1..]) else s
  }

  /** `re.sub(r"[^a-zA-Z0-9]+", "-", s)`: each maximal run of other characters becomes one '-'. */
  function Collapse(s: string): string
    decreases |s|
  {
    if s == [] then []
    else if IsAlnum(s[0]) then [s[0]] + Collapse(s[1..])
    else "-" + Collapse(DropNonAlnum(s[1..]))
  }

  function DropLeadingHyphens(s: string): string {
    if s != [] && s[0] == '-' then DropLeadingHyphens(s[1..]) else s
  }

  function DropTrailingHyphens(s: string): string {
    if s != [] && s[|s| - 1] == '-' then DropTrailingHyphens(s[..|s| - 1]) else s
  }

  /** `re.sub(r"^-+|-+$", "", s)` on a string without a newline. */
  function StripHyphens(s: string): (r: string)
    ensures |r| <= |s|
    ensures r != [] ==> r[0] != '-' && r[|r| - 1] != '-'
  {
    var t := DropLeadingHyphens(s);
    DropLeadingHyphensSpec(s);
    DropTrailingHyphensSpec(t);
    DropTrailingHyphens(t)
  }

  /** `stub_title(title)`. */
  function StubTitle(title: string): (r: string)
    ensures |r| <= |title|
    ensures r != [] ==> r[0] != '-' && r[|r| - 1] != '-'
  {
    CollapseLength(Lower(title));
    StripHyphens(Collapse(Lower(title)))
  }

  // ---------------------------------------------------------------------------
  // The reference definition: the maximal groups of letters and digits, joined
  // by single hyphens.

  /** The longest prefix of `s` made of letters and digits. */
  function Word(s: string): (w: string)
    ensures |w| <= |s|
  {
    if s != [] && IsAlnum(s[0]) then [s[0]] + Word(s[1..]) else []
  }

  /** The maximal groups of letters and digits of `s`, in order. */
  function Words(s: string): seq<string>
    decreases |s|
  {
    var t := DropNonAlnum(s);
    if t == [] then []
    else
      var w := Word(t);
      assert |w| > 0 by { DropNonAlnumSpec(s); }
      [w] + Words(t[|w|..])
  }

  function Join(ws: seq<string>): string {
    if ws == [] then []
    else if |ws| == 1 then ws[0]
    else ws[0] + "-" + Join(ws[1..])
  }

  function Flatten(ws: seq<string>): string {
    if ws == [] then [] else ws[0] + Flatten(ws[1..])
  }

  predicate IsWord(w: string) {
    w != [] && forall i :: 0 <= i < |w| ==> IsAlnum(w[i])
  }

  /** '-' when `s` ends with a character other than a letter or digit. */
  function Trail(s: string): string {
    if s != [] && !IsAlnum(s[|s| - 1]) then "-" else ""
  }

  /** '-' when `s` starts with a character other than a letter or digit. */
  function Lead(s: string): string {
    if s != [] && !IsAlnum(s[0]) then "-" else ""
  }

  // ---------------------------------------------------------------------------
  // What the helpers compute.

  /** Stripping leading hyphens leaves a suffix that does not start with '-'. */
  lemma {:induction false} DropLeadingHyphensSpec(s: string)
    ensures var r := DropLeadingHyphens(s);
      |r| <= |s| && r == s[|s| - |r|..] && (r == [] || r[0] != '-')
  {
    if s != [] && s[0] == '-' {
      DropLeadingHyphensSpec(s[1..]);
    }
  }

  /** Stripping trailing hyphens leaves a prefix that does not end with '-'. */
  lemma {:induction false} DropTrailingHyphensSpec(s: string)
    ensures var r := DropTrailingHyphens(s);
      |r| <= |s| && r == s[..|r|] && (r == [] || r[|r| - 1] != '-')
  {
    if s != [] && s[|s| - 1] == '-' {
      DropTrailingHyphensSpec(s[..|s| - 1]);
    }
  }

  /** Each run of other characters becomes a single '-', so the text never grows. */
  lemma {:induction false} CollapseLength(s: string)
    ensures |Collapse(s)| <= |s|
    decreases |s|
  {
    if s != [] {
      if IsAlnum(s[0]) {
        CollapseLength(s[1..]);
      } else {
        CollapseLength(DropNonAlnum(s[1..]));
      }
    }
  }

  /** `DropNonAlnum` removes exactly the leading run of other characters. */
  lemma {:induction false} DropNonAlnumSpec(s: string)
    ensures var r := DropNonAlnum(s);
      && r == s[|s| - |r|..]
      && (r == [] || IsAlnum(r[0]))
      && (forall i :: 0 <= i < |s| - |r| ==> !IsAlnum(s[i]))
  {
    if s != [] && !IsAlnum(s[0]) {
      DropNonAlnumSpec(s[1..]);
      var r := DropNonAlnum(s[1..]);
      assert forall i :: 1 <= i < |s| - |r| ==> s[i] == s[1..][i - 1];
      assert s[1..][|s| - 1 - |r|..] == s[|s| - |r|..];
    }
  }

  /** The part of `DropNonAlnumSpec` that locates the result, without the quantifier. */
  lemma DropNonAlnumSuffix(s: string)
    ensures var r := DropNonAlnum(s); r == s[|s| - |r|..] && (r == [] || IsAlnum(r[0]))
  {
    DropNonAlnumSpec(s);
  }

  lemma DropNonAlnumFixed(s: string)
    requires s == [] || IsAlnum(s[0])
    ensures DropNonAlnum(s) == s
  {
  }

  /** `Word` is the longest prefix of letters and digits. */
  lemma {:induction false} WordSpec(s: string)
    ensures var w := Word(s);
      && w == s[..|w|]
      && (forall i :: 0 <= i < |w| ==> IsAlnum(w[i]))
      && (|w| < |s| ==> !IsAlnum(s[|w|]))
      && (s != [] && IsAlnum(s[0]) ==> |w| > 0)
  {
    if s != [] && IsAlnum(s[0]) {
      WordSpec(s[1..]);
      var w := Word(s[1..]);
      assert Word(s) == [s[0]] + w;
      assert s[..1 + |w|] == [s[0]] + s[1..][..|w|];
      if 1 + |w| < |s| {
        assert s[1 + |w|] == s[1..][|w|];
      }
    }
  }

  lemma {:induction false} AlnumsAppend(a: string, b: string)
    ensures Alnums(a + b) == Alnums(a) + Alnums(b)
  {
    if a == [] {
      assert a + b == b;
    } else {
      assert (a + b)[1..] == a[1..] + b;
      AlnumsAppend(a[1..], b);
      if IsAlnum(a[0]) {
        assert Alnums(a + b) == [a[0]] + Alnums(a[1..] + b);
      }
    }
  }

  lemma {:induction false} AlnumsNone(s: string)
    requires forall i :: 0 <= i < |s| ==> !IsAlnum(s[i])
    ensures Alnums(s) == []
  {
    if s != [] {
      assert forall i :: 0 <= i < |s| - 1 ==> s[1..][i] == s[i + 1];
      AlnumsNone(s[1..]);
    }
  }

  lemma {:induction false} AlnumsDrop(s: string)
    ensures Alnums(DropNonAlnum(s)) == Alnums(s)
  {
    if s != [] && !IsAlnum(s[0]) {
      AlnumsDrop(s[1..]);
    }
  }

  lemma {:induction false} AlnumsOfWord(w: string)
    requires forall i :: 0 <= i < |w| ==> IsAlnum(w[i])
    ensures Alnums(w) == w
  {
    if w != [] {
      assert forall i :: 0 <= i < |w| - 1 ==> w[1..][i] == w[i + 1];
      AlnumsOfWord(w[1..]);
    }
  }

  lemma LowerAlnum(s: string)
    ensures IsLowerCase(Lower(s))
    ensures forall i :: 0 <= i < |s| ==> (IsAlnum(Lower(s)[i]) <==> IsAlnum(s[i]))
  {
  }

  // ---------------------------------------------------------------------------
  // Collapse in terms of Words.

  /** From a letter or digit, `Collapse` copies the whole group and continues after it. */
  lemma {:induction false} CollapseWord(s: string)
    requires s != [] && IsAlnum(s[0])
    ensures Collapse(s) == Word(s) + Collapse(s[|Word(s)|..])
    decreases |s|
  {
    var t := s[1..];
    assert Collapse(s) == [s[0]] + Collapse(t);
    assert Word(s) == [s[0]] + Word(t);
    if t != [] && IsAlnum(t[0]) {
      CollapseWord(t);
      var w, c := Word(t), Collapse(t[|Word(t)|..]);
      assert t[|w|..] == s[|Word(s)|..];
      assert [s[0]] + (w + c) == ([s[0]] + w) + c;
    } else {
      assert Word(t) == [];
      assert s[|Word(s)|..] == t;
    }
  }

  lemma WordsFromAlnum(t: string)
    requires t != [] && IsAlnum(t[0])
    ensures Words(t) == [Word(t)] + Words(t[|Word(t)|..])
  {
    DropNonAlnumFixed(t);
  }

  /** `Words` ignores a leading run of other characters. */
  lemma WordsSkip(s: string)
    ensures Words(s) == Words(DropNonAlnum(s))
  {
    DropNonAlnumSpec(s);
    DropNonAlnumFixed(DropNonAlnum(s));
  }

  lemma WordsOfNothing(s: string)
    requires DropNonAlnum(s) == []
    ensures Words(s) == []
  {
  }

  lemma JoinCons(w: string, ws: seq<string>)
    requires ws != []
    ensures Join([w] + ws) == w + "-" + Join(ws)
  {
    assert ([w] + ws)[1..] == ws;
  }

  lemma TrailOfSuffix(t: string, k: nat)
    requires k < |t|
    ensures Trail(t[k..]) == Trail(t)
  {
    assert t[k..][|t[k..]| - 1] == t[|t| - 1];
  }

  lemma SuffixOfSuffix(t: string, i: nat, rest: string, j: nat, u: string)
    requires i <= |t| && rest == t[i..]
    requires j <= |rest| && |u| <= |rest[j..]| && u == rest[j..][|rest[j..]| - |u|..]
    ensures u == t[|t| - |u|..]
  {
  }

  lemma Glue(w: string, x: string, y: string, j: string, tr: string)
    requires x == "-" + y && y == j + tr
    ensures w + x == w + "-" + j + tr
  {
  }

  /** A run of other characters at the very end. */
  lemma AllOtherAtEnd(t: string, k: nat)
    requires k < |t| && !IsAlnum(t[k])
    requires DropNonAlnum(t[k + 1..]) == []
    ensures Trail(t) == "-"
  {
    DropNonAlnumSpec(t[k + 1..]);
    if k + 1 < |t| {
      assert t[|t| - 1] == t[k + 1..][|t| - k - 2];
    }
  }

  /** The group reaches the end of `t`. */
  lemma CollapseOneWord(t: string)
    requires t != [] && IsAlnum(t[0])
    requires |Word(t)| == |t|
    ensures Words(t) == [t]
    ensures Collapse(t) == Join(Words(t)) + Trail(t)
  {
    var w := Word(t);
    WordSpec(t);
    CollapseWord(t);
    WordsFromAlnum(t);
    WordsOfNothing(t[|w|..]);
    assert w == t;
    assert Collapse(t) == w + [];
  }

  /** The group is followed by a run of other characters that reaches the end. */
  lemma CollapseWordThenRun(t: string)
    requires t != [] && IsAlnum(t[0])
    requires |Word(t)| < |t| && DropNonAlnum(t[|Word(t)| + 1..]) == []
    ensures Words(t) == [Word(t)]
    ensures Collapse(t) == Join(Words(t)) + Trail(t)
  {
    var w := Word(t);
    WordSpec(t);
    var rest := t[|w|..];
    CollapseWord(t);
    WordsFromAlnum(t);
    assert rest[1..] == t[|w| + 1..];
    assert Collapse(rest) == "-" + Collapse([]);
    assert DropNonAlnum(rest) == [];
    WordsOfNothing(rest);
    assert Words(t) == [w] + [];
    AllOtherAtEnd(t, |w|);
    assert Collapse(t) == w + "-";
  }

  lemma {:induction false} CollapseFromAlnum(t: string)
    requires t != [] && IsAlnum(t[0])
    ensures Words(t) != []
    ensures Collapse(t) == Join(Words(t)) + Trail(t)
    decreases |t|
  {
    var w := Word(t);
    WordSpec(t);
    if |w| == |t| {
      CollapseOneWord(t);
    } else if DropNonAlnum(t[|w| + 1..]) == [] {
      CollapseWordThenRun(t);
    } else {
      var rest := t[|w|..];
      assert rest[1..] == t[|w| + 1..];
      var u := DropNonAlnum(rest[1..]);
      DropNonAlnumSpec(rest[1..]);
      CollapseFromAlnum(u);
      CollapseWordThenMore(t, u);
    }
  }

  /** The group is followed by a run of other characters and then by the group that starts `u`. */
  lemma CollapseWordThenMore(t: string, u: string)
    requires t != [] && IsAlnum(t[0])
    requires |Word(t)| < |t| && u == DropNonAlnum(t[|Word(t)|..][1..]) && u != []
    requires IsAlnum(u[0])
    requires Words(u) != [] && Collapse(u) == Join(Words(u)) + Trail(u)
    ensures Words(t) != []
    ensures Collapse(t) == Join(Words(t)) + Trail(t)
  {
    var w := Word(t);
    WordSpec(t);
    var rest := t[|w|..];
    CollapseWord(t);
    WordsFromAlnum(t);
    assert !IsAlnum(rest[0]);
    DropNonAlnumSpec(rest[1..]);
    assert Collapse(rest) == "-" + Collapse(u);
    assert DropNonAlnum(rest) == u;
    WordsSkip(rest);
    var ws := Words(u);
    JoinCons(w, ws);
    SuffixOfSuffix(t, |w|, rest, 1, u);
    TrailOfSuffix(t, |t| - |u|);
    Glue(w, Collapse(rest), Collapse(u), Join(ws), Trail(u));
  }

  lemma RunGlue(cs: string, cu: string, ws: seq<string>, wu: seq<string>, ts: string, tu: string)
    requires cs == "-" + cu && cu == Join(wu) + tu && ws == wu && ts == tu
    ensures cs == "-" + Join(ws) + ts
  {
  }

  lemma CollapseRunUnfold(s: string)
    requires s != [] && !IsAlnum(s[0])
    ensures DropNonAlnum(s) == DropNonAlnum(s[1..])
    ensures Collapse(s) == "-" + Collapse(DropNonAlnum(s[1..]))
  {
  }

  /** After a leading run of other characters, `Collapse` writes one '-' and goes on from the next group. */
  lemma CollapseAfterRun(s: string)
    requires s != [] && !IsAlnum(s[0])
    requires DropNonAlnum(s[1..]) != []
    ensures Words(s) != []
    ensures Collapse(s) == "-" + Join(Words(s)) + Trail(s)
  {
    var u := DropNonAlnum(s[1..]);
    CollapseRunUnfold(s);
    WordsSkip(s);
    DropNonAlnumSuffix(s[1..]);
    CollapseFromAlnum(u);
    SuffixOfSuffix(s, 0, s, 1, u);
    TrailOfSuffix(s, |s| - |u|);
    RunGlue(Collapse(s), Collapse(u), Words(s), Words(u), Trail(s), Trail(u));
  }

  /** `Collapse` gives the hyphen-joined groups, with one hyphen for a leading and one for a trailing run. */
  lemma CollapseWords(s: string)
    ensures Words(s) == [] ==> Collapse(s) == [] || Collapse(s) == "-"
    ensures Words(s) != [] ==> Collapse(s) == Lead(s) + Join(Words(s)) + Trail(s)
  {
    if s == [] {
    } else if IsAlnum(s[0]) {
      CollapseFromAlnum(s);
      assert Lead(s) == [];
      assert Collapse(s) == Lead(s) + Join(Words(s)) + Trail(s);
    } else if DropNonAlnum(s[1..]) == [] {
      assert DropNonAlnum(s) == [];
      WordsOfNothing(s);
      assert Collapse(s) == "-" + Collapse([]);
    } else {
      CollapseAfterRun(s);
      assert Lead(s) == "-";
    }
  }

  // ---------------------------------------------------------------------------
  // Facts about Words and Join.

  lemma SliceOfSuffix(s: string, t: string, w: string)
    requires |t| <= |s| && t == s[|s| - |t|..]
    requires |w| <= |t| && w == t[..|w|]
    ensures w == s[|s| - |t|..|s| - |t| + |w|]
    ensures t[|w|..] == s[|s| - |t| + |w|..]
  {
  }

  lemma WordsUnfold(s: string)
    requires DropNonAlnum(s) != []
    ensures var t := DropNonAlnum(s); var w := Word(t);
      |w| <= |t| && Words(s) == [w] + Words(t[|w|..])
  {
  }

  lemma WordsStep(s: string)
    requires DropNonAlnum(s) != []
    ensures var t := DropNonAlnum(s); var w := Word(t);
      && IsWord(w) && |s| - |t| + |w| <= |s|
      && w == s[|s| - |t|..|s| - |t| + |w|]
      && t[|w|..] == s[|s| - |t| + |w|..]
      && Words(s) == [w] + Words(t[|w|..])
  {
    var t := DropNonAlnum(s);
    DropNonAlnumSpec(s);
    WordSpec(t);
    SliceOfSuffix(s, t, Word(t));
    WordsUnfold(s);
  }

  lemma {:induction false} WordsAreWords(s: string)
    ensures forall k :: 0 <= k < |Words(s)| ==> IsWord(Words(s)[k])
    ensures IsLowerCase(s) ==> forall k :: 0 <= k < |Words(s)| ==> IsLowerCase(Words(s)[k])
    decreases |s|
  {
    var t := DropNonAlnum(s);
    if t != [] {
      WordsStep(s);
      var w := Word(t);
      var k := |s| - |t|;
      WordsAreWords(t[|w|..]);
      if IsLowerCase(s) {
        assert IsLowerCase(t[|w|..]) by {
          forall i | 0 <= i < |t[|w|..]| ensures !IsUpper(t[|w|..][i]) {
            assert t[|w|..][i] == s[k + |w| + i];
          }
        }
        assert IsLowerCase(w) by {
          forall i | 0 <= i < |w| ensures !IsUpper(w[i]) {
            assert w[i] == s[k + i];
          }
        }
      }
    }
  }

  lemma WordsEmpty(s: string)
    ensures Words(s) == [] <==> forall i :: 0 <= i < |s| ==> !IsAlnum(s[i])
  {
    var t := DropNonAlnum(s);
    DropNonAlnumSpec(s);
    if t != [] {
      assert IsAlnum(s[|s| - |t|]);
    }
  }

  lemma {:induction false} FlattenWords(s: string)
    ensures Flatten(Words(s)) == Alnums(s)
    decreases |s|
  {
    var t := DropNonAlnum(s);
    AlnumsDrop(s);
    if t != [] {
      WordsStep(s);
      var w := Word(t);
      var rest := Words(t[|w|..]);
      FlattenWords(t[|w|..]);
      assert Flatten([w] + rest) == w + Flatten(rest) by {
        assert ([w] + rest)[1..] == rest;
      }
      WordSpec(t);
      assert t == w + t[|w|..];
      AlnumsAppend(w, t[|w|..]);
      AlnumsOfWord(w);
    }
  }

  lemma JoinPairShape(w: string, rest: string)
    requires IsWord(w) && IsLowerCase(w)
    requires rest != [] && IsAlnum(rest[0]) && IsAlnum(rest[|rest| - 1]) && IsSlug(rest)
    ensures var r := w + "-" + rest;
      && IsAlnum(r[0]) && IsAlnum(r[|r| - 1]) && IsSlug(r)
  {
    var r := w + "-" + rest;
    assert r[0] == w[0];
    assert r[|r| - 1] == rest[|rest| - 1];
    forall i | 0 <= i < |r| ensures IsSlugChar(r[i]) {
      if i < |w| {
        assert r[i] == w[i];
      } else if i > |w| {
        assert r[i] == rest[i - |w| - 1];
      }
    }
    forall i | 0 <= i < |r| - 1 ensures !(r[i] == '-' && r[i + 1] == '-') {
      if i < |w| {
        assert r[i] == w[i];
      } else if i == |w| {
        assert r[i + 1] == rest[0];
      } else {
        assert r[i] == rest[i - |w| - 1];
        assert r[i + 1] == rest[i - |w|];
      }
    }
  }

  lemma {:induction false} JoinShape(ws: seq<string>)
    requires forall k :: 0 <= k < |ws| ==> IsWord(ws[k]) && IsLowerCase(ws[k])
    ensures ws != [] ==> Join(ws) != [] && IsAlnum(Join(ws)[0]) && IsAlnum(Join(ws)[|Join(ws)| - 1])
    ensures IsSlug(Join(ws))
    ensures Alnums(Join(ws)) == Flatten(ws)
  {
    if |ws| == 0 {
    } else if |ws| == 1 {
      AlnumsOfWord(ws[0]);
      assert Flatten(ws) == ws[0] + Flatten(ws[1..]);
      assert forall i :: 0 <= i < |ws[0]| ==> IsSlugChar(ws[0][i]);
    } else {
      var w, rest := ws[0], Join(ws[1..]);
      JoinShape(ws[1..]);
      assert Join(ws) == w + "-" + rest;
      JoinPairShape(w, rest);
      AlnumsAppend(w + "-", rest);
      AlnumsAppend(w, "-");
      AlnumsOfWord(w);
      assert Flatten(ws) == w + Flatten(ws[1..]);
    }
  }

  // ---------------------------------------------------------------------------
  // Stripping.

  lemma StripAround(l: string, x: string, t: string)
    requires l == "" || l == "-"
    requires t == "" || t == "-"
    requires x != [] && x[0] != '-' && x[|x| - 1] != '-'
    ensures StripHyphens(l + x + t) == x
  {
    var s := l + x + t;
    if l == "-" {
      assert s[1..] == x + t;
      assert DropLeadingHyphens(s) == DropLeadingHyphens(x + t);
    } else {
      assert s == x + t;
    }
    assert DropLeadingHyphens(x + t) == x + t;
    if t == "-" {
      assert (x + t)[..|x + t| - 1] == x;
      assert DropTrailingHyphens(x + t) == DropTrailingHyphens(x);
    } else {
      assert x + t == x;
    }
  }

  // ---------------------------------------------------------------------------
  // The properties of stub_title.

  /** The reference definition: the slug is the groups of letters and digits of the lower-cased title, joined by '-'. */
  lemma StubTitleIsJoinedWords(title: string)
    ensures StubTitle(title) == Join(Words(Lower(title)))
  {
    var s := Lower(title);
    CollapseWords(s);
    if Words(s) != [] {
      LowerAlnum(title);
      WordsAreWords(s);
      JoinShape(Words(s));
      StripAround(Lead(s), Join(Words(s)), Trail(s));
    } else if Collapse(s) == "-" {
      assert "-"[1..] == [];
      assert StripHyphens("-") == [];
    }
  }

  /** A slug uses only a-z, 0-9 and '-', never starts or ends with '-', and never has two '-' in a row. */
  lemma StubTitleIsSlug(title: string)
    ensures IsSlug(StubTitle(title))
  {
    StubTitleIsJoinedWords(title);
    LowerAlnum(title);
    WordsAreWords(Lower(title));
    JoinShape(Words(Lower(title)));
  }

  /** The slug keeps exactly the letters and digits of the lower-cased title, in order. */
  lemma StubTitleKeepsAlnums(title: string)
    ensures Alnums(StubTitle(title)) == Alnums(Lower(title))
  {
    StubTitleIsJoinedWords(title);
    LowerAlnum(title);
    WordsAreWords(Lower(title));
    JoinShape(Words(Lower(title)));
    FlattenWords(Lower(title));
  }

  /** The slug is empty exactly when the title has no ASCII letter or digit. */
  lemma StubTitleEmpty(title: string)
    ensures StubTitle(title) == [] <==> forall i :: 0 <= i < |title| ==> !IsAlnum(title[i])
  {
    StubTitleIsJoinedWords(title);
    LowerAlnum(title);
    WordsEmpty(Lower(title));
    WordsAreWords(Lower(title));
    JoinShape(Words(Lower(title)));
  }

  lemma {:induction false} CollapseOfSlugText(s: string)
    requires forall i :: 0 <= i < |s| ==> IsAlnum(s[i]) || s[i] == '-'
    requires forall i :: 0 <= i < |s| - 1 ==> !(s[i] == '-' && s[i + 1] == '-')
    ensures Collapse(s) == s
  {
    if s != [] {
      assert forall i :: 0 <= i < |s| - 1 ==> s[1..][i] == s[i + 1];
      CollapseOfSlugText(s[1..]);
      if !IsAlnum(s[0]) {
        DropNonAlnumFixed(s[1..]);
      }
    }
  }

  /** A slug is its own slug. */
  lemma SlugIsFixedPoint(s: string)
    requires IsSlug(s)
    ensures StubTitle(s) == s
  {
    assert Lower(s) == s by {
      forall i | 0 <= i < |s| ensures Lower(s)[i] == s[i] {
        assert IsSlugChar(s[i]);
      }
    }
    CollapseOfSlugText(s);
    assert DropLeadingHyphens(s) == s;
    assert DropTrailingHyphens(s) == s;
  }

  /** Applying stub_title twice gives the same result as applying it once. */
  lemma StubTitleIdempotent(title: string)
    ensures StubTitle(StubTitle(title)) == StubTitle(title)
  {
    StubTitleIsSlug(title);
    SlugIsFixedPoint(StubTitle(title));
  }
}
