/**
 * The string operations the services apply: `toLowerCase`, `split(/\W+/)`,
 * `replace(/\s+/g, " ")`, `trim`, `slice(0, n)`, `includes` and decimal printing of
 * counters.
 */
module Text {

  /** `\w` in a JavaScript regular expression without the `u` flag. */
  predicate IsWordChar(c: char)
  {
    ('a' <= c <= 'z') || ('A' <= c <= 'Z') || ('0' <= c <= '9') || c == '_'
  }

  /** `\s`, which is also the set `trim` removes: white space and line terminators. */
  predicate IsSpace(c: char)
  {
    c == ' ' || c == '\t' || c == '\n' || c == '\U{B}' || c == '\U{C}' || c == '\r' ||
    c == '\U{A0}' || c == '\U{1680}' || ('\U{2000}' <= c <= '\U{200A}') ||
    c == '\U{2028}' || c == '\U{2029}' || c == '\U{202F}' || c == '\U{205F}' ||
    c == '\U{3000}' || c == '\U{FEFF}'
  }

  predicate IsUpper(c: char)
  {
    'A' <= c <= 'Z'
  }

  /** `toLowerCase` on ASCII letters; other characters are left as they are. */
  function LowerChar(c: char): (r: char)
    ensures !IsUpper(r)
    ensures IsWordChar(r) == IsWordChar(c)
  {
    if IsUpper(c) then (c as int + 32) as char else c
  }

  function Lower(s: string): (r: string)
    ensures |r| == |s|
    ensures forall i :: 0 <= i < |s| ==> r[i] == LowerChar(s[i])
  {
    seq(|s|, i requires 0 <= i < |s| => LowerChar(s[i]))
  }

  predicate AllWord(s: string)
  {
    forall i :: 0 <= i < |s| ==> IsWordChar(s[i])
  }

  predicate NoUpper(s: string)
  {
    forall i :: 0 <= i < |s| ==> !IsUpper(s[i])
  }

  predicate AllSpace(s: string)
  {
    forall i :: 0 <= i < |s| ==> IsSpace(s[i])
  }

  /** Length of the longest prefix of `s` made of word characters. */
  function WordRun(s: string): (n: nat)
    ensures n <= |s| && AllWord(s[..n])
    ensures n < |s| ==> !IsWordChar(s[n])
  {
    if s == [] || !IsWordChar(s[0]) then 0 else 1 + WordRun(s[1..])
  }

  /** Length of the longest prefix of `s` made of non-word characters. */
  function NonWordRun(s: string): (n: nat)
    ensures n <= |s|
    ensures forall i :: 0 <= i < n ==> !IsWordChar(s[i])
    ensures n < |s| ==> IsWordChar(s[n])
  {
    if s == [] || IsWordChar(s[0]) then 0 else 1 + NonWordRun(s[1..])
  }

  /** `s.split(/\W+/)`: the pieces between maximal runs of non-word characters, with an
      empty first (last) piece when `s` starts (ends) with such a run. */
  function SplitNonWord(s: string): (r: seq<string>)
    decreases |s|
  {
    var w := WordRun(s);
    if w == |s| then [s]
    else
      var rest := s[w..];
      [s[..w]] + SplitNonWord(rest[NonWordRun(rest)..])
  }

  /** `.filter(Boolean)` on strings. */
  function NonEmpty(ps: seq<string>): (r: seq<string>)
  {
    if ps == [] then []
    else if ps[0] == "" then NonEmpty(ps[1..])
    else [ps[0]] + NonEmpty(ps[1..])
  }

  /** The word characters of `s`, in order. */
  function WordChars(s: string): string
  {
    if s == [] then []
    else if IsWordChar(s[0]) then [s[0]] + WordChars(s[1..])
    else WordChars(s[1..])
  }

  function Concat(ps: seq<string>): string
  {
    if ps == [] then [] else ps[0] + Concat(ps[1..])
  }

  lemma AppendAssoc(a: string, b: string, c: string)
    ensures a + (b + c) == (a + b) + c
  {
  }

  lemma {:induction false} ConcatAppend(ps: seq<string>, p: string)
    ensures Concat(ps + [p]) == Concat(ps) + p
  {
    if ps == [] {
      assert Concat([p]) == p + Concat([]);
    } else {
      assert (ps + [p])[1..] == ps[1..] + [p];
      ConcatAppend(ps[1..], p);
    }
  }

  /** Appending piece `i` to the concatenation of the pieces before it. */
  lemma ConcatStep(h: string, ps: seq<string>, i: int)
    requires 0 <= i < |ps|
    ensures h + Concat(ps[..i]) + ps[i] == h + Concat(ps[..i + 1])
  {
    ConcatAppend(ps[..i], ps[i]);
    assert ps[..i + 1] == ps[..i] + [ps[i]];
  }

  /** The concatenation of pieces is the pieces before `i`, piece `i`, and the rest. */
  lemma {:induction false} ConcatSplit(ps: seq<string>, i: int)
    requires 0 <= i < |ps|
    ensures Concat(ps) == Concat(ps[..i]) + ps[i] + Concat(ps[i + 1..])
  {
    if i > 0 {
      ConcatSplit(ps[1..], i - 1);
      assert ps[1..][..i - 1] == ps[1..i];
      assert ps[1..][i - 1] == ps[i];
      assert ps[1..][i..] == ps[i + 1..];
      assert ps[..i][1..] == ps[1..i];
    } else {
      assert ps[..0] == [];
      assert ps[1..] == ps[i + 1..];
    }
  }

  /** Appends the pieces to `h` one by one, as a `forEach` with `+=` does. */
  method AppendEach(h: string, ps: seq<string>) returns (r: string)
    ensures r == h + Concat(ps)
  {
    r := h;
    var i := 0;
    while i < |ps|
      invariant 0 <= i <= |ps|
      invariant r == h + Concat(ps[..i])
    {
      ConcatStep(h, ps, i);
      r := r + ps[i];
      i := i + 1;
    }
    assert ps[..i] == ps;
  }

  /** Behind a head, the concatenation of pieces is the pieces before `i`, piece `i`,
      then the later pieces and whatever follows them. */
  lemma ConcatLayout(h: string, ps: seq<string>, i: int, tail: string)
    requires 0 <= i < |ps|
    ensures h + Concat(ps) + tail == h + Concat(ps[..i]) + ps[i] + (Concat(ps[i + 1..]) + tail)
  {
    var a, p, b := Concat(ps[..i]), ps[i], Concat(ps[i + 1..]);
    calc {
      h + Concat(ps) + tail;
      { ConcatSplit(ps, i); }
      h + (a + p + b) + tail;
      { AppendAssoc(h, a + p, b); }
      h + (a + p) + b + tail;
      { AppendAssoc(h, a, p); }
      h + a + p + b + tail;
      { AppendAssoc(h + a + p, b, tail); }
      h + a + p + (b + tail);
    }
  }

  lemma {:induction false} WordCharsAppend(a: string, b: string)
    ensures WordChars(a + b) == WordChars(a) + WordChars(b)
  {
    if a == [] {
      assert a + b == b;
    } else {
      assert (a + b)[1..] == a[1..] + b;
      WordCharsAppend(a[1..], b);
    }
  }

  lemma {:induction false} WordCharsOfWords(s: string)
    requires AllWord(s)
    ensures WordChars(s) == s
  {
    if s != [] {
      WordCharsOfWords(s[1..]);
    }
  }

  lemma {:induction false} WordCharsOfSeparators(s: string)
    requires forall i :: 0 <= i < |s| ==> !IsWordChar(s[i])
    ensures WordChars(s) == []
  {
    if s != [] {
      WordCharsOfSeparators(s[1..]);
    }
  }

  /** A string is its first `w` characters, the next `n`, and the rest. */
  lemma ThreeParts(s: string, w: nat, n: nat)
    requires w <= |s| && n <= |s| - w
    ensures s == s[..w] + s[w..][..n] + s[w..][n..]
  {
    assert s == s[..w] + s[w..];
    assert s[w..] == s[w..][..n] + s[w..][n..];
  }

  /** One step of `split(/\W+/)` on a string that has a non-word character. */
  lemma SplitNonWordStep(s: string)
    requires WordRun(s) < |s|
    ensures var w := WordRun(s); var rest := s[w..]; var n := NonWordRun(rest);
      && SplitNonWord(s) == [s[..w]] + SplitNonWord(rest[n..])
      && s == s[..w] + rest[..n] + rest[n..]
      && |rest[n..]| < |s|
  {
    var w := WordRun(s);
    var rest := s[w..];
    assert rest[0] == s[w];
    ThreeParts(s, w, NonWordRun(rest));
  }

  /** Every piece of `split(/\W+/)` is made of word characters, and none of them has an
      upper-case letter the input did not have. */
  lemma {:induction false} SplitNonWordPieces(s: string)
    ensures forall p :: p in SplitNonWord(s) ==> AllWord(p)
    ensures NoUpper(s) ==> forall p :: p in SplitNonWord(s) ==> NoUpper(p)
    decreases |s|
  {
    var w := WordRun(s);
    if w == |s| {
      assert s[..w] == s;
    } else {
      SplitNonWordStep(s);
      var rest := s[w..];
      var tail := rest[NonWordRun(rest)..];
      SplitNonWordPieces(tail);
      assert NoUpper(s) ==> NoUpper(tail) && NoUpper(s[..w]);
    }
  }

  lemma ConcatCons(p: string, ps: seq<string>)
    ensures Concat([p] + ps) == p + Concat(ps)
  {
    assert ([p] + ps)[1..] == ps;
  }

  /** A word piece, then separators, then what the later pieces spell. */
  lemma SpellStep(a: string, b: string, tail: string, ps: seq<string>)
    requires AllWord(a) && forall i :: 0 <= i < |b| ==> !IsWordChar(b[i])
    requires Concat(ps) == WordChars(tail)
    ensures Concat([a] + ps) == WordChars(a + b + tail)
  {
    WordCharsOfWords(a);
    WordCharsOfSeparators(b);
    ConcatCons(a, ps);
    WordCharsAppend(a, b);
    WordCharsAppend(a + b, tail);
  }

  /** The pieces of `split(/\W+/)` spell out exactly the word characters of the input, in order. */
  lemma {:induction false} SplitNonWordSpells(s: string)
    ensures Concat(SplitNonWord(s)) == WordChars(s)
    decreases |s|
  {
    var w := WordRun(s);
    if w == |s| {
      assert s[..w] == s;
      WordCharsOfWords(s);
      ConcatCons(s, []);
    } else {
      SplitNonWordStep(s);
      var rest := s[w..];
      var n := NonWordRun(rest);
      var a, b, tail := s[..w], rest[..n], rest[n..];
      SplitNonWordSpells(tail);
      assert forall i :: 0 <= i < |b| ==> b[i] == rest[i];
      SpellStep(a, b, tail, SplitNonWord(tail));
    }
  }

  lemma {:induction false} NonEmptyKeeps(ps: seq<string>)
    ensures forall p :: p in NonEmpty(ps) ==> p in ps && p != ""
    ensures Concat(NonEmpty(ps)) == Concat(ps)
  {
    if ps != [] {
      NonEmptyKeeps(ps[1..]);
      if ps[0] != "" {
        assert NonEmpty(ps)[1..] == NonEmpty(ps[1..]);
      }
    }
  }

  /** The maximal runs of word characters in `s`, in order: non-word characters are
      skipped one at a time, and each word character starts a run that goes on as long as
      word characters do. */
  function Runs(s: string): seq<string>
    decreases |s|
  {
    if s == [] then []
    else if !IsWordChar(s[0]) then Runs(s[1..])
    else
      var w := WordRun(s);
      [s[..w]] + Runs(s[w..])
  }

  /** Leading non-word characters start no run. */
  lemma {:induction false} RunsSkip(s: string, n: nat)
    requires n <= |s| && forall i :: 0 <= i < n ==> !IsWordChar(s[i])
    ensures Runs(s) == Runs(s[n..])
  {
    if n > 0 {
      RunsSkip(s[1..], n - 1);
      assert s[1..][n - 1..] == s[n..];
    }
  }

  /** Splitting on runs of non-word characters and dropping the empty pieces gives the
      maximal word runs. */
  lemma {:induction false} SplitNonWordRuns(s: string)
    ensures NonEmpty(SplitNonWord(s)) == Runs(s)
    decreases |s|
  {
    var w := WordRun(s);
    if w == |s| {
      if s != [] {
        assert s[..w] == s && s[w..] == [];
      }
    } else {
      SplitNonWordStep(s);
      var rest := s[w..];
      var n := NonWordRun(rest);
      assert rest[0] == s[w];
      SplitNonWordRuns(rest[n..]);
      RunsSkip(rest, n);
      if w == 0 {
        assert s[..w] == "" && rest == s;
        RunsSkip(s, n);
      } else {
        assert NonEmpty([s[..w]] + SplitNonWord(rest[n..]))[1..] == NonEmpty(SplitNonWord(rest[n..])) by {
          assert ([s[..w]] + SplitNonWord(rest[n..]))[1..] == SplitNonWord(rest[n..]);
        }
      }
    }
  }

  /** The tokens of `s`: `s.toLowerCase().split(/\W+/).filter(Boolean)`. */
  function Words(s: string): seq<string>
  {
    NonEmpty(SplitNonWord(Lower(s)))
  }

  /** Each token is non-empty, lower-case and made of word characters only, the tokens,
      in order, are the word characters of the lower-cased text, and they break exactly
      where that text does: they are its maximal runs of word characters. */
  lemma WordsAreLowerWords(s: string)
    ensures forall t :: t in Words(s) ==> t != "" && AllWord(t) && NoUpper(t)
    ensures Concat(Words(s)) == WordChars(Lower(s))
    ensures Words(s) == Runs(Lower(s))
  {
    SplitNonWordRuns(Lower(s));
    SplitNonWordPieces(Lower(s));
    SplitNonWordSpells(Lower(s));
    NonEmptyKeeps(SplitNonWord(Lower(s)));
  }

  lemma LowerExample()
    ensures Lower("Ab cd") == "ab cd"
  {
    var l := Lower("Ab cd");
    assert l[0] == 'a' && l[1] == 'b' && l[2] == ' ' && l[3] == 'c' && l[4] == 'd';
  }

  lemma RunsExample()
    ensures Runs("ab cd") == ["ab", "cd"]
  {
    var l := "ab cd";
    assert WordRun(l[2..]) == 0;
    assert WordRun(l[1..]) == 1;
    assert WordRun(l) == 2;
    assert l[..2] == "ab";
    var c := l[2..][1..];
    assert c == "cd";
    assert WordRun(c) == 2;
    assert c[..2] == "cd" && c[2..] == [];
  }

  /** A space splits the text into two tokens, lower-cased. */
  lemma WordsBreakAtSeparator()
    ensures Words("Ab cd") == ["ab", "cd"]
  {
    WordsAreLowerWords("Ab cd");
    LowerExample();
    RunsExample();
  }

  // ---------------------------------------------------------------------------
  // replace(/\s+/g, " ") and trim()

  /** No white space other than single ' ' characters. */
  predicate Tidy(s: string)
  {
    forall i :: 0 <= i < |s| && IsSpace(s[i]) ==> s[i] == ' ' && (i + 1 < |s| ==> !IsSpace(s[i + 1]))
  }

  /** Length of the longest prefix of `s` made of white space. */
  function SpaceRun(s: string): (n: nat)
    ensures n <= |s| && AllSpace(s[..n])
    ensures n < |s| ==> !IsSpace(s[n])
  {
    if s == [] || !IsSpace(s[0]) then 0 else 1 + SpaceRun(s[1..])
  }

  /** `s.replace(/\s+/g, " ")`: every maximal run of white space becomes one ' '. */
  function Collapse(s: string): (r: string)
    ensures Tidy(r)
    ensures r == [] <==> s == []
    ensures r != [] ==> IsSpace(r[0]) == IsSpace(s[0])
    ensures |r| <= |s|
    decreases |s|
  {
    if s == [] then []
    else if IsSpace(s[0]) then " " + Collapse(s[SpaceRun(s)..])
    else [s[0]] + Collapse(s[1..])
  }

  /** The characters of `s` that are not white space, in order. */
  function Visible(s: string): string
  {
    if s == [] then []
    else if IsSpace(s[0]) then Visible(s[1..])
    else [s[0]] + Visible(s[1..])
  }

  lemma {:induction false} VisibleAppend(a: string, b: string)
    ensures Visible(a + b) == Visible(a) + Visible(b)
  {
    if a == [] {
      assert a + b == b;
    } else {
      assert (a + b)[1..] == a[1..] + b;
      VisibleAppend(a[1..], b);
    }
  }

  lemma {:induction false} VisibleOfSpaces(s: string)
    requires AllSpace(s)
    ensures Visible(s) == []
  {
    if s != [] {
      VisibleOfSpaces(s[1..]);
    }
  }

  /** Collapsing white space keeps every other character, in order. */
  lemma {:induction false} CollapseKeepsVisible(s: string)
    ensures Visible(Collapse(s)) == Visible(s)
    decreases |s|
  {
    if s != [] {
      if IsSpace(s[0]) {
        var n := SpaceRun(s);
        CollapseKeepsVisible(s[n..]);
        assert s == s[..n] + s[n..];
        VisibleAppend(s[..n], s[n..]);
        VisibleOfSpaces(s[..n]);
        VisibleAppend(" ", Collapse(s[n..]));
        assert Visible(" ") == [];
      } else {
        CollapseKeepsVisible(s[1..]);
        assert ([s[0]] + Collapse(s[1..]))[1..] == Collapse(s[1..]);
      }
    }
  }

  /** `trimStart`. */
  function TrimStart(s: string): (r: string)
    ensures |r| <= |s| && r == s[|s| - |r|..]
    ensures AllSpace(s[..|s| - |r|])
    ensures r != [] ==> !IsSpace(r[0])
  {
    if s != [] && IsSpace(s[0]) then TrimStart(s[1..]) else s
  }

  /** `trimEnd`. */
  function TrimEnd(s: string): (r: string)
    ensures |r| <= |s| && r == s[..|r|]
    ensures AllSpace(s[|r|..])
    ensures r != [] ==> !IsSpace(r[|r| - 1])
  {
    if s != [] && IsSpace(s[|s| - 1]) then TrimEnd(s[..|s| - 1]) else s
  }

  /** `s` is `i` white-space characters, then `r`, then only white space. */
  predicate Pads(s: string, r: string, i: int)
  {
    0 <= i && i + |r| <= |s| && r == s[i..i + |r|] && AllSpace(s[..i]) && AllSpace(s[i + |r|..])
  }

  /** `trim`: `s` is some white space, then the result, then some white space, and the
      result neither starts nor ends with white space. */
  function Trim(s: string): (r: string)
    ensures exists i :: Pads(s, r, i)
    ensures r != [] ==> !IsSpace(r[0]) && !IsSpace(r[|r| - 1])
  {
    var t := TrimStart(s);
    var r := TrimEnd(t);
    PadsOf(s, t, r);
    r
  }

  /** A suffix `t` of `s` after white space, cut to a prefix `r` before white space: `s`
      pads `r`. */
  lemma PadsOf(s: string, t: string, r: string)
    requires |t| <= |s| && t == s[|s| - |t|..] && AllSpace(s[..|s| - |t|])
    requires |r| <= |t| && r == t[..|r|] && AllSpace(t[|r|..])
    ensures Pads(s, r, |s| - |t|)
  {
    var i := |s| - |t|;
    assert t[..|r|] == s[i..i + |r|];
    assert t[|r|..] == s[i + |r|..];
  }

  lemma TidySlice(s: string, i: int, j: int)
    requires Tidy(s) && 0 <= i <= j <= |s|
    ensures Tidy(s[i..j])
  {
    var t := s[i..j];
    forall k | 0 <= k < |t| && IsSpace(t[k])
      ensures t[k] == ' ' && (k + 1 < |t| ==> !IsSpace(t[k + 1]))
    {
      assert t[k] == s[i + k];
    }
  }

  /** `s.replace(/\s+/g, " ").trim()` */
  function Normalize(s: string): string
  {
    Trim(Collapse(s))
  }

  /** Removing surrounding white space keeps every other character. */
  lemma PadsVisible(s: string, r: string, i: int)
    requires Pads(s, r, i)
    ensures Visible(r) == Visible(s)
  {
    assert s == s[..i] + r + s[i + |r|..];
    VisibleAppend(s[..i] + r, s[i + |r|..]);
    VisibleAppend(s[..i], r);
    VisibleOfSpaces(s[..i]);
    VisibleOfSpaces(s[i + |r|..]);
  }

  /** The normalised text has no white space other than single spaces, none at either
      end, and the same non-space characters as the input. */
  lemma NormalizeShape(s: string)
    ensures Tidy(Normalize(s))
    ensures Normalize(s) != [] ==> !IsSpace(Normalize(s)[0]) && !IsSpace(Normalize(s)[|Normalize(s)| - 1])
    ensures Visible(Normalize(s)) == Visible(s)
  {
    NormalizeTidy(s);
    NormalizeVisible(s);
  }

  /** Normalising never lengthens the text. */
  lemma NormalizeShorter(s: string)
    ensures |Normalize(s)| <= |Collapse(s)| <= |s|
  {
    var c := Collapse(s);
    var i :| Pads(c, Trim(c), i);
  }

  lemma NormalizeTidy(s: string)
    ensures Tidy(Normalize(s))
  {
    var c := Collapse(s);
    var r := Trim(c);
    var i :| Pads(c, r, i);
    PadsTidy(c, r, i);
  }

  /** What lies between the padding of a tidy text is tidy. */
  lemma PadsTidy(s: string, r: string, i: int)
    requires Tidy(s) && Pads(s, r, i)
    ensures Tidy(r)
  {
    TidySlice(s, i, i + |r|);
  }

  lemma NormalizeVisible(s: string)
    ensures Visible(Normalize(s)) == Visible(s)
  {
    var c := Collapse(s);
    var r := Trim(c);
    var i :| Pads(c, r, i);
    PadsVisible(c, r, i);
    CollapseKeepsVisible(s);
  }

  /** `s.slice(0, n)` */
  function Take(s: string, n: nat): (r: string)
    ensures |r| <= n && r <= s
    ensures |s| <= n ==> r == s
    ensures |s| > n ==> |r| == n
  {
    if |s| <= n then s else s[..n]
  }

  // ---------------------------------------------------------------------------
  // includes()

  /** `s.includes(t)` */
  predicate Includes(s: string, t: string)
    decreases |s|
  {
    t <= s || (s != [] && Includes(s[1..], t))
  }

  /** `t` occurs in `s` at position `i`. */
  predicate OccursAt(s: string, t: string, i: int)
  {
    0 <= i && i + |t| <= |s| && s[i..i + |t|] == t
  }

  /** `includes` holds exactly when `t` occurs at some position of `s`. */
  lemma {:induction false} IncludesIff(s: string, t: string)
    ensures Includes(s, t) <==> exists i :: OccursAt(s, t, i)
    decreases |s|
  {
    if t <= s {
      assert s[0..|t|] == t;
      assert OccursAt(s, t, 0);
    } else if s == [] {
    } else {
      IncludesIff(s[1..], t);
      if exists i :: OccursAt(s, t, i) {
        var i :| OccursAt(s, t, i);
        assert i != 0;
        assert s[1..][i - 1..i - 1 + |t|] == t;
        assert OccursAt(s[1..], t, i - 1);
      }
      if Includes(s[1..], t) {
        var i :| OccursAt(s[1..], t, i);
        assert s[i + 1..i + 1 + |t|] == t;
        assert OccursAt(s, t, i + 1);
      }
    }
  }

  // ---------------------------------------------------------------------------
  // Decimal printing of counters (`${n}` for a non-negative integer)

  predicate IsDigit(c: char)
  {
    '0' <= c <= '9'
  }

  function DigitChar(d: nat): (c: char)
    requires d < 10
    ensures IsDigit(c) && c as int - '0' as int == d
  {
    (d + '0' as int) as char
  }

  function NatToString(n: nat): (r: string)
    ensures r != [] && forall i :: 0 <= i < |r| ==> IsDigit(r[i])
  {
    if n < 10 then [DigitChar(n)] else NatToString(n / 10) + [DigitChar(n % 10)]
  }

  function ParseDecimal(s: string): int
    requires forall i :: 0 <= i < |s| ==> IsDigit(s[i])
  {
    if s == [] then 0 else ParseDecimal(s[..|s| - 1]) * 10 + (s[|s| - 1] as int - '0' as int)
  }

  /** Reading back the printed counter gives the counter. */
  lemma {:induction false} NatToStringRoundTrip(n: nat)
    ensures ParseDecimal(NatToString(n)) == n
  {
    if n >= 10 {
      NatToStringRoundTrip(n / 10);
      var r := NatToString(n);
      assert r[..|r| - 1] == NatToString(n / 10);
    }
  }
}
