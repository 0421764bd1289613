/**
 Device names as directory names: Slug (internal/capture/store.go).

 The tables of Unicode are a parameter; all that is asked of them is that
 lower-case letters, digits, dots, dashes and underscores are their own lower
 case and that no graphic ASCII character is white space.
 */
module Slugs {
  import opened Sequences

  datatype Unicode = Unicode(lower: char -> char, fold: char -> char, space: char -> bool)

  predicate Safe(c: char) {
    'a' <= c <= 'z' || '0' <= c <= '9' || c == '.' || c == '_' || c == '-'
  }

  predicate Graphic(c: char) {
    '!' <= c <= '~'
  }

  ghost predicate Sane(u: Unicode) {
    (forall c | Safe(c) :: u.lower(c) == c) && (forall c | Graphic(c) :: !u.space(c))
  }

  const LIMIT := 96
  const RESERVED: set<string> :=
    {"con", "prn", "aux", "nul", "com1", "com2", "com3", "com4", "lpt1", "lpt2", "lpt3"}

  datatype SlugResult = Slugged(slug: string) | NoUsableCharacters

  // ----- the rewrites

  function Lower(s: string, u: Unicode): string {
    if s == "" then "" else [u.lower(s[0])] + Lower(s[1..], u)
  }

  function TrimLeft(s: string, cut: char -> bool): string {
    if s != "" && cut(s[0]) then TrimLeft(s[1..], cut) else s
  }

  function TrimRight(s: string, cut: char -> bool): string {
    if s != "" && cut(s[|s| - 1]) then TrimRight(s[..|s| - 1], cut) else s
  }

  function Trim(s: string, cut: char -> bool): string {
    TrimRight(TrimLeft(s, cut), cut)
  }

  function SkipUnsafe(s: string): (r: string)
    ensures |r| <= |s|
  {
    if s != "" && !Safe(s[0]) then SkipUnsafe(s[1..]) else s
  }

  /** Every run of unsafe characters becomes one dash. */
  function ReplaceUnsafe(s: string): string
    decreases |s|
  {
    if s == "" then ""
    else if Safe(s[0]) then [s[0]] + ReplaceUnsafe(s[1..])
    else "-" + ReplaceUnsafe(SkipUnsafe(s[1..]))
  }

  predicate DashOrDot(c: char) {
    c == '-' || c == '.'
  }

  /** A name once rewritten and cut to length, before reserved names are told apart. */
  function Clean(name: string, u: Unicode): string {
    var s := Trim(ReplaceUnsafe(Lower(Trim(name, u.space), u)), DashOrDot);
    if |s| > LIMIT then Trim(s[..LIMIT], DashOrDot) else s
  }

  function Slug(name: string, u: Unicode): SlugResult {
    var s := Clean(name, u);
    if s == "" then NoUsableCharacters
    else if s in RESERVED then Slugged(s + "-dev")
    else Slugged(s)
  }

  // ----- what a slug looks like

  predicate AllSafe(s: string) {
    forall c | c in s :: Safe(c)
  }

  /** One safe, bounded path element that is neither hidden nor one of the words the code lists. */
  predicate Shaped(s: string) {
    && s != "" && |s| <= LIMIT && AllSafe(s)
    && !DashOrDot(s[0]) && !DashOrDot(s[|s| - 1])
    && s !in RESERVED
  }

  lemma {:induction false} TrimLeftShape(s: string, cut: char -> bool)
    ensures TrimLeft(s, cut) != "" ==> !cut(TrimLeft(s, cut)[0])
    ensures |TrimLeft(s, cut)| <= |s| && TrimLeft(s, cut) == s[|s| - |TrimLeft(s, cut)|..]
  {
    if s != "" && cut(s[0]) {
      TrimLeftShape(s[1..], cut);
    }
  }

  lemma {:induction false} TrimRightShape(s: string, cut: char -> bool)
    ensures var r := TrimRight(s, cut);
            && |r| <= |s| && r == s[..|r|] && (r != "" ==> !cut(r[|r| - 1]))
            && (s != "" && !cut(s[0]) ==> r != "" && r[0] == s[0])
  {
    if s != "" && cut(s[|s| - 1]) {
      TrimRightShape(s[..|s| - 1], cut);
    }
  }

  /** Trimming leaves a stretch of the text with no such character at its ends. */
  lemma {:induction false} TrimShape(s: string, cut: char -> bool)
    ensures var r := Trim(s, cut);
            && |r| <= |s| && (r != "" ==> !cut(r[0]) && !cut(r[|r| - 1]))
            && (forall c | c in r :: c in s)
            && (s != "" && !cut(s[0]) ==> r != "")
  {
    TrimLeftShape(s, cut);
    TrimRightShape(TrimLeft(s, cut), cut);
  }

  lemma {:induction false} TrimNothing(s: string, cut: char -> bool)
    requires s != "" ==> !cut(s[0]) && !cut(s[|s| - 1])
    ensures Trim(s, cut) == s
  {
  }

  lemma {:induction false} ReplaceShape(s: string)
    ensures AllSafe(ReplaceUnsafe(s))
    decreases |s|
  {
    if s != "" {
      if Safe(s[0]) {
        ReplaceShape(s[1..]);
      } else {
        ReplaceShape(SkipUnsafe(s[1..]));
      }
    }
  }

  lemma {:induction false} ReplaceNothing(s: string)
    requires AllSafe(s)
    ensures ReplaceUnsafe(s) == s
  {
    if s != "" {
      assert s[0] in s;
      ReplaceNothing(s[1..]);
    }
  }

  lemma {:induction false} SkipRun(run: string, rest: string)
    requires (forall c | c in run :: !Safe(c)) && (rest != "" ==> Safe(rest[0]))
    ensures SkipUnsafe(run + rest) == rest
  {
    if run == "" {
      assert run + rest == rest;
    } else {
      assert run[0] in run && (run + rest)[1..] == run[1..] + rest;
      SkipRun(run[1..], rest);
    }
  }

  lemma {:induction false} RunFirst(run: string, rest: string)
    requires run != "" && (forall c | c in run :: !Safe(c)) && (rest != "" ==> Safe(rest[0]))
    ensures ReplaceUnsafe(run + rest) == "-" + ReplaceUnsafe(rest)
  {
    var s := run + rest;
    assert s[0] == run[0] && run[0] in run;
    assert s[1..] == run[1..] + rest && forall c | c in run[1..] :: c in run;
    SkipRun(run[1..], rest);
  }

  /** Text up to a safe character is rewritten on its own. */
  lemma {:induction false} ReplaceApart(before: string, after: string)
    requires before != "" ==> Safe(before[|before| - 1])
    ensures ReplaceUnsafe(before + after) == ReplaceUnsafe(before) + ReplaceUnsafe(after)
    decreases |before|
  {
    var s := before + after;
    if before == "" {
      assert s == after;
    } else if Safe(before[0]) {
      assert s[1..] == before[1..] + after;
      ReplaceApart(before[1..], after);
      Regroup([s[0]], ReplaceUnsafe(before[1..]), ReplaceUnsafe(after));
    } else {
      assert s[1..] == before[1..] + after;
      SkipStops(before[1..], after);
      ReplaceApart(SkipUnsafe(before[1..]), after);
      Regroup("-", ReplaceUnsafe(SkipUnsafe(before[1..])), ReplaceUnsafe(after));
    }
  }

  /** A whole run of unsafe characters becomes one dash, and what is around it is rewritten on its own. */
  lemma {:induction false} ReplaceRun(before: string, run: string, rest: string)
    requires run != "" && (forall c | c in run :: !Safe(c))
    requires (before != "" ==> Safe(before[|before| - 1])) && (rest != "" ==> Safe(rest[0]))
    ensures ReplaceUnsafe(before + (run + rest)) == ReplaceUnsafe(before) + ("-" + ReplaceUnsafe(rest))
  {
    ReplaceApart(before, run + rest);
    RunFirst(run, rest);
  }

  lemma {:induction false} SkipStops(s: string, more: string)
    requires s != "" && Safe(s[|s| - 1])
    ensures SkipUnsafe(s + more) == SkipUnsafe(s) + more && SkipUnsafe(s) != ""
    ensures SkipUnsafe(s)[|SkipUnsafe(s)| - 1] == s[|s| - 1]
  {
    if !Safe(s[0]) {
      assert (s + more)[1..] == s[1..] + more;
      SkipStops(s[1..], more);
    }
  }

  lemma {:induction false} LowerNothing(s: string, u: Unicode)
    requires AllSafe(s) && Sane(u)
    ensures Lower(s, u) == s
  {
    if s != "" {
      assert s[0] in s;
      LowerNothing(s[1..], u);
    }
  }

  lemma {:induction false} CleanShape(name: string, u: Unicode)
    ensures var s := Clean(name, u);
            && |s| <= LIMIT && AllSafe(s)
            && (s != "" ==> !DashOrDot(s[0]) && !DashOrDot(s[|s| - 1]))
  {
    var r := ReplaceUnsafe(Lower(Trim(name, u.space), u));
    ReplaceShape(Lower(Trim(name, u.space), u));
    TrimShape(r, DashOrDot);
    if |Trim(r, DashOrDot)| > LIMIT {
      TrimShape(Trim(r, DashOrDot)[..LIMIT], DashOrDot);
    }
  }

  lemma {:induction false} ReservedShort(s: string)
    requires s in RESERVED
    ensures Shaped(s + "-dev")
  {
    assert s == "con" || s == "prn" || s == "aux" || s == "nul" || s == "com1" || s == "com2"
      || s == "com3" || s == "com4" || s == "lpt1" || s == "lpt2" || s == "lpt3";
    forall c | c in s + "-dev"
      ensures Safe(c)
    {
    }
    assert |s + "-dev"| >= 7;
  }

  // ----- which names are refused

  /** A character no directory name begins or ends with, or that it cannot have. */
  predicate Unusable(c: char) {
    !Safe(c) || DashOrDot(c)
  }

  lemma {:induction false} SkipNothingUsable(s: string)
    ensures (forall c | c in SkipUnsafe(s) :: Unusable(c)) <==> forall c | c in s :: Unusable(c)
  {
    if s != "" && !Safe(s[0]) {
      assert s == [s[0]] + s[1..];
      SkipNothingUsable(s[1..]);
    }
  }

  /** Rewriting leaves only dashes and dots of a text exactly if nothing in it is usable. */
  lemma {:induction false} ReplaceNothingUsable(s: string)
    ensures (forall c | c in ReplaceUnsafe(s) :: DashOrDot(c)) <==> forall c | c in s :: Unusable(c)
    decreases |s|
  {
    if s != "" {
      assert s == [s[0]] + s[1..];
      if Safe(s[0]) {
        ReplaceNothingUsable(s[1..]);
        assert ReplaceUnsafe(s) == [s[0]] + ReplaceUnsafe(s[1..]);
        assert s[0] in s && s[0] in ReplaceUnsafe(s);
      } else {
        SkipNothingUsable(s[1..]);
        ReplaceNothingUsable(SkipUnsafe(s[1..]));
      }
    }
  }

  lemma {:induction false} TrimLeftAll(s: string, cut: char -> bool)
    ensures TrimLeft(s, cut) == "" <==> forall c | c in s :: cut(c)
  {
    if s != "" {
      assert s == [s[0]] + s[1..];
      TrimLeftAll(s[1..], cut);
    }
  }

  lemma {:induction false} TrimAll(s: string, cut: char -> bool)
    ensures Trim(s, cut) == "" <==> forall c | c in s :: cut(c)
  {
    TrimLeftAll(s, cut);
    TrimLeftShape(s, cut);
    TrimRightShape(TrimLeft(s, cut), cut);
  }

  /**
   Every slug is one safe, bounded path element and none of the words the code
   lists; a name is refused exactly if no character of it is usable.
   */
  lemma {:induction false} SlugIsShaped(name: string, u: Unicode)
    ensures Slug(name, u).Slugged? ==> Shaped(Slug(name, u).slug)
    ensures Slug(name, u).NoUsableCharacters? <==> forall c | c in Lower(Trim(name, u.space), u) :: Unusable(c)
  {
    CleanShape(name, u);
    if Clean(name, u) in RESERVED {
      ReservedShort(Clean(name, u));
    }
    var low := Lower(Trim(name, u.space), u);
    var s := Trim(ReplaceUnsafe(low), DashOrDot);
    ReplaceNothingUsable(low);
    TrimAll(ReplaceUnsafe(low), DashOrDot);
    TrimShape(ReplaceUnsafe(low), DashOrDot);
    if |s| > LIMIT {
      TrimShape(s[..LIMIT], DashOrDot);
    }
  }

  lemma {:induction false} ShapedIsItsSlug(s: string, u: Unicode)
    requires Shaped(s) && Sane(u)
    ensures Slug(s, u) == Slugged(s)
  {
    assert s[0] in s && s[|s| - 1] in s;
    TrimNothing(s, u.space);
    LowerNothing(s, u);
    ReplaceNothing(s);
    TrimNothing(s, DashOrDot);
  }

  /** A slug is its own slug. */
  lemma {:induction false} SlugIsIdempotent(name: string, u: Unicode)
    requires Sane(u) && Slug(name, u).Slugged?
    ensures Slug(Slug(name, u).slug, u) == Slug(name, u)
  {
    SlugIsShaped(name, u);
    ShapedIsItsSlug(Slug(name, u).slug, u);
  }

  // ----- names Windows reserves

  // Con, prn, aux and nul, and the serial and printer ports from 1 to 9; with any extension.
  predicate WindowsReserves(w: string) {
    || w in {"con", "prn", "aux", "nul"}
    || (|w| == 4 && (w[..3] == "com" || w[..3] == "lpt") && '1' <= w[3] <= '9')
  }

  function Stem(s: string): string {
    if s == "" || s[0] == '.' then "" else [s[0]] + Stem(s[1..])
  }

  predicate StartsWith(s: string, w: string) {
    |w| <= |s| && s[..|w|] == w
  }

  /** Characters none of which is rewritten or trimmed. */
  predicate Word(w: string) {
    0 < |w| < LIMIT && forall i | 0 <= i < |w| :: !Unusable(w[i])
  }

  lemma {:induction false} ReservedIsWord(w: string)
    requires WindowsReserves(w)
    ensures Word(w) && |w| <= 4
  {
    if |w| == 4 {
      assert w[0] == w[..3][0] && w[1] == w[..3][1] && w[2] == w[..3][2];
    }
  }

  lemma {:induction false} ListedIsReserved(w: string)
    requires w in RESERVED
    ensures WindowsReserves(w)
  {
    assert w == "con" || w == "prn" || w == "aux" || w == "nul" || w == "com1" || w == "com2"
      || w == "com3" || w == "com4" || w == "lpt1" || w == "lpt2" || w == "lpt3";
  }

  lemma {:induction false} StartsOneMore(s: string, w: string)
    requires s != "" && w != ""
    ensures StartsWith(s, w) <==> s[0] == w[0] && StartsWith(s[1..], w[1..])
  {
    if StartsWith(s, w) {
      assert s[1..][..|w| - 1] == s[..|w|][1..];
    }
  }

  lemma {:induction false} StemIs(s: string, w: string)
    requires '.' !in w
    ensures Stem(s) == w <==> StartsWith(s, w) && (|s| == |w| || s[|w|] == '.')
  {
    if w != "" && s != "" {
      StartsOneMore(s, w);
      assert w == [w[0]] + w[1..];
      if s[0] == w[0] {
        assert s[0] in w;
        StemIs(s[1..], w[1..]);
      }
    }
  }

  // What is left of a name to be rewritten: lower-cased, past its leading unusable characters.
  function Body(name: string, u: Unicode): string {
    TrimLeft(Lower(Trim(name, u.space), u), Unusable)
  }

  lemma {:induction false} SkipThenTrim(s: string)
    ensures TrimLeft(SkipUnsafe(s), Unusable) == TrimLeft(s, Unusable)
  {
    if s != "" && !Safe(s[0]) {
      SkipThenTrim(s[1..]);
    }
  }

  /** Rewriting and then trimming dashes and dots off the front is trimming all that is unusable, and then rewriting. */
  lemma {:induction false} TrimThenReplace(s: string)
    ensures TrimLeft(ReplaceUnsafe(s), DashOrDot) == ReplaceUnsafe(TrimLeft(s, Unusable))
    decreases |s|
  {
    if s != "" {
      if Safe(s[0]) {
        TrimThenReplace(s[1..]);
        assert ReplaceUnsafe(s)[1..] == ReplaceUnsafe(s[1..]);
      } else {
        TrimThenReplace(SkipUnsafe(s[1..]));
        SkipThenTrim(s[1..]);
        assert ReplaceUnsafe(s)[1..] == ReplaceUnsafe(SkipUnsafe(s[1..]));
      }
    }
  }

  lemma {:induction false} TrimRightIs(s: string, cut: char -> bool)
    ensures var r := TrimRight(s, cut);
            && |r| <= |s| && r == s[..|r|] && (r != "" ==> !cut(r[|r| - 1]))
            && forall i | |r| <= i < |s| :: cut(s[i])
  {
    if s != "" && cut(s[|s| - 1]) {
      TrimRightIs(s[..|s| - 1], cut);
    }
  }

  /** Cutting a trimmed text to length and trimming it again is one trim within the limit. */
  lemma {:induction false} TrimCutTrim(r: string, c: string)
    requires r != "" ==> !DashOrDot(r[0])
    requires var t := TrimRight(r, DashOrDot); c == if |t| > LIMIT then Trim(t[..LIMIT], DashOrDot) else t
    ensures CutTo(c, r)
  {
    var t := TrimRight(r, DashOrDot);
    TrimRightIs(r, DashOrDot);
    if |t| > LIMIT {
      var cut := t[..LIMIT];
      assert cut[0] == t[0] == r[0];
      assert TrimLeft(cut, DashOrDot) == cut;
      TrimRightIs(cut, DashOrDot);
      assert cut[..|c|] == r[..|c|];
      assert forall i | |c| <= i < LIMIT :: cut[i] == r[i];
    }
  }

  /** c is the text up to its last character within the limit that is no dash or dot. */
  predicate CutTo(c: string, r: string) {
    && |c| <= LIMIT && |c| <= |r| && c == r[..|c|]
    && (c != "" ==> !DashOrDot(c[|c| - 1]))
    && forall i | |c| <= i < |r| && i < LIMIT :: DashOrDot(r[i])
  }

  /** A cleaned name is the rewritten body up to its last usable character within the limit. */
  lemma {:induction false} CleanIs(name: string, u: Unicode)
    ensures CutTo(Clean(name, u), ReplaceUnsafe(Body(name, u)))
  {
    var low := Lower(Trim(name, u.space), u);
    TrimThenReplace(low);
    TrimLeftShape(ReplaceUnsafe(low), DashOrDot);
    TrimCutTrim(ReplaceUnsafe(Body(name, u)), Clean(name, u));
  }

  /**
   A slug is the name, trimmed, lower-cased and past its leading unusable characters,
   with a dash for each run of unsafe ones, up to the last character within the limit
   that is no dash or dot; a word of the list gets a suffix.
   */
  lemma {:induction false} SlugIs(name: string, u: Unicode) returns (c: string)
    requires Slug(name, u).Slugged?
    ensures CutTo(c, ReplaceUnsafe(Body(name, u)))
    ensures Slug(name, u).slug == if c in RESERVED then c + "-dev" else c
  {
    c := Clean(name, u);
    CleanIs(name, u);
  }

  lemma {:induction false} LowerAt(s: string, u: Unicode)
    ensures |Lower(s, u)| == |s| && forall i | 0 <= i < |s| :: Lower(s, u)[i] == u.lower(s[i])
  {
    if s != "" {
      LowerAt(s[1..], u);
    }
  }

  lemma {:induction false} Middle(s: string, i: nat, n: nat)
    requires i <= |s| && n <= |s| - i
    ensures s[i..][..n] == s[i..i + n]
  {
  }

  /** Trimming takes off just what is to be cut at either end. */
  lemma {:induction false} TrimIsMiddle(s: string, cut: char -> bool) returns (i: nat, j: nat)
    ensures i <= j <= |s| && Trim(s, cut) == s[i..j]
    ensures forall k | 0 <= k < |s| && !(i <= k < j) :: cut(s[k])
    ensures Trim(s, cut) != "" ==> !cut(Trim(s, cut)[0]) && !cut(Trim(s, cut)[|Trim(s, cut)| - 1])
  {
    i := TrimLeftIs(s, cut);
    j := TailIsCut(s, s[i..], i, cut);
    Middle(s, i, j - i);
    TrimShape(s, cut);
  }

  lemma {:induction false} TailIsCut(s: string, l: string, i: nat, cut: char -> bool) returns (j: nat)
    requires i <= |s| && l == s[i..]
    ensures i <= j <= |s| && TrimRight(l, cut) == l[..j - i]
    ensures forall k | j <= k < |s| :: cut(s[k])
  {
    TrimRightIs(l, cut);
    j := i + |TrimRight(l, cut)|;
    forall k | j <= k < |s|
      ensures cut(s[k])
    {
      assert l[k - i] == s[k];
    }
  }

  lemma {:induction false} TrimLeftIs(s: string, cut: char -> bool) returns (i: nat)
    ensures i <= |s| && TrimLeft(s, cut) == s[i..] && forall k | 0 <= k < i :: cut(s[k])
  {
    i := 0;
    if s != "" && cut(s[0]) {
      i := TrimLeftIs(s[1..], cut);
      forall k | 0 < k < i + 1
        ensures cut(s[k])
      {
        assert s[1..][k - 1] == s[k];
      }
      i := i + 1;
    }
  }

  /** A word at the front of a text is there exactly if it is at the front of the rewritten text. */
  lemma {:induction false} ReplaceStarts(p: string, w: string)
    requires forall i | 0 <= i < |w| :: !Unusable(w[i])
    ensures StartsWith(ReplaceUnsafe(p), w) <==> StartsWith(p, w)
    ensures StartsWith(p, w) ==> ReplaceUnsafe(p) == w + ReplaceUnsafe(p[|w|..])
  {
    if w == "" {
      assert p[0..] == p;
    } else if p != "" {
      var r := ReplaceUnsafe(p);
      if Safe(p[0]) {
        ReplaceStarts(p[1..], w[1..]);
        StartsOneMore(p, w);
        StartsOneMore(r, w);
        assert r[1..] == ReplaceUnsafe(p[1..]);
        if StartsWith(p, w) {
          assert p[1..][|w| - 1..] == p[|w|..];
          assert w == [w[0]] + w[1..];
        }
      } else {
        StartsOneMore(p, w);
        StartsOneMore(r, w);
      }
    }
  }

  /** Whether something usable comes within the first n characters of what a text is rewritten to. */
  predicate Usable(q: string, n: int) {
    exists i | 0 <= i < |ReplaceUnsafe(q)| && i < n :: !DashOrDot(ReplaceUnsafe(q)[i])
  }

  lemma {:induction false} DotStays(q: string)
    requires ReplaceUnsafe(q) != ""
    ensures q != "" && (ReplaceUnsafe(q)[0] == '.' <==> q[0] == '.')
  {
  }

  /** When a cleaned name is a word, and when it is a word with an extension. */
  lemma {:induction false} CleanStem(name: string, u: Unicode, w: string)
    requires Word(w)
    ensures var p := Body(name, u);
            && (Clean(name, u) == w <==> StartsWith(p, w) && !Usable(p[|w|..], LIMIT - |w|))
            && (Stem(Clean(name, u)) == w && Clean(name, u) != w
                <==> StartsWith(p, w) && Usable(p[|w|..], LIMIT - |w|) && p[|w|..] != "" && p[|w|] == '.')
  {
    var c, p := Clean(name, u), Body(name, u);
    assert '.' !in w;
    CleanIs(name, u);
    ReplaceStarts(p, w);
    StemIs(c, w);
    if StartsWith(p, w) {
      WordThenRest(c, p, w);
    }
  }

  /** A word at the front of the body is at the front of the cleaned name, with what comes after it. */
  lemma {:induction false} WordThenRest(c: string, p: string, w: string)
    requires Word(w) && StartsWith(p, w) && ReplaceUnsafe(p) == w + ReplaceUnsafe(p[|w|..])
    requires CutTo(c, ReplaceUnsafe(p))
    ensures StartsWith(c, w) && (|c| > |w| <==> Usable(p[|w|..], LIMIT - |w|))
    ensures |c| > |w| ==> p[|w|..] != "" && (c[|w|] == '.' <==> p[|w|] == '.')
  {
    var r, q := ReplaceUnsafe(p), ReplaceUnsafe(p[|w|..]);
    assert forall i | 0 <= i < |q| :: r[|w| + i] == q[i];
    assert r[|w| - 1] == w[|w| - 1];
    assert |c| >= |w|;
    if |c| > |w| {
      assert c[|c| - 1] == q[|c| - 1 - |w|];
      DotStays(p[|w|..]);
    }
  }

  /**
   Whether a word keeps its place: something usable follows it and a dot comes
   first, or nothing usable does and the word is not on the code's list.
   */
  predicate Keeps(p: string, w: string) {
    && StartsWith(p, w)
    && if Usable(p[|w|..], LIMIT - |w|) then p[|w|..] != "" && p[|w|] == '.' else w !in RESERVED
  }

  /**
   Windows reserves more words than the code lists, and each of them with any
   extension, and the code only looks for the bare words of its list. A slug is a
   name Windows reserves exactly when the name, lower-cased and past its leading
   unusable characters, begins with a reserved word that keeps its place.
   */
  lemma {:induction false} ReservedStem(name: string, u: Unicode)
    requires Slug(name, u).Slugged?
    ensures WindowsReserves(Stem(Slug(name, u).slug)) <==> exists w | WindowsReserves(w) :: Keeps(Body(name, u), w)
  {
    var c, p := Clean(name, u), Body(name, u);
    if c in RESERVED {
      ListedKeepsNothing(name, u);
    } else {
      if WindowsReserves(Stem(c)) {
        StemKeeps(name, u, Stem(c));
      }
      forall w | WindowsReserves(w) && Keeps(p, w)
        ensures Stem(c) == w
      {
        StemKeeps(name, u, w);
      }
    }
  }

  lemma {:induction false} StemKeeps(name: string, u: Unicode, w: string)
    requires WindowsReserves(w) && Clean(name, u) !in RESERVED
    ensures Stem(Clean(name, u)) == w <==> Keeps(Body(name, u), w)
  {
    ReservedIsWord(w);
    CleanStem(name, u, w);
    StemIs(w, w);
  }

  /** A bare word of the list gets a suffix, and none keeps its place. */
  lemma {:induction false} ListedKeepsNothing(name: string, u: Unicode)
    requires Clean(name, u) in RESERVED
    ensures !WindowsReserves(Stem(Slug(name, u).slug))
    ensures forall w | WindowsReserves(w) :: !Keeps(Body(name, u), w)
  {
    var c := Clean(name, u);
    ListedIsReserved(c);
    ReservedIsWord(c);
    SuffixFreesWord(c);
    forall w | WindowsReserves(w)
      ensures !Keeps(Body(name, u), w)
    {
      ReservedIsWord(w);
      CleanStem(name, u, w);
      StemIs(c, c);
    }
  }

  lemma {:induction false} SuffixFreesWord(w: string)
    requires Word(w)
    ensures !WindowsReserves(Stem(w + "-dev"))
  {
    var s := w + "-dev";
    assert '.' !in s;
    StemIs(s, s);
    assert |s| > 4;
  }

  /** A device called con.lab gets the directory con.lab, one called com5 the directory com5. */
  lemma {:induction false} ReservedStemExists(u: Unicode)
    requires Sane(u)
    ensures Slug("con.lab", u) == Slugged("con.lab") && WindowsReserves(Stem("con.lab"))
    ensures Slug("com5", u) == Slugged("com5") && WindowsReserves(Stem("com5"))
  {
    ReservedExtension(u);
    ReservedPort(u);
  }

  lemma {:induction false} ReservedExtension(u: Unicode)
    requires Sane(u)
    ensures Slug("con.lab", u) == Slugged("con.lab") && WindowsReserves(Stem("con.lab"))
  {
    assert Shaped("con.lab");
    ShapedIsItsSlug("con.lab", u);
    assert "con.lab"[..3] == "con";
    StemIs("con.lab", "con");
  }

  lemma {:induction false} ReservedPort(u: Unicode)
    requires Sane(u)
    ensures Slug("com5", u) == Slugged("com5") && WindowsReserves(Stem("com5"))
  {
    assert Shaped("com5");
    ShapedIsItsSlug("com5", u);
    assert "com5"[..3] == "com";
    StemIs("com5", "com5");
  }
}
