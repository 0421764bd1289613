/**
 What the hunks of internal/capture/diff.go are worth: they are apart, they hold
 every counted change once, their ranges are stretches of the two texts, and as
 a patch they turn the older text into the newer one exactly when every change
 of the script lies within the context of one that counts.
 */
module Patching {
  import opened EditGraph
  import opened LineDiff
  import opened Sequences
  import opened Trimming
  import opened Wrappers

  // ----- where the hunks are

  /** Hunks come in order, are not empty, do not overlap and do not touch. */
  lemma {:induction false} HunksApart(ops: seq<DiffLine>, context: nat, cuts: seq<Cut>, i: nat, j: nat)
    requires Grouping(ops, context, cuts) && i < j < |cuts|
    ensures cuts[i].start < cuts[i].stop < cuts[j].start < cuts[j].stop <= |ops|
    decreases j
  {
    assert CutAt(ops, context, cuts, i) && CutAt(ops, context, cuts, j);
    NeighboursApart(ops, context, cuts, j - 1);
    if i < j - 1 {
      HunksApart(ops, context, cuts, i, j - 1);
    }
  }

  /** Every counted change is in exactly one hunk. */
  lemma {:induction false} CountedOnce(ops: seq<DiffLine>, context: nat, cuts: seq<Cut>, x: nat)
    requires Grouping(ops, context, cuts) && x < |ops| && Counts(ops[x])
    ensures exists k :: Inside(cuts, k, x)
    ensures forall i, j | Inside(cuts, i, x) && Inside(cuts, j, x) :: i == j
  {
    var k := CountedSomewhere(ops, context, cuts, |cuts|, x);
    forall i, j | Inside(cuts, i, x) && Inside(cuts, j, x)
      ensures i == j
    {
      if i < j {
        HunksApart(ops, context, cuts, i, j);
      } else if j < i {
        HunksApart(ops, context, cuts, j, i);
      }
    }
  }

  lemma {:induction false} SidesOfParts(s: seq<DiffLine>, i: nat, j: nat)
    requires i <= j <= |s|
    ensures OlderSide(s[i..]) == OlderSide(s[i..j]) + OlderSide(s[j..])
    ensures NewerSide(s[i..]) == NewerSide(s[i..j]) + NewerSide(s[j..])
    ensures Edits(s[i..]) == Edits(s[i..j]) + Edits(s[j..])
  {
    assert s[i..] == s[i..j] + s[j..];
    SideAppend(s[i..j], s[j..], Ins);
    SideAppend(s[i..j], s[j..], Del);
    EditsAppend(s[i..j], s[j..]);
  }

  /** The lines a hunk shows are consecutive stretches of the two texts, and its numbers say which. */
  lemma {:induction false} HunkRanges(ops: seq<DiffLine>, a: seq<string>, b: seq<string>, start: nat, stop: nat)
    requires Rebuilds(ops, a, b) && start <= stop <= |ops|
    ensures var h := HunkAt(ops, start, stop);
            && h.aLen == |OlderSide(h.lines)| && h.bLen == |NewerSide(h.lines)|
            && (h.aLen == 0 ==> h.aStart == 0) && (h.bLen == 0 ==> h.bStart == 0)
            && (h.aLen > 0 ==> 1 <= h.aStart && h.aStart - 1 + h.aLen <= |a|
                               && OlderSide(h.lines) == a[h.aStart - 1..h.aStart - 1 + h.aLen])
            && (h.bLen > 0 ==> 1 <= h.bStart && h.bStart - 1 + h.bLen <= |b|
                               && NewerSide(h.lines) == b[h.bStart - 1..h.bStart - 1 + h.bLen])
  {
    assert ops[0..] == ops && ops[0..start] == ops[..start];
    SidesOfParts(ops, 0, start);
    SidesOfParts(ops, start, stop);
    Stretch(a, OlderSide(ops[..start]), OlderSide(ops[start..stop]), OlderSide(ops[stop..]));
    Stretch(b, NewerSide(ops[..start]), NewerSide(ops[start..stop]), NewerSide(ops[stop..]));
  }

  lemma {:induction false} Stretch(all: seq<string>, x: seq<string>, y: seq<string>, z: seq<string>)
    requires all == x + (y + z)
    ensures |x| + |y| <= |all| && all[|x|..|x| + |y|] == y
  {
  }

  // ----- the hunks as a patch

  /** How many older lines a patch copies before hunk h, having used up at of them and written done lines. */
  function Skip(h: Hunk, at: nat, done: nat): int {
    if h.aLen > 0 then h.aStart - 1 - at else h.bStart - 1 - done
  }

  /** Applies hunks to the older text; nothing when a hunk's older lines are not where it says. */
  function Patch(a: seq<string>, hunks: seq<Hunk>, at: nat, done: nat): Option<seq<string>>
    requires at <= |a|
    decreases |hunks|
  {
    if hunks == [] then Some(a[at..])
    else
      var h := hunks[0];
      var skip := Skip(h, at, done);
      var older := OlderSide(h.lines);
      if skip < 0 || at + skip + |older| > |a| || a[at + skip..at + skip + |older|] != older then None
      else
        match Patch(a, hunks[1..], at + skip + |older|, done + skip + |NewerSide(h.lines)|)
        case None => None
        case Some(rest) => Some(a[at..at + skip] + NewerSide(h.lines) + rest)
  }

  function HunkEdits(hunks: seq<Hunk>): nat
    decreases |hunks|
  {
    if hunks == [] then 0 else Edits(hunks[0].lines) + HunkEdits(hunks[1..])
  }

  /** A stretch of the script splits into a gap, a hunk, and what is left. */
  lemma {:induction false} GapThenHunk(ops: seq<DiffLine>, p: nat, start: nat, stop: nat)
    requires p <= start <= stop <= |ops|
    ensures Edits(ops[p..]) == Edits(ops[p..start]) + Edits(ops[start..stop]) + Edits(ops[stop..])
    ensures OlderSide(ops[p..]) == OlderSide(ops[p..start]) + OlderSide(ops[start..stop]) + OlderSide(ops[stop..])
    ensures NewerSide(ops[p..]) == NewerSide(ops[p..start]) + NewerSide(ops[start..stop]) + NewerSide(ops[stop..])
  {
    SidesOfParts(ops, p, start);
    SidesOfParts(ops, start, stop);
    Regroup(OlderSide(ops[p..start]), OlderSide(ops[start..stop]), OlderSide(ops[stop..]));
    Regroup(NewerSide(ops[p..start]), NewerSide(ops[start..stop]), NewerSide(ops[stop..]));
  }

  /** The edits from cut k on: those of the gap, of its hunk, and of the rest. */
  lemma {:induction false} EditsFrom(ops: seq<DiffLine>, context: nat, cuts: seq<Cut>, hunks: seq<Hunk>, k: nat)
    requires Grouping(ops, context, cuts) && HunksOf(hunks, ops, cuts) && k < |cuts| == |hunks|
    ensures Behind(cuts, k) <= cuts[k].start < cuts[k].stop <= |ops|
    ensures Edits(ops[Behind(cuts, k)..]) ==
            Edits(ops[Behind(cuts, k)..cuts[k].start]) + Edits(hunks[k].lines) + Edits(ops[Behind(cuts, k + 1)..])
    ensures HunkEdits(hunks[k..]) == Edits(hunks[k].lines) + HunkEdits(hunks[k + 1..])
  {
    CutBounds(ops, context, cuts, k);
    GapThenHunk(ops, Behind(cuts, k), cuts[k].start, cuts[k].stop);
    HunksOfAt(hunks, ops, cuts, k);
    assert hunks[k..][1..] == hunks[k + 1..];
  }

  lemma {:induction false} BehindLast(ops: seq<DiffLine>, context: nat, cuts: seq<Cut>)
    requires Grouping(ops, context, cuts)
    ensures Behind(cuts, |cuts|) <= |ops|
  {
    if |cuts| > 0 {
      assert CutAt(ops, context, cuts, |cuts| - 1);
    }
  }

  lemma {:induction false} HunkEditsBound(ops: seq<DiffLine>, context: nat, cuts: seq<Cut>, hunks: seq<Hunk>, k: nat)
    requires Grouping(ops, context, cuts) && HunksOf(hunks, ops, cuts) && k <= |cuts| == |hunks|
    ensures Behind(cuts, k) <= |ops| && HunkEdits(hunks[k..]) <= Edits(ops[Behind(cuts, k)..])
    decreases |cuts| - k
  {
    if k < |cuts| {
      EditsFrom(ops, context, cuts, hunks, k);
      HunkEditsBound(ops, context, cuts, hunks, k + 1);
    } else {
      BehindLast(ops, context, cuts);
    }
  }

  /** Where nothing is changed, skipping by older or by newer numbers is the same. */
  lemma {:induction false} SkipIsGap(ops: seq<DiffLine>, p: nat, start: nat, stop: nat)
    requires p <= start < stop <= |ops| && Edits(ops[p..start]) == 0
    ensures Skip(HunkAt(ops, start, stop), |OlderSide(ops[..p])|, |NewerSide(ops[..p])|) == |OlderSide(ops[p..start])|
    ensures OlderSide(ops[p..start]) == NewerSide(ops[p..start])
  {
    var lines := ops[start..stop];
    NoEditsSameSides(ops[p..start]);
    assert ops[..start] == ops[..p] + ops[p..start];
    SideAppend(ops[..p], ops[p..start], Ins);
    SideAppend(ops[..p], ops[p..start], Del);
    assert lines == [lines[0]] + lines[1..];
  }

  /** One hunk of a patch, found where the numbers say. */
  lemma {:induction false} PatchStep(a: seq<string>, hunks: seq<Hunk>, at: nat, done: nat, gap: seq<string>,
                                     older: seq<string>,
                                     newer: seq<string>, rest: seq<string>, at': nat, done': nat)
    requires hunks != [] && Skip(hunks[0], at, done) == |gap|
    requires OlderSide(hunks[0].lines) == older && NewerSide(hunks[0].lines) == newer
    requires at' == at + |gap| + |older| && done' == done + |gap| + |newer| && at' <= |a|
    requires a[at..at + |gap|] == gap && a[at + |gap|..at'] == older
    requires Patch(a, hunks[1..], at', done') == Some(rest)
    ensures Patch(a, hunks, at, done) == Some(gap + newer + rest)
  {
  }

  /** The hunks turn what is left of the one text, from line p of the script on, into what is left of the other. */
  ghost predicate Patches(ops: seq<DiffLine>, a: seq<string>, hunks: seq<Hunk>, p: nat)
    requires p <= |ops|
  {
    && |OlderSide(ops[..p])| <= |a|
    && Patch(a, hunks, |OlderSide(ops[..p])|, |NewerSide(ops[..p])|) == Some(NewerSide(ops[p..]))
  }

  lemma {:induction false} PatchEnd(ops: seq<DiffLine>, a: seq<string>, b: seq<string>, p: nat)
    requires Rebuilds(ops, a, b) && p <= |ops| && Edits(ops[p..]) == 0
    ensures Patches(ops, a, [], p)
  {
    RestOfTexts(ops, a, b, p);
    NoEditsSameSides(ops[p..]);
  }

  lemma {:induction false} PatchCut(ops: seq<DiffLine>, a: seq<string>, b: seq<string>, context: nat, cuts: seq<Cut>,
                                    hunks: seq<Hunk>, k: nat)
    requires Rebuilds(ops, a, b) && Grouping(ops, context, cuts) && HunksOf(hunks, ops, cuts) && k < |cuts| == |hunks|
    requires Behind(cuts, k) <= cuts[k].start < cuts[k].stop <= |ops|
    requires Edits(ops[Behind(cuts, k)..cuts[k].start]) == 0 && Patches(ops, a, hunks[k + 1..], cuts[k].stop)
    ensures Patches(ops, a, hunks[k..], Behind(cuts, k))
  {
    assert hunks[k..][1..] == hunks[k + 1..];
    HunksOfAt(hunks, ops, cuts, k);
    PatchHunk(ops, a, b, Behind(cuts, k), cuts[k].start, cuts[k].stop, hunks[k..]);
  }

  /** From cut k on, hunks that hold every change turn what is left of the one text into what is left of the other. */
  lemma {:induction false} PatchFrom(ops: seq<DiffLine>, a: seq<string>, b: seq<string>, context: nat,
                                     cuts: seq<Cut>, hunks: seq<Hunk>, k: nat)
    requires Rebuilds(ops, a, b) && Grouping(ops, context, cuts) && HunksOf(hunks, ops, cuts)
    requires k <= |cuts| == |hunks| && Behind(cuts, k) <= |ops|
    requires HunkEdits(hunks[k..]) == Edits(ops[Behind(cuts, k)..])
    ensures Patches(ops, a, hunks[k..], Behind(cuts, k))
    decreases |cuts| - k
  {
    if k == |cuts| {
      PatchEnd(ops, a, b, Behind(cuts, k));
    } else {
      EditsFrom(ops, context, cuts, hunks, k);
      HunkEditsBound(ops, context, cuts, hunks, k + 1);
      PatchFrom(ops, a, b, context, cuts, hunks, k + 1);
      PatchCut(ops, a, b, context, cuts, hunks, k);
    }
  }

  /** Behind an unchanged gap, a hunk's older lines are where its numbers say, and the rest follows. */
  lemma {:induction false} HunkInPlace(ops: seq<DiffLine>, a: seq<string>, b: seq<string>, p: nat, start: nat,
                                       stop: nat,
                                       gap: seq<string>, older: seq<string>, newer: seq<string>)
    requires Rebuilds(ops, a, b) && p <= start <= stop <= |ops|
    requires gap == OlderSide(ops[p..start]) == NewerSide(ops[p..start])
    requires older == OlderSide(ops[start..stop]) && newer == NewerSide(ops[start..stop])
    ensures var at, done := |OlderSide(ops[..p])|, |NewerSide(ops[..p])|;
            && at + |gap| + |older| <= |a|
            && a[at..at + |gap|] == gap && a[at + |gap|..at + |gap| + |older|] == older
            && |OlderSide(ops[..stop])| == at + |gap| + |older|
            && |NewerSide(ops[..stop])| == done + |gap| + |newer|
            && NewerSide(ops[p..]) == gap + newer + NewerSide(ops[stop..])
  {
    RestOfTexts(ops, a, b, p);
    GapThenHunk(ops, p, start, stop);
    SidesUpTo(ops, p, start, stop);
    TakeFrom(a, |OlderSide(ops[..p])|, gap, older, OlderSide(ops[stop..]));
  }

  /** The step of the patch at one hunk, when nothing is changed before it. */
  lemma {:induction false} PatchHunk(ops: seq<DiffLine>, a: seq<string>, b: seq<string>, p: nat, start: nat,
                                     stop: nat, hunks: seq<Hunk>)
    requires Rebuilds(ops, a, b) && p <= start < stop <= |ops| && Edits(ops[p..start]) == 0
    requires hunks != [] && hunks[0] == HunkAt(ops, start, stop)
    requires |OlderSide(ops[..stop])| <= |a|
    requires Patch(a, hunks[1..], |OlderSide(ops[..stop])|, |NewerSide(ops[..stop])|) == Some(NewerSide(ops[stop..]))
    ensures |OlderSide(ops[..p])| <= |a|
    ensures Patch(a, hunks, |OlderSide(ops[..p])|, |NewerSide(ops[..p])|) == Some(NewerSide(ops[p..]))
  {
    var gap, older, newer := OlderSide(ops[p..start]), OlderSide(ops[start..stop]), NewerSide(ops[start..stop]);
    SkipIsGap(ops, p, start, stop);
    HunkInPlace(ops, a, b, p, start, stop, gap, older, newer);
    PatchStep(a, hunks, |OlderSide(ops[..p])|, |NewerSide(ops[..p])|, gap, older, newer, NewerSide(ops[stop..]),
              |OlderSide(ops[..stop])|, |NewerSide(ops[..stop])|);
  }

  lemma {:induction false} RestOfTexts(ops: seq<DiffLine>, a: seq<string>, b: seq<string>, p: nat)
    requires Rebuilds(ops, a, b) && p <= |ops|
    ensures |OlderSide(ops[..p])| <= |a| && a[|OlderSide(ops[..p])|..] == OlderSide(ops[p..])
  {
    assert ops[0..] == ops && ops[0..p] == ops[..p];
    SidesOfParts(ops, 0, p);
  }

  lemma {:induction false} SidesUpTo(ops: seq<DiffLine>, p: nat, start: nat, stop: nat)
    requires p <= start <= stop <= |ops|
    ensures |OlderSide(ops[..stop])|
            == |OlderSide(ops[..p])| + |OlderSide(ops[p..start])| + |OlderSide(ops[start..stop])|
    ensures |NewerSide(ops[..stop])|
            == |NewerSide(ops[..p])| + |NewerSide(ops[p..start])| + |NewerSide(ops[start..stop])|
  {
    assert ops[..start] == ops[..p] + ops[p..start] && ops[..stop] == ops[..start] + ops[start..stop];
    SideAppend(ops[..p], ops[p..start], Ins);
    SideAppend(ops[..p], ops[p..start], Del);
    SideAppend(ops[..start], ops[start..stop], Ins);
    SideAppend(ops[..start], ops[start..stop], Del);
  }

  lemma {:induction false} TakeFrom(a: seq<string>, at: nat, x: seq<string>, y: seq<string>, z: seq<string>)
    requires at <= |a| && a[at..] == x + y + z
    ensures at + |x| + |y| <= |a|
    ensures a[at..at + |x|] == x && a[at + |x|..at + |x| + |y|] == y
  {
    assert forall i | 0 <= i < |x| + |y| :: a[at + i] == a[at..][i];
  }

  // ----- a patch that works is a script

  /** Keeps every line of a text. */
  function Copied(lines: seq<string>): (s: seq<DiffLine>)
    ensures OlderSide(s) == lines && NewerSide(s) == lines && Edits(s) == 0
  {
    if lines == [] then [] else [KeepLine(0, 0, lines[0])] + Copied(lines[1..])
  }

  /** What a patch with a first hunk writes: the lines before it, its newer lines, and what the other hunks write. */
  lemma {:induction false} PatchedOne(a: seq<string>, hunks: seq<Hunk>, at: nat, done: nat,
                                      r: seq<string>) returns (rest: seq<string>)
    requires at <= |a| && hunks != [] && Patch(a, hunks, at, done) == Some(r)
    ensures var h, skip := hunks[0], Skip(hunks[0], at, done);
            && skip >= 0 && at + skip + |OlderSide(h.lines)| <= |a|
            && a[at + skip..at + skip + |OlderSide(h.lines)|] == OlderSide(h.lines)
            && Patch(a, hunks[1..], at + skip + |OlderSide(h.lines)|, done + skip + |NewerSide(h.lines)|) == Some(rest)
            && r == a[at..at + skip] + NewerSide(h.lines) + rest
  {
    var h, skip := hunks[0], Skip(hunks[0], at, done);
    rest := Patch(a, hunks[1..], at + skip + |OlderSide(h.lines)|, done + skip + |NewerSide(h.lines)|).value;
  }

  /** Lines copied, then a hunk's lines, then a script of the rest. */
  lemma {:induction false} OneMore(a: seq<string>, at: nat, skipped: nat, at': nat, lines: seq<DiffLine>,
                                   more: seq<DiffLine>)
    returns (s: seq<DiffLine>)
    requires at <= skipped <= at' <= |a| && a[skipped..at'] == OlderSide(lines) && OlderSide(more) == a[at'..]
    ensures OlderSide(s) == a[at..] && NewerSide(s) == a[at..skipped] + NewerSide(lines) + NewerSide(more)
    ensures Edits(s) == Edits(lines) + Edits(more)
  {
    var copied := Copied(a[at..skipped]);
    s := copied + lines + more;
    ThreeParts(copied, lines, more);
    SplitText(a, at, skipped, at');
  }

  /** What a patch does is a script with the edits its hunks show. */
  lemma {:induction false} PatchIsScript(a: seq<string>, hunks: seq<Hunk>, at: nat, done: nat, r: seq<string>)
    returns (s: seq<DiffLine>)
    requires at <= |a| && Patch(a, hunks, at, done) == Some(r)
    ensures OlderSide(s) == a[at..] && NewerSide(s) == r && Edits(s) == HunkEdits(hunks)
    decreases |hunks|
  {
    if hunks == [] {
      s := Copied(a[at..]);
    } else {
      var h, skip := hunks[0], Skip(hunks[0], at, done);
      var at', done' := at + skip + |OlderSide(h.lines)|, done + skip + |NewerSide(h.lines)|;
      var rest := PatchedOne(a, hunks, at, done, r);
      var more := PatchIsScript(a, hunks[1..], at', done', rest);
      s := OneMore(a, at, at + skip, at', h.lines, more);
      assert NewerSide(s) == r;
    }
  }

  lemma {:induction false} SplitText(a: seq<string>, i: nat, j: nat, k: nat)
    requires i <= j <= k <= |a|
    ensures a[i..] == a[i..j] + a[j..k] + a[k..]
  {
  }

  lemma {:induction false} ThreeParts(s: seq<DiffLine>, t: seq<DiffLine>, u: seq<DiffLine>)
    ensures OlderSide(s + t + u) == OlderSide(s) + OlderSide(t) + OlderSide(u)
    ensures NewerSide(s + t + u) == NewerSide(s) + NewerSide(t) + NewerSide(u)
    ensures Edits(s + t + u) == Edits(s) + Edits(t) + Edits(u)
  {
    SideAppend(s, t, Ins);
    SideAppend(s, t, Del);
    EditsAppend(s, t);
    SideAppend(s + t, u, Ins);
    SideAppend(s + t, u, Del);
    EditsAppend(s + t, u);
  }

  function Renumbered(s: seq<DiffLine>, x: nat, y: nat): (t: seq<DiffLine>)
    ensures OlderSide(t) == OlderSide(s) && NewerSide(t) == NewerSide(s) && Edits(t) == Edits(s)
    ensures Numbered(t, x, y)
  {
    if s == [] then []
    else
      var l := s[0].(a := if s[0].op == Ins then 0 else x + 1, b := if s[0].op == Del then 0 else y + 1);
      [l] + Renumbered(s[1..], if l.op == Ins then x else x + 1, if l.op == Del then y else y + 1)
  }

  /** Whatever its numbers, a script pays at least the distance of its two sides. */
  lemma {:induction false} SidesPay(s: seq<DiffLine>)
    ensures Distance(OlderSide(s), NewerSide(s)) <= Edits(s)
  {
    var t := Renumbered(s, 0, 0);
    PathIffRebuilds(t, OlderSide(s), NewerSide(s));
    PathPays(t, OlderSide(s), NewerSide(s), 0, 0);
  }

  // ----- what the hunks show

  /** Whether every change from line p on lies near a counted one. */
  ghost predicate AllNear(ops: seq<DiffLine>, context: nat, p: nat) {
    forall x | p <= x < |ops| && ops[x].op != Keep :: Near(ops, context, x)
  }

  /** Between two hunks no line is near a counted change. */
  lemma {:induction false} GapIsFar(ops: seq<DiffLine>, context: nat, cuts: seq<Cut>, k: nat, x: nat)
    requires Grouping(ops, context, cuts) && k <= |cuts|
    requires Behind(cuts, k) <= x < |ops| && (k < |cuts| ==> x < cuts[k].start)
    ensures !Near(ops, context, x)
  {
    ShownExactlyNear(ops, context, cuts, x);
    if j :| Inside(cuts, j, x) {
      if j < k - 1 {
        HunksApart(ops, context, cuts, j, k - 1);
      } else if k < j {
        HunksApart(ops, context, cuts, k, j);
      }
    }
  }

  /** A stretch has no edits exactly if nothing in it is changed. */
  lemma {:induction false} NoEdits(ops: seq<DiffLine>, p: nat, q: nat)
    requires p <= q <= |ops|
    ensures Edits(ops[p..q]) == 0 <==> forall x | p <= x < q :: ops[x].op == Keep
    decreases q - p
  {
    if p < q {
      assert ops[p..q][1..] == ops[p + 1..q];
      NoEdits(ops, p + 1, q);
    }
  }

  lemma {:induction false} AllNearFrom(ops: seq<DiffLine>, context: nat, cuts: seq<Cut>, k: nat)
    requires Grouping(ops, context, cuts) && k < |cuts|
    requires Behind(cuts, k) <= cuts[k].start < cuts[k].stop <= |ops|
    ensures AllNear(ops, context, Behind(cuts, k))
            <==> Edits(ops[Behind(cuts, k)..cuts[k].start]) == 0 && AllNear(ops, context, Behind(cuts, k + 1))
  {
    NoEdits(ops, Behind(cuts, k), cuts[k].start);
    forall x | Behind(cuts, k) <= x < cuts[k].start
      ensures !Near(ops, context, x)
    {
      GapIsFar(ops, context, cuts, k, x);
    }
    forall x | cuts[k].start <= x < cuts[k].stop
      ensures Near(ops, context, x)
    {
      assert CutAt(ops, context, cuts, k);
      ShownIsNear(ops, context, cuts[k], x);
    }
  }

  /** Behind the last hunk nothing is near a counted change. */
  lemma {:induction false} NothingBehind(ops: seq<DiffLine>, context: nat, cuts: seq<Cut>)
    requires Grouping(ops, context, cuts) && Behind(cuts, |cuts|) <= |ops|
    ensures Edits(ops[Behind(cuts, |cuts|)..]) == 0 <==> AllNear(ops, context, Behind(cuts, |cuts|))
  {
    var p := Behind(cuts, |cuts|);
    assert ops[p..|ops|] == ops[p..];
    NoEdits(ops, p, |ops|);
    forall x | p <= x < |ops|
      ensures !Near(ops, context, x)
    {
      GapIsFar(ops, context, cuts, |cuts|, x);
    }
  }

  lemma {:induction false} HunkHolds(ops: seq<DiffLine>, context: nat, cuts: seq<Cut>, hunks: seq<Hunk>, k: nat)
    requires Grouping(ops, context, cuts) && HunksOf(hunks, ops, cuts) && k < |cuts| == |hunks|
    requires Behind(cuts, k) <= |ops| && Behind(cuts, k + 1) <= |ops|
    requires HunkEdits(hunks[k + 1..]) == Edits(ops[Behind(cuts, k + 1)..])
             <==> AllNear(ops, context, Behind(cuts, k + 1))
    ensures HunkEdits(hunks[k..]) == Edits(ops[Behind(cuts, k)..]) <==> AllNear(ops, context, Behind(cuts, k))
  {
    EditsFrom(ops, context, cuts, hunks, k);
    HunkEditsBound(ops, context, cuts, hunks, k + 1);
    AllNearFrom(ops, context, cuts, k);
  }

  /** The hunks from k on hold every edit there exactly if every change there is near a counted one. */
  lemma {:induction false} HunksHoldAll(ops: seq<DiffLine>, context: nat, cuts: seq<Cut>, hunks: seq<Hunk>, k: nat)
    requires Grouping(ops, context, cuts) && HunksOf(hunks, ops, cuts) && k <= |cuts| == |hunks|
    requires Behind(cuts, k) <= |ops|
    ensures HunkEdits(hunks[k..]) == Edits(ops[Behind(cuts, k)..]) <==> AllNear(ops, context, Behind(cuts, k))
    decreases |cuts| - k
  {
    if k < |cuts| {
      assert CutAt(ops, context, cuts, k);
      HunksHoldAll(ops, context, cuts, hunks, k + 1);
      HunkHolds(ops, context, cuts, hunks, k);
    } else {
      NothingBehind(ops, context, cuts);
    }
  }

  /**
   The hunks of a comparison, applied to the older text as a patch, give the
   newer text exactly when every change of the script, ignored ones included,
   has a change that counts within context lines of it.
   */
  lemma {:induction false} PatchWorks(d: Diff, a: seq<string>, b: seq<string>, context: nat, rules: seq<Rule>,
                   ops: seq<DiffLine>, cuts: seq<Cut>)
    requires Describes(d, a, b, context, rules, ops, cuts)
    ensures Patch(a, d.hunks, 0, 0) == Some(b)
            <==> forall x | 0 <= x < |ops| && ops[x].op != Keep :: Near(ops, context, x)
  {
    HunkCount(d.hunks, ops, cuts);
    assert d.hunks[0..] == d.hunks && ops[0..] == ops && a[0..] == a;
    HunkEditsBound(ops, context, cuts, d.hunks, 0);
    HunksHoldAll(ops, context, cuts, d.hunks, 0);
    if AllNear(ops, context, 0) {
      PatchFrom(ops, a, b, context, cuts, d.hunks, 0);
      assert ops[..0] == [];
    }
    if Patch(a, d.hunks, 0, 0) == Some(b) {
      PatchShowsAll(d, a, b, context, rules, ops, cuts);
    }
  }

  /** A patch that works shows as many edits as there are. */
  lemma {:induction false} PatchShowsAll(d: Diff, a: seq<string>, b: seq<string>, context: nat, rules: seq<Rule>,
                                         ops: seq<DiffLine>, cuts: seq<Cut>)
    requires Describes(d, a, b, context, rules, ops, cuts) && Patch(a, d.hunks, 0, 0) == Some(b)
    ensures HunkEdits(d.hunks) >= Edits(ops)
  {
    CountsAddUp(ops);
    var s := PatchIsScript(a, d.hunks, 0, 0, b);
    assert a[0..] == a;
    SidesPay(s);
  }

  lemma {:induction false} HunkCount(hunks: seq<Hunk>, ops: seq<DiffLine>, cuts: seq<Cut>)
    requires HunksOf(hunks, ops, cuts)
    ensures |hunks| == |cuts|
  {
  }

  /** With no ignore rules the hunks always work as a patch. */
  lemma {:induction false} PatchWorksWithoutRules(d: Diff, a: seq<string>, b: seq<string>, context: nat,
                                                  ops: seq<DiffLine>, cuts: seq<Cut>)
    requires Describes(d, a, b, context, [], ops, cuts)
    ensures Patch(a, d.hunks, 0, 0) == Some(b)
  {
    PatchWorks(d, a, b, context, [], ops, cuts);
    forall x | 0 <= x < |ops| && ops[x].op != Keep
      ensures Near(ops, context, x)
    {
      assert ops[x] in ops;
      assert Counts(ops[x]);
    }
  }

  // ----- an ignored change that is lost

  // Two lines of i, k, c are dropped; a rule ignores the first, and no context is asked for.
  const OLDER := ["i", "k", "c"]
  const NEWER := ["k"]
  const SCRIPT := [DiffLine(Del, 1, 0, "i", true), DiffLine(Keep, 2, 1, "k", false), DiffLine(Del, 3, 0, "c", false)]
  const RULES: seq<Rule> := [text => text == "i"]
  const HUNKS := [Hunk(3, 1, 0, 0, [SCRIPT[2]])]

  lemma {:induction false} LostScript()
    ensures Rebuilds(SCRIPT, OLDER, NEWER) && Edits(SCRIPT) == 2
    ensures Distance(OLDER, NEWER) == 2
    ensures Shortest(SCRIPT, OLDER, NEWER)
  {
    assert SCRIPT[1..] == [SCRIPT[1], SCRIPT[2]] && SCRIPT[1..][1..] == [SCRIPT[2]] && [SCRIPT[2]][1..] == [];
    assert Dist(OLDER, NEWER, 2, 1) == 1;
    DistanceIsShortest(SCRIPT, OLDER, NEWER);
  }

  lemma {:induction false} LostCounts()
    ensures Added(SCRIPT) == 0 && Removed(SCRIPT) == 1 && Ignored(SCRIPT) == 1
    ensures forall l | l in SCRIPT :: l.ignored <==> l.op != Keep && Ignores(RULES, l.text)
  {
    assert SCRIPT[..0] == [] && SCRIPT[..3] == SCRIPT;
    CountOne(SCRIPT, 0);
    CountOne(SCRIPT, 1);
    CountOne(SCRIPT, 2);
    assert RULES[0]("i") && !RULES[0]("k") && !RULES[0]("c");
  }

  lemma {:induction false} LostHunks()
    ensures Grouping(SCRIPT, 0, [Cut(2, 2, 2, 3)]) && HunksOf(HUNKS, SCRIPT, [Cut(2, 2, 2, 3)])
  {
    var cuts := [Cut(2, 2, 2, 3)];
    assert IsCut(SCRIPT, 0, cuts[0]);
    assert CutAt(SCRIPT, 0, cuts, 0);
    assert SCRIPT[2..3] == [SCRIPT[2]] && [SCRIPT[2]][1..] == [];
    assert SCRIPT[..2] == [SCRIPT[0], SCRIPT[1]] && SCRIPT[..2][1..] == [SCRIPT[1]] && [SCRIPT[1]][1..] == [];
    assert HunkAt(SCRIPT, 2, 3) == HUNKS[0];
    assert HunksOf([], SCRIPT, []);
  }

  lemma {:induction false} LostPatch()
    ensures Patch(OLDER, HUNKS, 0, 0) == Some(["i", "k"])
  {
    var l := [SCRIPT[2]];
    assert l[0] == SCRIPT[2] && l[1..] == [];
    assert Side(l, Ins) == ["c"] + Side([], Ins) && Side(l, Del) == Side([], Del);
    assert OLDER[0..2] == ["i", "k"] && OLDER[2..3] == ["c"] && OLDER[3..] == [] && HUNKS[1..] == [];
    PatchStep(OLDER, HUNKS, 0, 0, ["i", "k"], ["c"], [], [], 3, 2);
    assert ["i", "k"] + [] + [] == ["i", "k"];
  }

  /** An ignored change away from every counted one is lost: the patch applies, and gives another text. */
  lemma {:induction false} PatchLosesIgnored()
    ensures Describes(Diff(false, 0, 1, 1, HUNKS), OLDER, NEWER, 0, RULES, SCRIPT, [Cut(2, 2, 2, 3)])
    ensures Patch(OLDER, HUNKS, 0, 0) == Some(["i", "k"]) != Some(NEWER)
    ensures !Near(SCRIPT, 0, 0)
  {
    LostScript();
    LostCounts();
    LostHunks();
    LostPatch();
    assert |OLDER| != |NEWER| && |["i", "k"]| != |NEWER|;
  }
}
