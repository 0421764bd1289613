/**
 DiffTextIgnoring of internal/capture/diff.go: marks, counts and hunks.
 */
module LineDiff {
  import opened EditGraph
  import opened Myers
  import opened Trimming
  import opened TextLines

  datatype Hunk = Hunk(aStart: nat, aLen: nat, bStart: nat, bLen: nat, lines: seq<DiffLine>)

  datatype Diff = Diff(identical: bool, added: nat, removed: nat, ignored: nat, hunks: seq<Hunk>)

  datatype DiffResult = Compared(diff: Diff) | VersionsTooDifferent

  // An ignore rule: any predicate on a line's text.
  type Rule = string -> bool

  // ----- marks and counts

  ghost predicate Ignores(rules: seq<Rule>, text: string) {
    exists i | 0 <= i < |rules| :: rules[i](text)
  }

  /** t is s with exactly the changed lines marked that a rule matches. */
  ghost predicate MarkedBy(s: seq<DiffLine>, t: seq<DiffLine>, rules: seq<Rule>) {
    |t| == |s| && forall i | 0 <= i < |s| :: t[i] == s[i].(ignored := s[i].op != Keep && Ignores(rules, s[i].text))
  }

  predicate Counts(l: DiffLine) {
    l.op != Keep && !l.ignored
  }

  function Added(s: seq<DiffLine>): nat {
    if s == [] then 0 else Added(s[..|s| - 1]) + (if s[|s| - 1].op == Ins && !s[|s| - 1].ignored then 1 else 0)
  }

  function Removed(s: seq<DiffLine>): nat {
    if s == [] then 0 else Removed(s[..|s| - 1]) + (if s[|s| - 1].op == Del && !s[|s| - 1].ignored then 1 else 0)
  }

  function Ignored(s: seq<DiffLine>): nat {
    if s == [] then 0 else Ignored(s[..|s| - 1]) + (if s[|s| - 1].op != Keep && s[|s| - 1].ignored then 1 else 0)
  }

  /** The three counts add up to the edits of the script. */
  lemma {:induction false} CountsAddUp(s: seq<DiffLine>)
    ensures Added(s) + Removed(s) + Ignored(s) == Edits(s)
  {
    if s != [] {
      var n := |s| - 1;
      CountsAddUp(s[..n]);
      TakeOne(s, n);
      assert s[..n + 1] == s;
    }
  }

  /** Nothing is added or removed exactly when no line counts. */
  lemma {:induction false} NothingCounted(s: seq<DiffLine>)
    ensures Added(s) == 0 && Removed(s) == 0 <==> NoneCounted(s, 0, |s|)
  {
    if s != [] {
      var n := |s| - 1;
      NothingCounted(s[..n]);
      assert NoneCounted(s, 0, |s|) <==> NoneCounted(s[..n], 0, n) && !Counts(s[n]);
    }
  }

  lemma {:induction false} MarksChangeNothing(s: seq<DiffLine>, t: seq<DiffLine>, x: nat, y: nat)
    requires |s| == |t| && forall i | 0 <= i < |s| :: SameLine(t[i], s[i])
    ensures OlderSide(t) == OlderSide(s) && NewerSide(t) == NewerSide(s) && Edits(t) == Edits(s)
    ensures Numbered(s, x, y) ==> Numbered(t, x, y)
  {
    if s != [] {
      assert SameLine(t[0], s[0]);
      MarksChangeNothing(s[1..], t[1..], if s[0].op == Ins then x else x + 1, if s[0].op == Del then y else y + 1);
    }
  }

  /** A script without an edit is between equal texts. */
  lemma {:induction false} NoEditsSameSides(s: seq<DiffLine>)
    requires Edits(s) == 0
    ensures OlderSide(s) == NewerSide(s)
  {
    if s != [] {
      NoEditsSameSides(s[1..]);
    }
  }

  lemma {:induction false} DistSelf(a: seq<string>, x: nat)
    requires x <= |a|
    ensures Dist(a, a, x, x) == 0
  {
    if x > 0 {
      DistSelf(a, x - 1);
    }
  }

  /** What one more line adds to the three counts. */
  lemma {:induction false} CountOne(s: seq<DiffLine>, i: nat)
    requires i < |s|
    ensures Added(s[..i + 1]) == Added(s[..i]) + (if s[i].op == Ins && !s[i].ignored then 1 else 0)
    ensures Removed(s[..i + 1]) == Removed(s[..i]) + (if s[i].op == Del && !s[i].ignored then 1 else 0)
    ensures Ignored(s[..i + 1]) == Ignored(s[..i]) + (if s[i].op != Keep && s[i].ignored then 1 else 0)
  {
    assert s[..i + 1][..i] == s[..i];
  }

  /** Which of the first n lines of a script have an operation and are marked or not. */
  function LinesThat(s: seq<DiffLine>, n: nat, op: Op, marked: bool): set<int>
    requires n <= |s|
  {
    set i | 0 <= i < n && s[i].op == op && s[i].ignored == marked
  }

  lemma {:induction false} LineCounted(s: seq<DiffLine>, n: nat, op: Op, marked: bool)
    requires n < |s| && s[n].op == op && s[n].ignored == marked
    ensures LinesThat(s, n + 1, op, marked) == LinesThat(s, n, op, marked) + {n} && n !in LinesThat(s, n, op, marked)
  {
  }

  lemma {:induction false} LineNotCounted(s: seq<DiffLine>, n: nat, op: Op, marked: bool)
    requires n < |s| && !(s[n].op == op && s[n].ignored == marked)
    ensures LinesThat(s, n + 1, op, marked) == LinesThat(s, n, op, marked)
  {
  }

  lemma {:induction false} LinesThatGrow(s: seq<DiffLine>, n: nat, op: Op, marked: bool)
    requires n < |s|
    ensures |LinesThat(s, n + 1, op, marked)|
            == |LinesThat(s, n, op, marked)| + if s[n].op == op && s[n].ignored == marked then 1 else 0
  {
    if s[n].op == op && s[n].ignored == marked {
      LineCounted(s, n, op, marked);
    } else {
      LineNotCounted(s, n, op, marked);
    }
  }

  /** The counts: the lines inserted and not marked, those deleted and not marked, and those marked of either kind. */
  lemma {:induction false} CountsAreLines(s: seq<DiffLine>, n: nat)
    requires n <= |s|
    ensures Added(s[..n]) == |LinesThat(s, n, Ins, false)| && Removed(s[..n]) == |LinesThat(s, n, Del, false)|
    ensures Ignored(s[..n]) == |LinesThat(s, n, Ins, true)| + |LinesThat(s, n, Del, true)|
  {
    if n > 0 {
      CountsAreLines(s, n - 1);
      CountOne(s, n - 1);
      LinesThatGrow(s, n - 1, Ins, false);
      LinesThatGrow(s, n - 1, Del, false);
      LinesThatGrow(s, n - 1, Ins, true);
      LinesThatGrow(s, n - 1, Del, true);
    }
  }

  /** The script with the marks the rules give it. */
  ghost function Marked(s: seq<DiffLine>, rules: seq<Rule>): (t: seq<DiffLine>)
    ensures MarkedBy(s, t, rules)
  {
    seq(|s|, i requires 0 <= i < |s| => s[i].(ignored := s[i].op != Keep && Ignores(rules, s[i].text)))
  }

  /** The marks and the three counts, in one pass over the script. */
  method MarkAndCount(ops: array<DiffLine>, rules: seq<Rule>) returns (added: nat, removed: nat, ignored: nat)
    requires forall i | 0 <= i < ops.Length :: !ops[i].ignored
    modifies ops
    ensures ops[..] == old(Marked(ops[..], rules))
    ensures added == Added(ops[..]) && removed == Removed(ops[..]) && ignored == Ignored(ops[..])
  {
    ghost var marked := Marked(ops[..], rules);
    added, removed, ignored := 0, 0, 0;
    for i := 0 to ops.Length
      invariant forall j | 0 <= j < i :: ops[j] == marked[j]
      invariant forall j | i <= j < ops.Length :: ops[j] == old(ops[j])
      invariant added == Added(marked[..i]) && removed == Removed(marked[..i]) && ignored == Ignored(marked[..i])
    {
      ops[i] := MarkLine(ops[i], rules);
      CountOne(marked, i);
      if ops[i].op != Keep {
        if ops[i].ignored {
          ignored := ignored + 1;
        } else if ops[i].op == Ins {
          added := added + 1;
        } else {
          removed := removed + 1;
        }
      }
    }
    assert ops[..] == marked && marked[..ops.Length] == marked;
  }

  method MarkLine(l: DiffLine, rules: seq<Rule>) returns (o: DiffLine)
    requires !l.ignored
    ensures o == l.(ignored := l.op != Keep && Ignores(rules, l.text))
  {
    o := l;
    if l.op != Keep {
      var matched := AnyMatches(rules, l.text);
      if matched {
        o := l.(ignored := true);
      }
    }
  }

  method AnyMatches(rules: seq<Rule>, text: string) returns (found: bool)
    ensures found <==> Ignores(rules, text)
  {
    for i := 0 to |rules|
      invariant forall j | 0 <= j < i :: !rules[j](text)
    {
      if rules[i](text) {
        return true;
      }
    }
    return false;
  }

  // ----- hunks

  // Where a hunk is cut out of the script: its first and last counted change, and the lines it shows.
  datatype Cut = Cut(first: nat, last: nat, start: nat, stop: nat)

  ghost predicate NoneCounted(ops: seq<DiffLine>, lo: int, hi: int) {
    forall j | lo <= j < hi && 0 <= j < |ops| :: !Counts(ops[j])
  }

  /** Whether a counted change follows within 2*context + 1 lines of k, no later than last. */
  ghost predicate NearNext(ops: seq<DiffLine>, context: nat, k: int, last: int) {
    exists j | k < j <= last && j <= k + 2 * context + 1 && 0 <= j < |ops| :: Counts(ops[j])
  }

  ghost predicate Linked(ops: seq<DiffLine>, context: nat, first: int, last: int) {
    forall k | first <= k < last :: NearNext(ops, context, k, last)
  }

  function CutAround(ops: seq<DiffLine>, context: nat, first: nat, last: nat): Cut {
    Cut(first, last, if first < context then 0 else first - context, Min(last + context + 1, |ops|))
  }

  /** Context lines around a run of changes of which no two neighbours are more than 2*context lines apart. */
  ghost predicate IsCut(ops: seq<DiffLine>, context: nat, c: Cut) {
    && c.first <= c.last < |ops| && Counts(ops[c.first]) && Counts(ops[c.last])
    && c == CutAround(ops, context, c.first, c.last)
    && NoneCounted(ops, c.last + 1, c.last + 2 * context + 2)
    && Linked(ops, context, c.first, c.last)
  }

  /** Where the search for cut k begins: behind the cut before it. */
  function Behind(cuts: seq<Cut>, k: nat): nat
    requires k <= |cuts|
  {
    if k == 0 then 0 else cuts[k - 1].stop
  }

  /** Cut k is the first that fits behind the one before it. */
  ghost predicate CutAt(ops: seq<DiffLine>, context: nat, cuts: seq<Cut>, k: nat)
    requires k < |cuts|
  {
    && IsCut(ops, context, cuts[k]) && Behind(cuts, k) <= cuts[k].first
    && NoneCounted(ops, Behind(cuts, k), cuts[k].first)
  }

  ghost predicate CutsInOrder(ops: seq<DiffLine>, context: nat, cuts: seq<Cut>) {
    forall k | 0 <= k < |cuts| :: CutAt(ops, context, cuts, k)
  }

  /** The cuts in order, with no counted change outside them. */
  ghost predicate Grouping(ops: seq<DiffLine>, context: nat, cuts: seq<Cut>) {
    CutsInOrder(ops, context, cuts) && NoneCounted(ops, Behind(cuts, |cuts|), |ops|)
  }

  lemma {:induction false} CutAppended(ops: seq<DiffLine>, context: nat, cuts: seq<Cut>, c: Cut)
    requires CutsInOrder(ops, context, cuts)
    requires IsCut(ops, context, c)
    requires Behind(cuts, |cuts|) <= c.first && NoneCounted(ops, Behind(cuts, |cuts|), c.first)
    ensures CutsInOrder(ops, context, cuts + [c])
  {
    var cuts' := cuts + [c];
    forall k | 0 <= k < |cuts'|
      ensures CutAt(ops, context, cuts', k)
    {
      assert Behind(cuts', k) == Behind(cuts, k);
      if k < |cuts| {
        assert CutAt(ops, context, cuts, k);
      }
    }
  }

  /** The hunk of ops[start..stop], with the line ranges it has by its place in the script. */
  function HunkAt(ops: seq<DiffLine>, start: nat, stop: nat): Hunk
    requires start <= stop <= |ops|
  {
    var lines := ops[start..stop];
    var a, b := OlderSide(lines), NewerSide(lines);
    Hunk(if a == [] then 0 else |OlderSide(ops[..start])| + 1, |a|,
         if b == [] then 0 else |NewerSide(ops[..start])| + 1, |b|, lines)
  }

  /** The last counted change of the run that starts at i. */
  method RunEnd(ops: seq<DiffLine>, context: nat, i: nat) returns (end: nat)
    requires i < |ops| && Counts(ops[i])
    ensures i <= end < |ops|
    ensures IsCut(ops, context, CutAround(ops, context, i, end))
  {
    end := i;
    var j := i;
    while j < |ops|
      invariant i <= end < |ops| && end <= j <= |ops| && Counts(ops[end])
      invariant NoneCounted(ops, end + 1, j) && j <= end + 2 * context + 1
      invariant Linked(ops, context, i, end)
    {
      if Counts(ops[j]) {
        LinkedFurther(ops, context, i, end, j);
        end := j;
      } else if j - end > 2 * context {
        break;
      }
      j := j + 1;
    }
  }

  lemma {:induction false} LinkedFurther(ops: seq<DiffLine>, context: nat, first: int, last: int, j: int)
    requires Linked(ops, context, first, last) && 0 <= first <= last <= j < |ops|
    requires Counts(ops[j]) && j <= last + 2 * context + 1
    ensures Linked(ops, context, first, j)
  {
    forall k | first <= k < j
      ensures NearNext(ops, context, k, j)
    {
      if k < last {
        assert NearNext(ops, context, k, last);
      }
    }
  }

  /** The numbers of a line of a stretch of the script, by what comes before the stretch and before the line in it. */
  lemma {:induction false} NumberWithin(ops: seq<DiffLine>, start: nat, stop: nat, i: nat)
    requires start <= stop <= |ops| && i < stop - start && Numbered(ops, 0, 0)
    ensures var l, before := ops[start..stop][i], ops[start..stop][..i];
            && l.a == (if l.op == Ins then 0 else |OlderSide(ops[..start])| + |OlderSide(before)| + 1)
            && l.b == (if l.op == Del then 0 else |NewerSide(ops[..start])| + |NewerSide(before)| + 1)
  {
    var before := ops[start..stop][..i];
    NumberAt(ops, 0, 0, start + i);
    UpTo(ops, start, stop, i);
    SideAppend(ops[..start], before, Ins);
    SideAppend(ops[..start], before, Del);
  }

  lemma {:induction false} UpTo(ops: seq<DiffLine>, start: nat, stop: nat, i: nat)
    requires start <= stop <= |ops| && i <= stop - start
    ensures ops[..start + i] == ops[..start] + ops[start..stop][..i]
  {
  }

  /** Builds one hunk: copies its lines and reads its ranges off their numbers. */
  method BuildHunk(ops: seq<DiffLine>, start: nat, stop: nat) returns (h: Hunk)
    requires start <= stop <= |ops| && Numbered(ops, 0, 0)
    ensures h == HunkAt(ops, start, stop)
  {
    var lines := ops[start..stop];
    var aStart, aLen, bStart, bLen := 0, 0, 0, 0;
    ghost var x, y := |OlderSide(ops[..start])|, |NewerSide(ops[..start])|;
    for i := 0 to |lines|
      invariant aLen == |OlderSide(lines[..i])| && bLen == |NewerSide(lines[..i])|
      invariant aStart == (if aLen == 0 then 0 else x + 1) && bStart == (if bLen == 0 then 0 else y + 1)
    {
      var l := lines[i];
      TakeOne(lines, i);
      NumberWithin(ops, start, stop, i);
      if l.a > 0 {
        if aStart == 0 {
          aStart := l.a;
        }
        aLen := aLen + 1;
      }
      if l.b > 0 {
        if bStart == 0 {
          bStart := l.b;
        }
        bLen := bLen + 1;
      }
    }
    assert lines[..|lines|] == lines;
    h := Hunk(aStart, aLen, bStart, bLen, lines);
  }

  /** Whether the hunks are those of the cuts. */
  ghost predicate HunksOf(hunks: seq<Hunk>, ops: seq<DiffLine>, cuts: seq<Cut>) {
    if cuts == [] then hunks == []
    else
      var c := cuts[|cuts| - 1];
      && |hunks| == |cuts| && c.start <= c.stop <= |ops|
      && hunks[|hunks| - 1] == HunkAt(ops, c.start, c.stop)
      && HunksOf(hunks[..|hunks| - 1], ops, cuts[..|cuts| - 1])
  }

  lemma {:induction false} HunksOfAt(hunks: seq<Hunk>, ops: seq<DiffLine>, cuts: seq<Cut>, k: nat)
    requires HunksOf(hunks, ops, cuts) && k < |cuts|
    ensures |hunks| == |cuts| && cuts[k].start <= cuts[k].stop <= |ops|
    ensures hunks[k] == HunkAt(ops, cuts[k].start, cuts[k].stop)
  {
    if k < |cuts| - 1 {
      HunksOfAt(hunks[..|hunks| - 1], ops, cuts[..|cuts| - 1], k);
    }
  }

  lemma {:induction false} HunkAppended(hunks: seq<Hunk>, ops: seq<DiffLine>, cuts: seq<Cut>, h: Hunk, c: Cut)
    requires HunksOf(hunks, ops, cuts)
    requires c.start <= c.stop <= |ops| && h == HunkAt(ops, c.start, c.stop)
    ensures HunksOf(hunks + [h], ops, cuts + [c])
  {
    assert (cuts + [c])[..|cuts|] == cuts && (hunks + [h])[..|hunks|] == hunks;
  }

  /** Appends the hunk whose first counted change is line i. */
  method AppendHunk(ops: seq<DiffLine>, context: nat, i: nat, hunks: seq<Hunk>, ghost cuts: seq<Cut>)
    returns (hunks': seq<Hunk>, stop: nat, ghost cuts': seq<Cut>)
    requires Behind(cuts, |cuts|) <= i < |ops| && Counts(ops[i]) && NoneCounted(ops, Behind(cuts, |cuts|), i)
    requires Numbered(ops, 0, 0) && CutsInOrder(ops, context, cuts) && HunksOf(hunks, ops, cuts)
    ensures CutsInOrder(ops, context, cuts') && HunksOf(hunks', ops, cuts')
    ensures i < stop <= |ops| && Behind(cuts', |cuts'|) == stop
  {
    var start := if i < context then 0 else i - context;
    var end := RunEnd(ops, context, i);
    stop := end + context + 1;
    if stop > |ops| {
      stop := |ops|;
    }
    var h := BuildHunk(ops, start, stop);
    ghost var c := Cut(i, end, start, stop);
    CutAppended(ops, context, cuts, c);
    HunkAppended(hunks, ops, cuts, h, c);
    hunks' := hunks + [h];
    cuts' := cuts + [c];
  }

  /** Groups the counted changes into hunks. */
  method GroupHunks(ops: seq<DiffLine>, context: nat) returns (hunks: seq<Hunk>, ghost cuts: seq<Cut>)
    requires Numbered(ops, 0, 0)
    ensures Grouping(ops, context, cuts) && HunksOf(hunks, ops, cuts)
  {
    hunks, cuts := [], [];
    var i := 0;
    while i < |ops|
      invariant Behind(cuts, |cuts|) <= i <= |ops| && NoneCounted(ops, Behind(cuts, |cuts|), i)
      invariant CutsInOrder(ops, context, cuts) && HunksOf(hunks, ops, cuts)
    {
      if !Counts(ops[i]) {
        i := i + 1;
      } else {
        hunks, i, cuts := AppendHunk(ops, context, i, hunks, cuts);
      }
    }
  }

  // ----- what the hunks show

  /** Neighbouring hunks leave at least one line of the script between them. */
  lemma {:induction false} NeighboursApart(ops: seq<DiffLine>, context: nat, cuts: seq<Cut>, k: nat)
    requires Grouping(ops, context, cuts) && k + 1 < |cuts|
    ensures cuts[k].stop < cuts[k + 1].start
  {
    assert CutAt(ops, context, cuts, k) && CutAt(ops, context, cuts, k + 1);
    var c, next := cuts[k], cuts[k + 1];
    assert next.first >= c.last + 2 * context + 2;
  }

  ghost predicate Inside(cuts: seq<Cut>, k: int, x: int) {
    0 <= k < |cuts| && cuts[k].start <= x < cuts[k].stop
  }

  lemma {:induction false} CountedSomewhere(ops: seq<DiffLine>, context: nat, cuts: seq<Cut>, n: nat, x: nat)
    returns (k: nat)
    requires CutsInOrder(ops, context, cuts) && n <= |cuts|
    requires x < |ops| && Counts(ops[x]) && x < Behind(cuts, n)
    ensures Inside(cuts, k, x)
  {
    k := n - 1;
    assert CutAt(ops, context, cuts, k);
    if x < cuts[k].start {
      assert x < Behind(cuts, k);
      k := CountedSomewhere(ops, context, cuts, k, x);
    }
  }

  lemma {:induction false} CutBounds(ops: seq<DiffLine>, context: nat, cuts: seq<Cut>, k: nat)
    requires Grouping(ops, context, cuts) && k < |cuts|
    ensures Behind(cuts, k) <= cuts[k].start < cuts[k].stop <= |ops|
    ensures NoneCounted(ops, Behind(cuts, k), cuts[k].start)
  {
    assert CutAt(ops, context, cuts, k);
    if k > 0 {
      NeighboursApart(ops, context, cuts, k - 1);
    }
  }

  /** Whether a counted change lies within context lines of line x. */
  ghost predicate Near(ops: seq<DiffLine>, context: nat, x: int) {
    exists y | x - context <= y <= x + context && 0 <= y < |ops| :: Counts(ops[y])
  }

  /** The last counted change up to x. */
  lemma {:induction false} LastCounted(ops: seq<DiffLine>, first: nat, x: nat) returns (p: nat)
    requires first <= x < |ops| && Counts(ops[first])
    ensures first <= p <= x && Counts(ops[p]) && NoneCounted(ops, p + 1, x + 1)
  {
    if Counts(ops[x]) {
      p := x;
    } else {
      p := LastCounted(ops, first, x - 1);
    }
  }

  /** What a hunk shows lies near a counted change. */
  lemma {:induction false} ShownIsNear(ops: seq<DiffLine>, context: nat, c: Cut, x: nat)
    requires IsCut(ops, context, c) && c.start <= x < c.stop
    ensures Near(ops, context, x)
  {
    if x < c.first {
      assert Counts(ops[c.first]);
    } else if x >= c.last {
      assert Counts(ops[c.last]);
    } else {
      var p := LastCounted(ops, c.first, x);
      assert NearNext(ops, context, p, c.last);
      var q :| p < q <= c.last && q <= p + 2 * context + 1 && Counts(ops[q]);
      assert x < q;
      assert x - p <= context || q - x <= context;
    }
  }

  /** A counted change lies between the first and the last one of its hunk. */
  lemma {:induction false} CountedWithin(ops: seq<DiffLine>, context: nat, cuts: seq<Cut>, k: nat, y: nat)
    requires Grouping(ops, context, cuts) && k < |cuts| && y < |ops| && Counts(ops[y])
    requires Inside(cuts, k, y)
    ensures cuts[k].first <= y <= cuts[k].last
  {
    CutBounds(ops, context, cuts, k);
    assert CutAt(ops, context, cuts, k);
  }

  /** The hunks show exactly the lines with a counted change within context lines of them. */
  lemma {:induction false} ShownExactlyNear(ops: seq<DiffLine>, context: nat, cuts: seq<Cut>, x: nat)
    requires Grouping(ops, context, cuts) && x < |ops|
    ensures (exists k :: Inside(cuts, k, x)) <==> Near(ops, context, x)
  {
    if k :| Inside(cuts, k, x) {
      assert CutAt(ops, context, cuts, k);
      ShownIsNear(ops, context, cuts[k], x);
    }
    if Near(ops, context, x) {
      var y :| x - context <= y <= x + context && 0 <= y < |ops| && Counts(ops[y]);
      var k := CountedSomewhere(ops, context, cuts, |cuts|, y);
      CountedWithin(ops, context, cuts, k, y);
      assert CutAt(ops, context, cuts, k);
      assert Inside(cuts, k, x);
    }
  }

  /** The hunks show exactly the lines of the script with a counted change within so many lines of them. */
  ghost predicate ShowsNear(ops: seq<DiffLine>, cuts: seq<Cut>, around: nat) {
    forall x | 0 <= x < |ops| :: (exists k :: Inside(cuts, k, x)) <==> Near(ops, around, x)
  }

  lemma {:induction false} GroupingShowsNear(ops: seq<DiffLine>, context: nat, cuts: seq<Cut>)
    requires Grouping(ops, context, cuts)
    ensures ShowsNear(ops, cuts, context)
  {
    forall x | 0 <= x < |ops|
      ensures (exists k :: Inside(cuts, k, x)) <==> Near(ops, context, x)
    {
      ShownExactlyNear(ops, context, cuts, x);
    }
  }

  // ----- the whole comparison

  /** What a comparison says about two texts given as lines. */
  ghost predicate Describes(d: Diff, a: seq<string>, b: seq<string>, context: nat, rules: seq<Rule>,
                            ops: seq<DiffLine>, cuts: seq<Cut>) {
    && Shortest(ops, a, b)
    && (forall l | l in ops :: l.ignored <==> l.op != Keep && Ignores(rules, l.text))
    && d.added == Added(ops) && d.removed == Removed(ops) && d.ignored == Ignored(ops)
    && d.added + d.removed + d.ignored == Distance(a, b)
    && (d.identical <==> a == b)
    && Grouping(ops, context, cuts)
    && HunksOf(d.hunks, ops, cuts)
  }

  /** Compares two texts line by line; a context below zero asks for three lines. */
  method DiffTextIgnoring(older: string, newer: string, context: int, rules: seq<Rule>)
    returns (r: DiffResult, ghost ops: seq<DiffLine>, ghost cuts: seq<Cut>)
    ensures r.VersionsTooDifferent? <==> Distance(Lines(older), Lines(newer)) > MAX_DIFF_EDITS
    ensures r.Compared? && context >= 0 ==>
              && Describes(r.diff, Lines(older), Lines(newer), context, rules, ops, cuts)
              && ShowsNear(ops, cuts, context)
    ensures r.Compared? && context < 0 ==>
              && Describes(r.diff, Lines(older), Lines(newer), 3, rules, ops, cuts)
              && ShowsNear(ops, cuts, 3)
  {
    ops, cuts := [], [];
    var around := if context < 0 then 3 else context;
    var a := SplitLines(older);
    var b := SplitLines(newer);
    var script := EditScript(a, b);
    if script.TooDifferent? {
      return VersionsTooDifferent, ops, cuts;
    }
    var marked, added, removed, ignored := Mark(script.lines, rules);
    ops := marked;
    MarkedStillShortest(script.lines, marked, a, b, rules);
    var identical := added == 0 && removed == 0 && ignored == 0;
    var hunks := [];
    if !(added == 0 && removed == 0) {
      hunks, cuts := GroupHunks(marked, around);
    } else {
      NothingCounted(marked);
    }
    GroupingShowsNear(marked, around, cuts);
    r := Compared(Diff(identical, added, removed, ignored, hunks));
  }

  /** The script's lines in an array of their own, marked and counted. */
  method Mark(script: seq<DiffLine>, rules: seq<Rule>)
    returns (marked: seq<DiffLine>, added: nat, removed: nat, ignored: nat)
    requires Unmarked(script)
    ensures MarkedBy(script, marked, rules)
    ensures added == Added(marked) && removed == Removed(marked) && ignored == Ignored(marked)
  {
    var lines := new DiffLine[|script|](i requires 0 <= i < |script| => script[i]);
    assert lines[..] == script && forall i | 0 <= i < |script| :: script[i] in script;
    added, removed, ignored := MarkAndCount(lines, rules);
    marked := lines[..];
  }

  lemma {:induction false} MarkedStillShortest(s: seq<DiffLine>, t: seq<DiffLine>, a: seq<string>, b: seq<string>,
                                               rules: seq<Rule>)
    requires MarkedBy(s, t, rules) && Shortest(s, a, b) && Edits(s) == Distance(a, b)
    ensures Shortest(t, a, b)
    ensures forall l | l in t :: l.ignored <==> l.op != Keep && Ignores(rules, l.text)
    ensures Added(t) + Removed(t) + Ignored(t) == Distance(a, b)
    ensures Distance(a, b) == 0 <==> a == b
  {
    MarksChangeNothing(s, t, 0, 0);
    CountsAddUp(t);
    if Distance(a, b) == 0 {
      NoEditsSameSides(s);
    }
    if a == b {
      DistSelf(a, |a|);
    }
  }

  /** The same without ignore rules. */
  method DiffText(older: string, newer: string, context: int)
    returns (r: DiffResult, ghost ops: seq<DiffLine>, ghost cuts: seq<Cut>)
    ensures r.VersionsTooDifferent? <==> Distance(Lines(older), Lines(newer)) > MAX_DIFF_EDITS
    ensures r.Compared? && context >= 0 ==>
              && Describes(r.diff, Lines(older), Lines(newer), context, [], ops, cuts)
              && ShowsNear(ops, cuts, context)
    ensures r.Compared? && context < 0 ==>
              && Describes(r.diff, Lines(older), Lines(newer), 3, [], ops, cuts)
              && ShowsNear(ops, cuts, 3)
  {
    r, ops, cuts := DiffTextIgnoring(older, newer, context, []);
  }
}
