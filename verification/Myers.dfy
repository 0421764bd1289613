/**
 The O((N+M)D) search of internal/capture/diff.go.

 Step d of the search leaves, for every diagonal k of d's parity, the furthest
 point that d edits reach. The proof rests on one characterisation: along a
 diagonal the distance never falls, so "the furthest x" says exactly which
 points of the diagonal d edits reach.
 */
module Myers {
  import opened EditGraph

  const MAX_DIFF_EDITS: nat := 4000

  datatype ScriptResult = Script(lines: seq<DiffLine>) | TooDifferent

  /** Whether every pair of diagonal k from x == lo up to x == hi matches. */
  ghost predicate MatchesAlong(a: seq<string>, b: seq<string>, k: int, lo: int, hi: int) {
    forall x, y | lo <= x < hi && y == x - k :: Match(a, b, x, y)
  }

  // ----- the furthest-reaching points

  /** x is where d edits stop on diagonal k: (x, x - k) is within reach and the next point is not. */
  ghost predicate Furthest(a: seq<string>, b: seq<string>, d: int, k: int, x: int) {
    && x >= 0 && x - k >= 0
    && Dist(a, b, x, x - k) <= d < Dist(a, b, x + 1, x + 1 - k)
  }

  lemma {:induction false} FurthestSeparates(a: seq<string>, b: seq<string>, d: int, k: int, x: int, t: int)
    requires Furthest(a, b, d, k, x) && t >= 0 && t - k >= 0
    ensures Dist(a, b, t, t - k) <= d <==> t <= x
  {
    if t <= x {
      DiagonalMonotone(a, b, t, t - k, x - t);
    } else {
      DiagonalMonotone(a, b, x + 1, x + 1 - k, t - x - 1);
    }
  }

  /** Where step d starts on diagonal k, from the points step d-1 left on the neighbouring diagonals. */
  function StartOf(d: int, k: int, left: int, right: int): int {
    if k == -d || (k != d && left < right) then right else left + 1
  }

  /** What the neighbouring diagonals k-1 and k+1 hold when step d reaches diagonal k. */
  ghost predicate Neighbours(a: seq<string>, b: seq<string>, d: int, k: int, left: int, right: int) {
    && 0 <= d && -d <= k <= d
    && (d == 0 ==> right == 0)
    && (-d < k ==> Furthest(a, b, d - 1, k - 1, left))
    && (k < d ==> Furthest(a, b, d - 1, k + 1, right))
  }

  lemma {:induction false} StartReached(a: seq<string>, b: seq<string>, d: int, k: int, left: int, right: int)
    requires Neighbours(a, b, d, k, left, right)
    ensures var x := StartOf(d, k, left, right); x >= 0 && x - k >= 0 && Dist(a, b, x, x - k) <= d
  {
    var x := StartOf(d, k, left, right);
    if d > 0 {
      if k == -d || (k != d && left < right) {
        UnitSteps(a, b, right, right - k - 1);
      } else {
        UnitSteps(a, b, left, left - k + 1);
      }
    }
  }

  /** A point at or past the start whose next pair does not match is as far as d edits get. */
  lemma {:induction false} NextIsOutOfReach(a: seq<string>, b: seq<string>, d: int, k: int, left: int, right: int,
                                            x: int)
    requires Neighbours(a, b, d, k, left, right)
    requires x >= StartOf(d, k, left, right)
    requires !Match(a, b, x, x - k)
    ensures x >= 0 && x - k >= 0 && Dist(a, b, x + 1, x + 1 - k) > d
  {
    StartReached(a, b, d, k, left, right);
    BeyondLeft(a, b, d, k, left, x);
    BeyondRight(a, b, d, k, right, x);
  }

  lemma {:induction false} BeyondLeft(a: seq<string>, b: seq<string>, d: int, k: int, left: int, x: int)
    requires -d <= k && x >= 0 && x - k >= 0
    requires -d < k ==> Furthest(a, b, d - 1, k - 1, left) && x > left
    ensures Dist(a, b, x, x + 1 - k) >= d
  {
    if -d < k {
      FurthestSeparates(a, b, d - 1, k - 1, left, x);
    } else {
      DistBounds(a, b, x, x + 1 - k);
    }
  }

  lemma {:induction false} BeyondRight(a: seq<string>, b: seq<string>, d: int, k: int, right: int, x: int)
    requires k <= d && x >= 0 && x - k >= 0
    requires k < d ==> Furthest(a, b, d - 1, k + 1, right) && x + 1 > right
    ensures Dist(a, b, x + 1, x - k) >= d
  {
    if k < d {
      FurthestSeparates(a, b, d - 1, k + 1, right, x + 1);
    } else {
      DistBounds(a, b, x + 1, x - k);
    }
  }

  lemma {:induction false} SlideIsFree(a: seq<string>, b: seq<string>, k: int, lo: int, hi: int)
    requires 0 <= lo <= hi && 0 <= lo - k
    requires MatchesAlong(a, b, k, lo, hi)
    ensures Dist(a, b, hi, hi - k) == Dist(a, b, lo, lo - k)
    decreases hi
  {
    if lo < hi {
      SlideIsFree(a, b, k, lo, hi - 1);
      assert Match(a, b, hi - 1, hi - 1 - k);
    }
  }

  /** The step is right: starting from the neighbours and sliding over matches ends at the furthest point. */
  lemma {:induction false} StepReachesFurthest(a: seq<string>, b: seq<string>, d: int, k: int, left: int, right: int,
                                               x: int)
    requires Neighbours(a, b, d, k, left, right)
    requires x >= StartOf(d, k, left, right)
    requires MatchesAlong(a, b, k, StartOf(d, k, left, right), x)
    requires !Match(a, b, x, x - k)
    ensures Furthest(a, b, d, k, x)
  {
    StartReached(a, b, d, k, left, right);
    SlideIsFree(a, b, k, StartOf(d, k, left, right), x);
    NextIsOutOfReach(a, b, d, k, left, right, x);
  }

  /** The way back is open: between the start and the furthest point every pair matches. */
  lemma {:induction false} FurthestSlidBack(a: seq<string>, b: seq<string>, d: int, k: int, left: int, right: int,
                                            x: int)
    requires Neighbours(a, b, d, k, left, right)
    requires Furthest(a, b, d, k, x)
    ensures StartOf(d, k, left, right) <= x
    ensures MatchesAlong(a, b, k, StartOf(d, k, left, right), x)
  {
    var start := StartOf(d, k, left, right);
    StartReached(a, b, d, k, left, right);
    FurthestSeparates(a, b, d, k, x, start);
    forall t, u | start <= t < x && u == t - k
      ensures Match(a, b, t, u)
    {
      if !Match(a, b, t, u) {
        NextIsOutOfReach(a, b, d, k, left, right, t);
        FurthestSeparates(a, b, d, k, x, t + 1);
      }
    }
  }

  /** A furthest point at or beyond the end of both texts puts the end itself within d edits. */
  lemma {:induction false} HitReachesEnd(a: seq<string>, b: seq<string>, d: int, k: int, x: int)
    requires Furthest(a, b, d, k, x) && x >= |a| && x - k >= |b|
    ensures Distance(a, b) <= d
  {
    Overshoot(a, b, x, x - k);
  }

  /** The first step within reach of the end stands exactly on it, on the end's own diagonal. */
  lemma {:induction false} EndIsHit(a: seq<string>, b: seq<string>, d: nat, x: int)
    requires Distance(a, b) == d
    requires Furthest(a, b, d, |a| - |b|, x)
    ensures x == |a|
  {
    Overshoot(a, b, |a| + 1, |b| + 1);
    FurthestSeparates(a, b, d, |a| - |b|, x, |a|);
    FurthestSeparates(a, b, d, |a| - |b|, x, |a| + 1);
  }

  /** Whether step d visits diagonal k. */
  predicate OnStep(d: int, k: int) {
    -d <= k <= d && (k + d) % 2 == 0
  }

  /** What the array holds once step d is over: the furthest point of every diagonal of d's parity. */
  ghost predicate Frontier(a: seq<string>, b: seq<string>, d: int, v: seq<int>, offset: int) {
    forall i | 0 <= i < |v| && -d <= i - offset <= d && (i - offset + d) % 2 == 0 ::
      Furthest(a, b, d, i - offset, v[i])
  }

  /** Midway through step d: the diagonals below k are moved, those of the other parity are as they were. */
  ghost predicate Swept(a: seq<string>, b: seq<string>, d: int, k: int, before: seq<int>, v: seq<int>, offset: int) {
    && |v| == |before|
    && (forall i | 0 <= i < |v| && (i - offset + d) % 2 != 0 :: v[i] == before[i])
    && (forall i | 0 <= i < |v| && -d <= i - offset < k && (i - offset + d) % 2 == 0 ::
          Furthest(a, b, d, i - offset, v[i]))
  }

  ghost predicate BeforeStep(a: seq<string>, b: seq<string>, d: int, v: seq<int>, offset: int) {
    && 0 <= d <= offset && |v| == 2 * offset + 2
    && if d == 0 then v[offset + 1] == 0 else Frontier(a, b, d - 1, v, offset)
  }

  lemma {:induction false} NeighboursAt(a: seq<string>, b: seq<string>, d: int, k: int, v: seq<int>, offset: int)
    requires BeforeStep(a, b, d, v, offset)
    requires OnStep(d, k)
    ensures Neighbours(a, b, d, k, if k == -d then 0 else v[offset + k - 1], v[offset + k + 1])
  {
    assert (k - 1 + d - 1) % 2 == 0 && (k + 1 + d - 1) % 2 == 0;
    assert -d < k ==> offset + k - 1 - offset == k - 1;
    assert offset + k + 1 - offset == k + 1;
  }

  lemma {:induction false} SweptOneMore(a: seq<string>, b: seq<string>, d: int, k: int, before: seq<int>, v: seq<int>,
                                        offset: int, x: int)
    requires Swept(a, b, d, k, before, v, offset)
    requires 0 <= offset + k < |v| && (k + d) % 2 == 0
    requires Furthest(a, b, d, k, x)
    ensures Swept(a, b, d, k + 2, before, v[offset + k := x], offset)
  {
    var w := v[offset + k := x];
    forall i | 0 <= i < |w| && -d <= i - offset < k + 2 && (i - offset + d) % 2 == 0
      ensures Furthest(a, b, d, i - offset, w[i])
    {
      assert i - offset != k + 1;
    }
  }

  // ----- interning

  ghost predicate Injective(ids: map<string, int>) {
    forall s, t | s in ids && t in ids && ids[s] == ids[t] :: s == t
  }

  /** Gives every distinct line one number, keeping the numbers given before. */
  method Intern(ids: map<string, int>, s: seq<string>) returns (all: map<string, int>, out: seq<int>)
    requires Injective(ids) && forall x | x in ids :: 0 <= ids[x] < |ids|
    ensures Injective(all) && forall x | x in all :: 0 <= all[x] < |all|
    ensures forall x | x in ids :: x in all && all[x] == ids[x]
    ensures |out| == |s| && forall i | 0 <= i < |s| :: s[i] in all && out[i] == all[s[i]]
  {
    all := ids;
    out := [];
    for i := 0 to |s|
      invariant Injective(all) && forall x | x in all :: 0 <= all[x] < |all|
      invariant forall x | x in ids :: x in all && all[x] == ids[x]
      invariant |out| == i && forall j | 0 <= j < i :: s[j] in all && out[j] == all[s[j]]
    {
      if s[i] !in all {
        all := all[s[i] := |all|];
      }
      out := out + [all[s[i]]];
    }
  }

  /** Whether comparing interned numbers is comparing lines. */
  ghost predicate Interned(a: seq<string>, b: seq<string>, ia: seq<int>, ib: seq<int>) {
    && |ia| == |a| && |ib| == |b|
    && forall i, j | 0 <= i < |a| && 0 <= j < |b| :: ia[i] == ib[j] <==> a[i] == b[j]
  }

  // ----- the search

  /** A walk to the end of both texts with no line marked ignored. */
  ghost predicate Walk(s: seq<DiffLine>, a: seq<string>, b: seq<string>, x: nat, y: nat) {
    Path(s, a, b, x, y) && Unmarked(s)
  }

  ghost predicate Unmarked(s: seq<DiffLine>) {
    forall l | l in s :: !l.ignored
  }

  /** One diagonal of one step. */
  method Slide(ghost a: seq<string>, ghost b: seq<string>, ia: seq<int>, ib: seq<int>, k: int, start: int)
    returns (x: int)
    requires Interned(a, b, ia, ib) && start >= 0 && start - k >= 0
    ensures x >= start && !Match(a, b, x, x - k)
    ensures MatchesAlong(a, b, k, start, x)
  {
    x := start;
    var y := x - k;
    while x < |ia| && y < |ib| && ia[x] == ib[y]
      invariant start <= x && y == x - k
      invariant MatchesAlong(a, b, k, start, x)
    {
      x := x + 1;
      y := y + 1;
    }
  }

  /** Step d on one diagonal: from the better neighbour, down the matches. */
  method MoveDiagonal(ghost a: seq<string>, ghost b: seq<string>, ia: seq<int>, ib: seq<int>,
                      v: array<int>, offset: nat, d: int, k: int, ghost before: seq<int>) returns (x: int)
    requires Interned(a, b, ia, ib)
    requires BeforeStep(a, b, d, before, offset)
    requires OnStep(d, k)
    requires Swept(a, b, d, k, before, v[..], offset)
    modifies v
    ensures v[..] == old(v[..])[offset + k := x]
    ensures Furthest(a, b, d, k, x)
  {
    ghost var left, right := if k == -d then 0 else before[offset + k - 1], before[offset + k + 1];
    var start;
    if k == -d || (k != d && v[offset + k - 1] < v[offset + k + 1]) {
      start := v[offset + k + 1];
    } else {
      start := v[offset + k - 1] + 1;
    }
    assert start == StartOf(d, k, left, right) by {
      assert v[..][offset + k + 1] == right && (k > -d ==> v[..][offset + k - 1] == left);
    }
    NeighboursAt(a, b, d, k, before, offset);
    StartReached(a, b, d, k, left, right);
    x := Slide(a, b, ia, ib, k, start);
    StepReachesFurthest(a, b, d, k, left, right, x);
    v[offset + k] := x;
  }

  /** The test the search makes on every diagonal is the test for the end of both texts. */
  lemma {:induction false} HitTest(a: seq<string>, b: seq<string>, d: nat, k: int, x: int)
    requires Furthest(a, b, d, k, x) && Distance(a, b) >= d
    ensures x >= |a| && x - k >= |b| ==> Distance(a, b) == d
    ensures k == |a| - |b| && Distance(a, b) == d ==> x == |a|
  {
    if x >= |a| && x - k >= |b| {
      HitReachesEnd(a, b, d, k, x);
    }
    if k == |a| - |b| && Distance(a, b) == d {
      EndIsHit(a, b, d, x);
    }
  }

  /**
   What a hit on a diagonal before k says: at the distance the end's own is one,
   and at no other step there is any.
  */
  ghost predicate HitBefore(a: seq<string>, b: seq<string>, d: int, k: int, hit: bool) {
    (hit ==> Distance(a, b) == d) && (|a| - |b| < k && Distance(a, b) == d ==> hit)
  }

  lemma {:induction false} HitStep(a: seq<string>, b: seq<string>, d: nat, k: int, x: int, hit: bool)
    requires HitBefore(a, b, d, k, hit) && OnStep(d, k) && Furthest(a, b, d, k, x) && Distance(a, b) >= d
    ensures HitBefore(a, b, d, k + 2, hit || (x >= |a| && x - k >= |b|))
  {
    HitTest(a, b, d, k, x);
    EndOnStep(a, b);
  }

  lemma {:induction false} EndOnStep(a: seq<string>, b: seq<string>)
    ensures OnStep(Distance(a, b), |a| - |b|)
  {
    DistBounds(a, b, |a|, |b|);
    DistParity(a, b, |a|, |b|);
  }

  /** Step d: moves every diagonal of d's parity, and says whether one of them got to the end. */
  method Sweep(ghost a: seq<string>, ghost b: seq<string>, ia: seq<int>, ib: seq<int>,
               v: array<int>, offset: nat, d: int) returns (hit: bool)
    requires Interned(a, b, ia, ib)
    requires BeforeStep(a, b, d, v[..], offset)
    requires Distance(a, b) >= d
    modifies v
    ensures Frontier(a, b, d, v[..], offset)
    ensures hit <==> Distance(a, b) == d
  {
    hit := false;
    EndOnStep(a, b);
    ghost var before := v[..];
    var k := -d;
    while k <= d
      invariant OnStep(d, k) || k == d + 2
      invariant Swept(a, b, d, k, before, v[..], offset)
      invariant HitBefore(a, b, d, k, hit)
      decreases d - k
    {
      ghost var w := v[..];
      var x := MoveDiagonal(a, b, ia, ib, v, offset, d, k, before);
      SweptOneMore(a, b, d, k, before, w, offset, x);
      HitStep(a, b, d, k, x, hit);
      if x >= |ia| && x - k >= |ib| {
        hit := true;
      }
      k := k + 2;
    }
  }

  /** The diagonals step d can reach, copied out of the array. */
  method Snapshot(ghost a: seq<string>, ghost b: seq<string>, v: array<int>, offset: nat, d: int)
    returns (snap: seq<int>)
    requires 0 <= d <= offset && v.Length == 2 * offset + 2
    requires Frontier(a, b, d, v[..], offset)
    ensures |snap| == 2 * d + 1 && Frontier(a, b, d, snap, d)
  {
    var out := new int[2 * d + 1];
    for k := -d to d + 1
      invariant forall i | 0 <= i < k + d :: out[i] == v[offset - d + i]
    {
      out[k + d] := v[offset + k];
    }
    snap := out[..];
    forall i | 0 <= i < |snap| && -d <= i - d <= d && (i - d + d) % 2 == 0
      ensures Furthest(a, b, d, i - d, snap[i])
    {
      var j := offset - d + i;
      assert v[..][j] == v[j] && j - offset == i - d;
    }
  }

  /** A shortest edit script from a to b, unless the two differ in more than MAX_DIFF_EDITS lines. */
  method Search(a: seq<string>, b: seq<string>) returns (r: ScriptResult)
    ensures r.TooDifferent? <==> Distance(a, b) > MAX_DIFF_EDITS
    ensures r.Script? ==> Rebuilds(r.lines, a, b) && Edits(r.lines) == Distance(a, b) && Unmarked(r.lines)
  {
    if |a| == 0 && |b| == 0 {
      return Script([]);
    }
    var ids, ia := Intern(map[], a);
    var ids', ib := Intern(ids, b);
    var found, trace := FindEnd(a, b, ia, ib);
    if found < 0 {
      return TooDifferent;
    }
    var lines := WalkBack(a, b, trace, found);
    r := Script(lines);
  }

  /** Snapshots of the steps up to the first that reaches the end of both texts; none when there are too many. */
  method FindEnd(ghost a: seq<string>, ghost b: seq<string>, ia: seq<int>, ib: seq<int>)
    returns (found: int, trace: seq<seq<int>>)
    requires Interned(a, b, ia, ib)
    ensures found == if Distance(a, b) > MAX_DIFF_EDITS then -1 else Distance(a, b)
    ensures found >= 0 ==> |trace| == found + 1
    ensures found >= 0 ==> forall e | 0 <= e <= found :: |trace[e]| == 2 * e + 1 && Frontier(a, b, e, trace[e], e)
  {
    var max := |ia| + |ib|;
    var v := new int[2 * max + 2](_ => 0);
    trace := [];
    found := -1;
    DistBounds(a, b, |a|, |b|);
    for d := 0 to max + 1
      invariant |trace| == d && found == -1
      invariant forall e | 0 <= e < d :: |trace[e]| == 2 * e + 1 && Frontier(a, b, e, trace[e], e)
      invariant d <= max ==> BeforeStep(a, b, d, v[..], max)
      invariant Distance(a, b) >= d
    {
      if d > MAX_DIFF_EDITS {
        return -1, trace;
      }
      var hit := Sweep(a, b, ia, ib, v, max, d);
      var snap := Snapshot(a, b, v, max, d);
      trace := trace + [snap];
      if hit {
        return d, trace;
      }
    }
  }

  /** Reads the script out of the snapshots, from the end of both texts to their beginning. */
  method WalkBack(a: seq<string>, b: seq<string>, trace: seq<seq<int>>, found: nat) returns (out: seq<DiffLine>)
    requires |trace| == found + 1
    requires forall e | 0 <= e <= found :: |trace[e]| == 2 * e + 1 && Frontier(a, b, e, trace[e], e)
    requires Distance(a, b) == found
    ensures Rebuilds(out, a, b) && Edits(out) == found && Unmarked(out)
  {
    var x, y, rev;
    ghost var script;
    StartsAtEnd(a, b, found, trace[found]);
    x, y, rev, script := UndoEdits(a, b, trace, found);
    SlidFromStart(a, b, trace[0], x, y);
    x, y, rev, script := UndoSlide(a, b, 0, 0, 0, x, y, rev, script);
    out := Reversed(rev, script);
    PathIffRebuilds(out, a, b);
  }

  /** From the end of both texts back over every edit, to the slide the script begins with. */
  method UndoEdits(a: seq<string>, b: seq<string>, trace: seq<seq<int>>, found: nat)
    returns (x: int, y: int, rev: seq<DiffLine>, ghost script: seq<DiffLine>)
    requires |trace| == found + 1
    requires forall e | 0 <= e <= found :: |trace[e]| == 2 * e + 1 && Frontier(a, b, e, trace[e], e)
    requires OnStep(found, |a| - |b|) && trace[found][|a| - |b| + found] == |a|
    ensures 0 <= x <= |a| && 0 <= y <= |b| && OnStep(0, x - y) && x == trace[0][x - y]
    ensures Walk(script, a, b, x, y) && Edits(script) == found && Mirrored(rev, script)
  {
    rev, script := [], [];
    x, y := |a|, |b|;
    var d := found;
    while d > 0
      invariant 0 <= d <= found && OnStep(d, x - y) && x == trace[d][x - y + d]
      invariant 0 <= x <= |a| && 0 <= y <= |b|
      invariant Walk(script, a, b, x, y) && Edits(script) == found - d
      invariant Mirrored(rev, script)
    {
      x, y, rev, script := UndoStep(a, b, trace[d - 1], trace[d], d, x, y, rev, script);
      d := d - 1;
    }
  }

  lemma {:induction false} SlidFromStart(a: seq<string>, b: seq<string>, first: seq<int>, x: int, y: int)
    requires |first| == 1 && Frontier(a, b, 0, first, 0)
    requires OnStep(0, x - y) && x == first[x - y]
    ensures x == y && MatchesAlong(a, b, 0, 0, x)
  {
    StepHas(a, b, 0, first, x - y);
    assert Neighbours(a, b, 0, 0, 0, 0);
    FurthestSlidBack(a, b, 0, 0, 0, 0, x);
  }

  /** The end of both texts is the last step's furthest point on its diagonal. */
  lemma {:induction false} StartsAtEnd(a: seq<string>, b: seq<string>, found: nat, last: seq<int>)
    requires Distance(a, b) == found && |last| == 2 * found + 1 && Frontier(a, b, found, last, found)
    ensures OnStep(found, |a| - |b|) && last[|a| - |b| + found] == |a|
  {
    EndOnStep(a, b);
    StepHas(a, b, found, last, |a| - |b|);
    EndIsHit(a, b, found, last[|a| - |b| + found]);
  }

  /** The diagonal the last edit came from, by the rule of the forward search. */
  function CameFrom(prev: seq<int>, d: int, k: int): (pk: int)
    requires d > 0 && |prev| == 2 * d - 1 && OnStep(d, k)
    ensures OnStep(d - 1, pk) && (pk == k + 1 || pk == k - 1)
  {
    if k == -d || (k != d && prev[k - 1 + (d - 1)] < prev[k + 1 + (d - 1)]) then k + 1 else k - 1
  }

  /** (x, y) lies one edit and a slide over matches from the point (px, px - pk). */
  ghost predicate SlidFrom(a: seq<string>, b: seq<string>, pk: int, px: int, x: int, y: int) {
    var start := if pk > x - y then px else px + 1;
    && (pk == x - y + 1 || pk == x - y - 1)
    && 0 <= px && 0 <= px - pk
    && start <= x && MatchesAlong(a, b, x - y, start, x)
  }

  lemma {:induction false} StepHas(a: seq<string>, b: seq<string>, d: int, v: seq<int>, k: int)
    requires |v| == 2 * d + 1 && Frontier(a, b, d, v, d) && OnStep(d, k)
    ensures Furthest(a, b, d, k, v[k + d])
  {
    assert k + d - d == k;
  }

  /** One edit before a furthest point lies the previous step's furthest point. */
  lemma {:induction false} WayBack(a: seq<string>, b: seq<string>, prev: seq<int>, cur: seq<int>, d: int, x: int,
                                   y: int)
    requires d > 0 && |prev| == 2 * d - 1 && Frontier(a, b, d - 1, prev, d - 1)
    requires |cur| == 2 * d + 1 && Frontier(a, b, d, cur, d)
    requires OnStep(d, x - y) && x == cur[x - y + d]
    ensures var pk := CameFrom(prev, d, x - y); SlidFrom(a, b, pk, prev[pk + (d - 1)], x, y)
  {
    var k := x - y;
    var left, right := LeftOf(prev, d, k), RightOf(prev, d, k);
    StepHas(a, b, d, cur, k);
    BesideStep(a, b, prev, d, k);
    CameFromBeside(prev, d, k);
    SlideBack(a, b, d, left, right, CameFrom(prev, d, k), x, y);
  }

  /** What the previous step left on the diagonals beside one, 0 past its ends. */
  function LeftOf(prev: seq<int>, d: int, k: int): int
    requires d > 0 && |prev| == 2 * d - 1 && OnStep(d, k)
  {
    if -d < k then prev[k - 1 + (d - 1)] else 0
  }

  function RightOf(prev: seq<int>, d: int, k: int): int
    requires d > 0 && |prev| == 2 * d - 1 && OnStep(d, k)
  {
    if k < d then prev[k + 1 + (d - 1)] else 0
  }

  lemma {:induction false} BesideStep(a: seq<string>, b: seq<string>, prev: seq<int>, d: int, k: int)
    requires d > 0 && |prev| == 2 * d - 1 && Frontier(a, b, d - 1, prev, d - 1) && OnStep(d, k)
    ensures Neighbours(a, b, d, k, LeftOf(prev, d, k), RightOf(prev, d, k))
  {
    StepsBeside(d, k);
    if -d < k {
      StepHas(a, b, d - 1, prev, k - 1);
    }
    if k < d {
      StepHas(a, b, d - 1, prev, k + 1);
    }
  }

  lemma {:induction false} CameFromBeside(prev: seq<int>, d: int, k: int)
    requires d > 0 && |prev| == 2 * d - 1 && OnStep(d, k)
    ensures CameFrom(prev, d, k)
            == if k == -d || (k != d && LeftOf(prev, d, k) < RightOf(prev, d, k)) then k + 1 else k - 1
    ensures prev[CameFrom(prev, d, k) + (d - 1)]
            == if CameFrom(prev, d, k) > k then RightOf(prev, d, k) else LeftOf(prev, d, k)
  {
    StepsBeside(d, k);
  }

  lemma {:induction false} StepsBeside(d: int, k: int)
    requires d > 0 && OnStep(d, k)
    ensures -d < k ==> OnStep(d - 1, k - 1)
    ensures k < d ==> OnStep(d - 1, k + 1)
  {
  }

  lemma {:induction false} SlideBack(a: seq<string>, b: seq<string>, d: int, left: int, right: int, pk: int, x: int,
                                     y: int)
    requires d > 0 && Neighbours(a, b, d, x - y, left, right) && Furthest(a, b, d, x - y, x)
    requires pk == if x - y == -d || (x - y != d && left < right) then x - y + 1 else x - y - 1
    ensures SlidFrom(a, b, pk, if pk > x - y then right else left, x, y)
  {
    FurthestSlidBack(a, b, d, x - y, left, right, x);
  }

  /** One step undone: back along the slide, then back over the one edit that started it. */
  method UndoStep(a: seq<string>, b: seq<string>, prev: seq<int>, ghost cur: seq<int>, d: int, x0: int, y0: int,
                  rev0: seq<DiffLine>, ghost script0: seq<DiffLine>)
    returns (x: int, y: int, rev: seq<DiffLine>, ghost script: seq<DiffLine>)
    requires d > 0 && |prev| == 2 * d - 1 && Frontier(a, b, d - 1, prev, d - 1)
    requires |cur| == 2 * d + 1 && Frontier(a, b, d, cur, d)
    requires OnStep(d, x0 - y0) && x0 == cur[x0 - y0 + d]
    requires 0 <= x0 <= |a| && 0 <= y0 <= |b|
    requires Walk(script0, a, b, x0, y0) && Mirrored(rev0, script0)
    ensures OnStep(d - 1, x - y) && x == prev[x - y + (d - 1)]
    ensures 0 <= x <= |a| && 0 <= y <= |b|
    ensures Walk(script, a, b, x, y) && Mirrored(rev, script)
    ensures Edits(script) == Edits(script0) + 1
  {
    WayBack(a, b, prev, cur, d, x0, y0);
    var pk := CameFrom(prev, d, x0 - y0);
    x, y, rev, script := UndoMove(a, b, pk, prev[pk + (d - 1)], x0, y0, rev0, script0);
  }

  method UndoMove(a: seq<string>, b: seq<string>, pk: int, px: int, x0: int, y0: int,
                  rev0: seq<DiffLine>, ghost script0: seq<DiffLine>)
    returns (x: int, y: int, rev: seq<DiffLine>, ghost script: seq<DiffLine>)
    requires 0 <= x0 <= |a| && 0 <= y0 <= |b| && SlidFrom(a, b, pk, px, x0, y0)
    requires Walk(script0, a, b, x0, y0) && Mirrored(rev0, script0)
    ensures x == px && x - y == pk && 0 <= x <= |a| && 0 <= y <= |b|
    ensures Walk(script, a, b, x, y) && Mirrored(rev, script)
    ensures Edits(script) == Edits(script0) + 1
  {
    var py := px - pk;
    ghost var start := if pk > x0 - y0 then px else px + 1;
    x, y, rev, script := UndoSlide(a, b, start, px, py, x0, y0, rev0, script0);
    if x == px {
      y := y - 1;
      rev, script := Push(rev, script, InsLine(y, b[y]));
    } else {
      x := x - 1;
      rev, script := Push(rev, script, DelLine(x, a[x]));
    }
  }

  /** Back over matching pairs until px or py is reached. */
  method UndoSlide(a: seq<string>, b: seq<string>, ghost start: int, px: int, py: int, x0: int, y0: int,
                   rev0: seq<DiffLine>, ghost script0: seq<DiffLine>)
    returns (x: int, y: int, rev: seq<DiffLine>, ghost script: seq<DiffLine>)
    requires 0 <= px && 0 <= py && 0 <= start <= x0 <= |a| && 0 <= start - (x0 - y0) && y0 <= |b|
    requires start == px || start - (x0 - y0) == py
    requires start >= px && start - (x0 - y0) >= py
    requires MatchesAlong(a, b, x0 - y0, start, x0)
    requires Walk(script0, a, b, x0, y0) && Mirrored(rev0, script0)
    ensures x == start && x - y == x0 - y0
    ensures Walk(script, a, b, x, y) && Mirrored(rev, script) && Edits(script) == Edits(script0)
  {
    x, y, rev, script := x0, y0, rev0, script0;
    while x > px && y > py
      invariant start <= x <= x0 && x - y == x0 - y0
      invariant Walk(script, a, b, x, y) && Mirrored(rev, script) && Edits(script) == Edits(script0)
    {
      x := x - 1;
      y := y - 1;
      assert Match(a, b, x, y);
      rev, script := Push(rev, script, KeepLine(x, y, a[x]));
    }
  }

  /** A list written back to front. */
  ghost predicate Mirrored(rev: seq<DiffLine>, script: seq<DiffLine>) {
    |rev| == |script| && forall i | 0 <= i < |script| :: script[i] == rev[|rev| - 1 - i]
  }

  method Push(rev: seq<DiffLine>, ghost script: seq<DiffLine>, l: DiffLine)
    returns (rev': seq<DiffLine>, ghost script': seq<DiffLine>)
    requires Mirrored(rev, script)
    ensures rev' == rev + [l] && script' == [l] + script && script'[1..] == script
    ensures Mirrored(rev', script')
  {
    rev' := rev + [l];
    script' := [l] + script;
  }

  method Reversed(rev: seq<DiffLine>, ghost script: seq<DiffLine>) returns (out: seq<DiffLine>)
    requires Mirrored(rev, script)
    ensures out == script
  {
    if |rev| == 0 {
      return [];
    }
    var lines := new DiffLine[|rev|](_ => rev[0]);
    for i := 0 to |rev|
      invariant forall j | 0 <= j < i :: lines[j] == rev[|rev| - 1 - j]
    {
      lines[i] := rev[|rev| - 1 - i];
    }
    out := lines[..];
  }
}
