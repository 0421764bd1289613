/**
 The edit graph of two sequences of lines, and the scripts that walk it.

 A point (x, y) stands for "x lines of the older text and y lines of the newer
 one are accounted for". One insertion or deletion moves one unit down or
 right; a matching pair of lines moves diagonally for free. The distance is
 defined on every point of the quadrant, also beyond the two texts, because the
 search in diff.go lets its points overshoot.
 */
module EditGraph {

  datatype Op = Keep | Del | Ins

  // One line of a script. A and B are 1-based line numbers, 0 where absent.
  datatype DiffLine = DiffLine(op: Op, a: nat, b: nat, text: string, ignored: bool)

  function Min(x: int, y: int): int {
    if x < y then x else y
  }

  function KeepLine(x: nat, y: nat, text: string): DiffLine {
    DiffLine(Keep, x + 1, y + 1, text, false)
  }

  function DelLine(x: nat, text: string): DiffLine {
    DiffLine(Del, x + 1, 0, text, false)
  }

  function InsLine(y: nat, text: string): DiffLine {
    DiffLine(Ins, 0, y + 1, text, false)
  }

  /** Equal but for the ignored mark. */
  predicate SameLine(l: DiffLine, r: DiffLine) {
    l.(ignored := r.ignored) == r
  }

  // ----- distances

  predicate Match(a: seq<string>, b: seq<string>, x: int, y: int) {
    0 <= x < |a| && 0 <= y < |b| && a[x] == b[y]
  }

  /** The fewest insertions and deletions that lead from (0, 0) to (x, y). */
  ghost function Dist(a: seq<string>, b: seq<string>, x: nat, y: nat): (d: nat)
    decreases x + y
  {
    if x == 0 then y
    else if y == 0 then x
    else if Match(a, b, x - 1, y - 1) then Dist(a, b, x - 1, y - 1)
    else 1 + Min(Dist(a, b, x - 1, y), Dist(a, b, x, y - 1))
  }

  ghost function Distance(a: seq<string>, b: seq<string>): nat {
    Dist(a, b, |a|, |b|)
  }

  /** One unit right or down changes the distance by at most one, either way. */
  lemma {:induction false} UnitSteps(a: seq<string>, b: seq<string>, x: nat, y: nat)
    ensures -1 <= Dist(a, b, x + 1, y) - Dist(a, b, x, y) <= 1
    ensures -1 <= Dist(a, b, x, y + 1) - Dist(a, b, x, y) <= 1
    decreases x + y
  {
    if x > 0 {
      UnitSteps(a, b, x - 1, y);
    }
    if y > 0 {
      UnitSteps(a, b, x, y - 1);
    }
  }

  /** A free step never shortens the distance, and any diagonal step costs at most two. */
  lemma {:induction false} DiagonalStep(a: seq<string>, b: seq<string>, x: nat, y: nat)
    ensures Dist(a, b, x, y) <= Dist(a, b, x + 1, y + 1) <= Dist(a, b, x, y) + 2
  {
    UnitSteps(a, b, x, y);
    UnitSteps(a, b, x, y + 1);
    UnitSteps(a, b, x + 1, y);
  }

  lemma {:induction false} DiagonalMonotone(a: seq<string>, b: seq<string>, x: nat, y: nat, t: nat)
    ensures Dist(a, b, x, y) <= Dist(a, b, x + t, y + t)
    decreases t
  {
    if t > 0 {
      DiagonalMonotone(a, b, x, y, t - 1);
      DiagonalStep(a, b, x + t - 1, y + t - 1);
    }
  }

  lemma {:induction false} TwoMore(n: int, m: int)
    requires n % 2 == 0 && m == n + 2
    ensures m % 2 == 0
  {
  }

  /** One of the points before a point, whose distance and place add up to two less. */
  lemma {:induction false} PointBefore(a: seq<string>, b: seq<string>, x: nat, y: nat) returns (u: nat, v: nat)
    requires x > 0 && y > 0
    ensures u + v < x + y && Dist(a, b, x, y) + x + y == Dist(a, b, u, v) + u + v + 2
  {
    if Match(a, b, x - 1, y - 1) {
      u, v := x - 1, y - 1;
    } else if Dist(a, b, x - 1, y) < Dist(a, b, x, y - 1) {
      u, v := x - 1, y;
    } else {
      u, v := x, y - 1;
    }
  }

  lemma {:induction false} DistParity(a: seq<string>, b: seq<string>, x: nat, y: nat)
    ensures (Dist(a, b, x, y) + x + y) % 2 == 0
    decreases x + y
  {
    if x > 0 && y > 0 {
      var u, v := PointBefore(a, b, x, y);
      DistParity(a, b, u, v);
      TwoMore(Dist(a, b, u, v) + u + v, Dist(a, b, x, y) + x + y);
    }
  }

  lemma {:induction false} DistBounds(a: seq<string>, b: seq<string>, x: nat, y: nat)
    ensures x - y <= Dist(a, b, x, y) <= x + y
    ensures y - x <= Dist(a, b, x, y)
    decreases x + y
  {
    if x > 0 && y > 0 {
      if Match(a, b, x - 1, y - 1) {
        DistBounds(a, b, x - 1, y - 1);
      } else {
        DistBounds(a, b, x - 1, y);
        DistBounds(a, b, x, y - 1);
      }
    }
  }

  /** Beyond the last line every further step is a paid one. */
  lemma {:induction false} PastRight(a: seq<string>, b: seq<string>, x: nat, y: nat)
    requires x >= |a|
    ensures Dist(a, b, x + 1, y) == Dist(a, b, x, y) + 1
    decreases y
  {
    if y > 0 {
      PastRight(a, b, x, y - 1);
      UnitSteps(a, b, x, y - 1);
    }
  }

  lemma {:induction false} PastBottom(a: seq<string>, b: seq<string>, x: nat, y: nat)
    requires y >= |b|
    ensures Dist(a, b, x, y + 1) == Dist(a, b, x, y) + 1
    decreases x
  {
    if x > 0 {
      PastBottom(a, b, x - 1, y);
      UnitSteps(a, b, x - 1, y);
    }
  }

  /** An overshooting point lies further away than the end of both texts, by how far it overshoots. */
  lemma {:induction false} Overshoot(a: seq<string>, b: seq<string>, x: nat, y: nat)
    requires x >= |a| && y >= |b|
    ensures Dist(a, b, x, y) == Distance(a, b) + (x - |a|) + (y - |b|)
    decreases x + y
  {
    if x > |a| {
      PastRight(a, b, x - 1, y);
      Overshoot(a, b, x - 1, y);
    } else if y > |b| {
      PastBottom(a, b, x, y - 1);
      Overshoot(a, b, x, y - 1);
    }
  }

  // ----- scripts

  /** Whether s leads from (x, y) to the end of both texts, one step a line. */
  ghost predicate Path(s: seq<DiffLine>, a: seq<string>, b: seq<string>, x: nat, y: nat) {
    if s == [] then x == |a| && y == |b|
    else match s[0].op
      case Keep => Match(a, b, x, y) && SameLine(s[0], KeepLine(x, y, a[x])) && Path(s[1..], a, b, x + 1, y + 1)
      case Del => x < |a| && SameLine(s[0], DelLine(x, a[x])) && Path(s[1..], a, b, x + 1, y)
      case Ins => y < |b| && SameLine(s[0], InsLine(y, b[y])) && Path(s[1..], a, b, x, y + 1)
  }

  function Edits(s: seq<DiffLine>): nat {
    if s == [] then 0 else (if s[0].op == Keep then 0 else 1) + Edits(s[1..])
  }

  /** No script beats the distance: every walk to the end pays at least what is left. */
  lemma {:induction false} PathPays(s: seq<DiffLine>, a: seq<string>, b: seq<string>, x: nat, y: nat)
    requires Path(s, a, b, x, y)
    ensures Dist(a, b, x, y) + Edits(s) >= Distance(a, b)
  {
    if s != [] {
      UnitSteps(a, b, x, y);
      match s[0].op
      case Keep => PathPays(s[1..], a, b, x + 1, y + 1);
      case Del => PathPays(s[1..], a, b, x + 1, y);
      case Ins => PathPays(s[1..], a, b, x, y + 1);
    }
  }

  /** The lines of one side of a script: those of the older text, or those of the newer one. */
  function Side(s: seq<DiffLine>, absent: Op): seq<string> {
    if s == [] then []
    else (if s[0].op == absent then [] else [s[0].text]) + Side(s[1..], absent)
  }

  function OlderSide(s: seq<DiffLine>): seq<string> { Side(s, Ins) }

  function NewerSide(s: seq<DiffLine>): seq<string> { Side(s, Del) }

  /** Line numbers count up from x + 1 and y + 1 and are 0 on the absent side. */
  ghost predicate Numbered(s: seq<DiffLine>, x: nat, y: nat) {
    s == [] ||
    (&& s[0].a == (if s[0].op == Ins then 0 else x + 1)
     && s[0].b == (if s[0].op == Del then 0 else y + 1)
     && Numbered(s[1..], if s[0].op == Ins then x else x + 1, if s[0].op == Del then y else y + 1))
  }

  /** What a script from a to b has to be: it spells both texts and numbers their lines. */
  ghost predicate Rebuilds(s: seq<DiffLine>, a: seq<string>, b: seq<string>) {
    OlderSide(s) == a && NewerSide(s) == b && Numbered(s, 0, 0)
  }

  lemma {:induction false} PathSpells(s: seq<DiffLine>, a: seq<string>, b: seq<string>, x: nat, y: nat)
    requires x <= |a| && y <= |b|
    ensures Path(s, a, b, x, y) <==> OlderSide(s) == a[x..] && NewerSide(s) == b[y..] && Numbered(s, x, y)
  {
    if s != [] {
      var older, newer := OlderSide(s[1..]), NewerSide(s[1..]);
      var x', y' := if s[0].op == Ins then x else x + 1, if s[0].op == Del then y else y + 1;
      if x' <= |a| && y' <= |b| {
        PathSpells(s[1..], a, b, x', y');
        assert x < |a| ==> a[x..] == [a[x]] + a[x + 1..];
        assert y < |b| ==> b[y..] == [b[y]] + b[y + 1..];
        assert OlderSide(s) == (if s[0].op == Ins then older else [s[0].text] + older);
        assert NewerSide(s) == (if s[0].op == Del then newer else [s[0].text] + newer);
        if OlderSide(s) == a[x..] && NewerSide(s) == b[y..] {
          assert s[0].op != Ins ==> OlderSide(s)[0] == s[0].text && OlderSide(s)[1..] == older;
          assert s[0].op != Del ==> NewerSide(s)[0] == s[0].text && NewerSide(s)[1..] == newer;
        }
      } else {
        assert |OlderSide(s)| > 0 || x' <= |a|;
        assert |NewerSide(s)| > 0 || y' <= |b|;
      }
    }
  }

  /** The walks of the edit graph are exactly the scripts that rebuild both texts. */
  lemma {:induction false} PathIffRebuilds(s: seq<DiffLine>, a: seq<string>, b: seq<string>)
    ensures Path(s, a, b, 0, 0) <==> Rebuilds(s, a, b)
  {
    PathSpells(s, a, b, 0, 0);
    assert a[0..] == a && b[0..] == b;
  }

  /** Whether no script from a to b has fewer insertions and deletions than s. */
  ghost predicate Shortest(s: seq<DiffLine>, a: seq<string>, b: seq<string>) {
    && Rebuilds(s, a, b)
    && forall other :: Rebuilds(other, a, b) ==> Edits(s) <= Edits(other)
  }

  lemma {:induction false} DistanceIsShortest(s: seq<DiffLine>, a: seq<string>, b: seq<string>)
    requires Rebuilds(s, a, b) && Edits(s) == Distance(a, b)
    ensures Shortest(s, a, b)
  {
    forall other | Rebuilds(other, a, b)
      ensures Edits(s) <= Edits(other)
    {
      PathIffRebuilds(other, a, b);
      PathPays(other, a, b, 0, 0);
    }
  }
}
