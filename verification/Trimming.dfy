/**
 The edit script of internal/capture/diff.go: common prefix and suffix are cut
 off, what is between goes through the search, and the pieces are put together
 again. The theorem is that cutting loses nothing: the script is still shortest
 for the whole texts.
 */
module Trimming {
  import opened EditGraph
  import opened Myers

  // ----- what trimming does to the distance

  lemma {:induction false} MatchShift(a: seq<string>, b: seq<string>, c: string, i: nat, j: nat)
    ensures Match([c] + a, [c] + b, i + 1, j + 1) <==> Match(a, b, i, j)
  {
  }

  /** The distance of a point by the three before it. */
  lemma {:induction false} DistAt(a: seq<string>, b: seq<string>, x: nat, y: nat)
    ensures Dist(a, b, x + 1, y + 1)
            == if Match(a, b, x, y) then Dist(a, b, x, y) else 1 + Min(Dist(a, b, x, y + 1), Dist(a, b, x + 1, y))
  {
  }

  /** Along the edge of the shifted grid the distance is what it was along the edge. */
  lemma {:induction false} ShiftAcross(a: seq<string>, b: seq<string>, c: string, x: nat)
    ensures Dist([c] + a, [c] + b, x + 1, 1) == x
  {
    var a', b' := [c] + a, [c] + b;
    if x == 0 {
      assert Match(a', b', 0, 0);
    } else {
      ShiftAcross(a, b, c, x - 1);
      UnitSteps(a', b', x, 0);
      assert Dist(a', b', x, 0) == x && Dist(a', b', x + 1, 0) == x + 1;
      DistAt(a', b', x, 0);
    }
  }

  lemma {:induction false} ShiftDown(a: seq<string>, b: seq<string>, c: string, y: nat)
    ensures Dist([c] + a, [c] + b, 1, y + 1) == y
  {
    var a', b' := [c] + a, [c] + b;
    if y == 0 {
      assert Match(a', b', 0, 0);
    } else {
      ShiftDown(a, b, c, y - 1);
      UnitSteps(a', b', 0, y);
      assert Dist(a', b', 0, y) == y && Dist(a', b', 0, y + 1) == y + 1;
      DistAt(a', b', 0, y);
    }
  }

  lemma {:induction false} DistShift(a: seq<string>, b: seq<string>, c: string, x: nat, y: nat)
    ensures Dist([c] + a, [c] + b, x + 1, y + 1) == Dist(a, b, x, y)
    decreases x + y
  {
    if y == 0 {
      ShiftAcross(a, b, c, x);
    } else if x == 0 {
      ShiftDown(a, b, c, y);
    } else {
      DistShift(a, b, c, x - 1, y - 1);
      DistShift(a, b, c, x - 1, y);
      DistShift(a, b, c, x, y - 1);
      MatchShift(a, b, c, x - 1, y - 1);
      DistAt([c] + a, [c] + b, x, y);
      DistAt(a, b, x - 1, y - 1);
    }
  }

  lemma {:induction false} DropFirst(a: seq<string>, b: seq<string>)
    requires |a| > 0 && |b| > 0 && a[0] == b[0]
    ensures Distance(a[1..], b[1..]) == Distance(a, b)
  {
    assert a == [a[0]] + a[1..] && b == [a[0]] + b[1..];
    DistShift(a[1..], b[1..], a[0], |a| - 1, |b| - 1);
  }

  /** The distance of a point only looks at the lines before it. */
  lemma {:induction false} DistLocal(a: seq<string>, b: seq<string>, n: nat, m: nat, x: nat, y: nat)
    requires x <= n <= |a| && y <= m <= |b|
    ensures Dist(a[..n], b[..m], x, y) == Dist(a, b, x, y)
    decreases x + y
  {
    if x > 0 && y > 0 {
      DistLocal(a, b, n, m, x - 1, y - 1);
      DistLocal(a, b, n, m, x - 1, y);
      DistLocal(a, b, n, m, x, y - 1);
      assert Match(a[..n], b[..m], x - 1, y - 1) <==> Match(a, b, x - 1, y - 1);
    }
  }

  lemma {:induction false} DropLast(a: seq<string>, b: seq<string>)
    requires |a| > 0 && |b| > 0 && a[|a| - 1] == b[|b| - 1]
    ensures Distance(a[..|a| - 1], b[..|b| - 1]) == Distance(a, b)
  {
    DistLocal(a, b, |a| - 1, |b| - 1, |a| - 1, |b| - 1);
    assert Match(a, b, |a| - 1, |b| - 1);
  }

  lemma {:induction false} DropPrefix(a: seq<string>, b: seq<string>, pre: nat)
    requires pre <= |a| && pre <= |b| && a[..pre] == b[..pre]
    ensures Distance(a[pre..], b[pre..]) == Distance(a, b)
    decreases pre
  {
    if pre == 0 {
      assert a[0..] == a && b[0..] == b;
    } else {
      assert a[..pre][..pre - 1] == a[..pre - 1] && b[..pre][..pre - 1] == b[..pre - 1];
      DropPrefix(a, b, pre - 1);
      assert a[pre - 1] == a[..pre][pre - 1] == b[pre - 1];
      assert a[pre - 1..][1..] == a[pre..] && b[pre - 1..][1..] == b[pre..];
      DropFirst(a[pre - 1..], b[pre - 1..]);
    }
  }

  lemma {:induction false} DropSuffix(a: seq<string>, b: seq<string>, suf: nat)
    requires suf <= |a| && suf <= |b| && a[|a| - suf..] == b[|b| - suf..]
    ensures Distance(a[..|a| - suf], b[..|b| - suf]) == Distance(a, b)
    decreases suf
  {
    if suf == 0 {
      assert a[..|a|] == a && b[..|b|] == b;
    } else {
      var n, m := |a| - suf, |b| - suf;
      assert a[n..][1..] == a[n + 1..] && b[m..][1..] == b[m + 1..];
      DropSuffix(a, b, suf - 1);
      assert a[n] == a[n..][0] == b[m];
      assert a[..n + 1][..n] == a[..n] && b[..m + 1][..m] == b[..m];
      DropLast(a[..n + 1], b[..m + 1]);
    }
  }

  // ----- scripts grow at the end

  lemma {:induction false} SideAppend(s: seq<DiffLine>, t: seq<DiffLine>, absent: Op)
    ensures Side(s + t, absent) == Side(s, absent) + Side(t, absent)
  {
    if s == [] {
      assert s + t == t;
    } else {
      assert (s + t)[1..] == s[1..] + t;
      SideAppend(s[1..], t, absent);
    }
  }

  lemma {:induction false} EditsAppend(s: seq<DiffLine>, t: seq<DiffLine>)
    ensures Edits(s + t) == Edits(s) + Edits(t)
  {
    if s == [] {
      assert s + t == t;
    } else {
      assert (s + t)[1..] == s[1..] + t;
      EditsAppend(s[1..], t);
    }
  }

  lemma {:induction false} NumberedAppend(s: seq<DiffLine>, t: seq<DiffLine>, x: nat, y: nat)
    ensures Numbered(s + t, x, y) <==>
            Numbered(s, x, y) && Numbered(t, x + |OlderSide(s)|, y + |NewerSide(s)|)
  {
    if s == [] {
      assert s + t == t;
    } else {
      assert (s + t)[1..] == s[1..] + t && (s + t)[0] == s[0];
      NumberedAppend(s[1..], t, if s[0].op == Ins then x else x + 1, if s[0].op == Del then y else y + 1);
    }
  }

  /** A script so far: it spells the two given texts, counts from 1, has the given number of edits and no marks. */
  ghost predicate Written(s: seq<DiffLine>, older: seq<string>, newer: seq<string>, edits: nat) {
    && OlderSide(s) == older && NewerSide(s) == newer && Numbered(s, 0, 0)
    && Edits(s) == edits && Unmarked(s)
  }

  /** One more line at the end of a script. */
  lemma {:induction false} WriteLine(s: seq<DiffLine>, older: seq<string>, newer: seq<string>, edits: nat, l: DiffLine)
    requires Written(s, older, newer, edits) && !l.ignored
    requires l.a == if l.op == Ins then 0 else |older| + 1
    requires l.b == if l.op == Del then 0 else |newer| + 1
    ensures Written(s + [l], if l.op == Ins then older else older + [l.text],
                    if l.op == Del then newer else newer + [l.text], if l.op == Keep then edits else edits + 1)
  {
    SideAppend(s, [l], Ins);
    SideAppend(s, [l], Del);
    EditsAppend(s, [l]);
    NumberedAppend(s, [l], 0, 0);
  }

  /** The line numbers of a script, read off its parts. */
  lemma {:induction false} NumberAt(s: seq<DiffLine>, x: nat, y: nat, i: nat)
    requires i < |s| && Numbered(s, x, y)
    ensures s[i].a == if s[i].op == Ins then 0 else x + |OlderSide(s[..i])| + 1
    ensures s[i].b == if s[i].op == Del then 0 else y + |NewerSide(s[..i])| + 1
  {
    assert s == s[..i] + s[i..];
    NumberedAppend(s[..i], s[i..], x, y);
  }

  lemma {:induction false} TakeOne(s: seq<DiffLine>, i: nat)
    requires i < |s|
    ensures OlderSide(s[..i + 1]) == OlderSide(s[..i]) + (if s[i].op == Ins then [] else [s[i].text])
    ensures NewerSide(s[..i + 1]) == NewerSide(s[..i]) + (if s[i].op == Del then [] else [s[i].text])
    ensures Edits(s[..i + 1]) == Edits(s[..i]) + (if s[i].op == Keep then 0 else 1)
  {
    assert s[..i + 1] == s[..i] + [s[i]];
    SideAppend(s[..i], [s[i]], Ins);
    SideAppend(s[..i], [s[i]], Del);
    EditsAppend(s[..i], [s[i]]);
  }

  // ----- the script of two whole texts

  method CommonPrefix(a: seq<string>, b: seq<string>) returns (pre: nat)
    ensures pre <= |a| && pre <= |b| && a[..pre] == b[..pre]
    ensures pre < |a| && pre < |b| ==> a[pre] != b[pre]
  {
    pre := 0;
    while pre < |a| && pre < |b| && a[pre] == b[pre]
      invariant pre <= |a| && pre <= |b| && a[..pre] == b[..pre]
    {
      pre := pre + 1;
    }
  }

  method CommonSuffix(a: seq<string>, b: seq<string>, pre: nat) returns (suf: nat)
    requires pre <= |a| && pre <= |b|
    ensures suf <= |a| - pre && suf <= |b| - pre && a[|a| - suf..] == b[|b| - suf..]
    ensures suf < |a| - pre && suf < |b| - pre ==> a[|a| - 1 - suf] != b[|b| - 1 - suf]
  {
    suf := 0;
    while suf < |a| - pre && suf < |b| - pre && a[|a| - 1 - suf] == b[|b| - 1 - suf]
      invariant suf <= |a| - pre && suf <= |b| - pre && a[|a| - suf..] == b[|b| - suf..]
    {
      assert a[|a| - 1 - suf..] == [a[|a| - 1 - suf]] + a[|a| - suf..];
      assert b[|b| - 1 - suf..] == [b[|b| - 1 - suf]] + b[|b| - suf..];
      suf := suf + 1;
    }
  }

  /** count equal lines from line x of the one text and line y of the other, as context. */
  method AppendEqual(out: seq<DiffLine>, a: seq<string>, x: nat, y: nat, count: nat,
                     ghost older: seq<string>, ghost newer: seq<string>, ghost edits: nat)
    returns (out': seq<DiffLine>)
    requires x + count <= |a| && Written(out, older, newer, edits) && |older| == x && |newer| == y
    ensures Written(out', older + a[x..x + count], newer + a[x..x + count], edits)
  {
    out' := out;
    assert older + a[x..x] == older && newer + a[x..x] == newer;
    for i := 0 to count
      invariant Written(out', older + a[x..x + i], newer + a[x..x + i], edits)
    {
      var l := KeepLine(x + i, y + i, a[x + i]);
      WriteLine(out', older + a[x..x + i], newer + a[x..x + i], edits, l);
      assert older + a[x..x + i] + [l.text] == older + a[x..x + i + 1];
      assert newer + a[x..x + i] + [l.text] == newer + a[x..x + i + 1];
      out' := out' + [l];
    }
  }

  /** The lines of a script of the middle, renumbered to follow pre equal lines. */
  method AppendShifted(out: seq<DiffLine>, mid: seq<DiffLine>, pre: nat,
                       ghost head: seq<string>, ghost midA: seq<string>, ghost midB: seq<string>)
    returns (out': seq<DiffLine>)
    requires Written(out, head, head, 0) && |head| == pre
    requires Rebuilds(mid, midA, midB) && Unmarked(mid)
    ensures Written(out', head + midA, head + midB, Edits(mid))
  {
    out' := out;
    assert mid[..0] == [] && head + [] == head;
    for i := 0 to |mid|
      invariant Written(out', head + OlderSide(mid[..i]), head + NewerSide(mid[..i]), Edits(mid[..i]))
    {
      var l := mid[i];
      NumberAt(mid, 0, 0, i);
      TakeOne(mid, i);
      if l.a > 0 {
        l := l.(a := l.a + pre);
      }
      if l.b > 0 {
        l := l.(b := l.b + pre);
      }
      WriteLine(out', head + OlderSide(mid[..i]), head + NewerSide(mid[..i]), Edits(mid[..i]), l);
      assert head + OlderSide(mid[..i]) + [l.text] == head + (OlderSide(mid[..i]) + [l.text]);
      assert head + NewerSide(mid[..i]) + [l.text] == head + (NewerSide(mid[..i]) + [l.text]);
      out' := out' + [l];
    }
    assert mid[..|mid|] == mid;
  }

  /** The two texts as the pieces they are cut into. */
  lemma {:induction false} Pieces(a: seq<string>, b: seq<string>, pre: nat, suf: nat)
    requires pre + suf <= |a| && pre + suf <= |b| && a[..pre] == b[..pre] && a[|a| - suf..] == b[|b| - suf..]
    ensures [] + a[0..pre] == a[..pre] && |a[..pre] + a[pre..|a| - suf]| == |a| - suf
    ensures |a[..pre] + b[pre..|b| - suf]| == |b| - suf
    ensures a[..pre] + a[pre..|a| - suf] + a[|a| - suf..|a| - suf + suf] == a
    ensures a[..pre] + b[pre..|b| - suf] + a[|a| - suf..|a| - suf + suf] == b
  {
    assert a[|a| - suf..|a| - suf + suf] == b[|b| - suf..];
  }

  /** The script of the whole texts around that of their middle. */
  method Assemble(a: seq<string>, b: seq<string>, pre: nat, suf: nat, mid: seq<DiffLine>) returns (out: seq<DiffLine>)
    requires pre + suf <= |a| && pre + suf <= |b| && a[..pre] == b[..pre] && a[|a| - suf..] == b[|b| - suf..]
    requires Rebuilds(mid, a[pre..|a| - suf], b[pre..|b| - suf]) && Unmarked(mid)
    ensures Written(out, a, b, Edits(mid))
  {
    ghost var midA, midB := a[pre..|a| - suf], b[pre..|b| - suf];
    Pieces(a, b, pre, suf);
    out := AppendEqual([], a, 0, 0, pre, [], [], 0);
    out := AppendShifted(out, mid, pre, a[..pre], midA, midB);
    out := AppendEqual(out, a, |a| - suf, |b| - suf, suf, a[..pre] + midA, a[..pre] + midB, Edits(mid));
  }

  lemma {:induction false} WrittenIsShortest(s: seq<DiffLine>, a: seq<string>, b: seq<string>)
    requires Written(s, a, b, Distance(a, b))
    ensures Shortest(s, a, b) && Edits(s) == Distance(a, b) && Unmarked(s)
  {
    DistanceIsShortest(s, a, b);
  }

  /** The line-level edit script from a to b: shortest for the whole texts, or refused beyond the bound. */
  method EditScript(a: seq<string>, b: seq<string>) returns (r: ScriptResult)
    ensures r.TooDifferent? <==> Distance(a, b) > MAX_DIFF_EDITS
    ensures r.Script? ==> Shortest(r.lines, a, b) && Edits(r.lines) == Distance(a, b) && Unmarked(r.lines)
  {
    var pre := CommonPrefix(a, b);
    var suf := CommonSuffix(a, b, pre);
    var midA, midB := a[pre..|a| - suf], b[pre..|b| - suf];
    TrimKeepsDistance(a, b, pre, suf);
    var mid := Search(midA, midB);
    if mid.TooDifferent? {
      return TooDifferent;
    }
    var out := Assemble(a, b, pre, suf, mid.lines);
    WrittenIsShortest(out, a, b);
    r := Script(out);
  }

  /** Cutting a common prefix and suffix off both texts leaves their distance as it is. */
  lemma {:induction false} TrimKeepsDistance(a: seq<string>, b: seq<string>, pre: nat, suf: nat)
    requires pre + suf <= |a| && pre + suf <= |b|
    requires a[..pre] == b[..pre] && a[|a| - suf..] == b[|b| - suf..]
    ensures Distance(a[pre..|a| - suf], b[pre..|b| - suf]) == Distance(a, b)
  {
    DropPrefix(a, b, pre);
    var a', b' := a[pre..], b[pre..];
    assert a'[|a'| - suf..] == a[|a| - suf..] && b'[|b'| - suf..] == b[|b| - suf..];
    DropSuffix(a', b', suf);
    assert a'[..|a'| - suf] == a[pre..|a| - suf] && b'[..|b'| - suf] == b[pre..|b| - suf];
  }
}
