/**
 The unchanged lines of a shortest script are a longest common subsequence of
 the two texts.
 */
module CommonLines {
  import opened EditGraph

  ghost predicate Subsequence(s: seq<string>, of: seq<string>) {
    if s == [] then true
    else if of == [] then false
    else (s[0] == of[0] && Subsequence(s[1..], of[1..])) || Subsequence(s, of[1..])
  }

  function Kept(s: seq<DiffLine>): seq<string> {
    if s == [] then []
    else (if s[0].op == Keep then [s[0].text] else []) + Kept(s[1..])
  }

  lemma {:induction false} KeptCount(s: seq<DiffLine>)
    ensures |OlderSide(s)| + |NewerSide(s)| == Edits(s) + 2 * |Kept(s)|
  {
    if s != [] {
      KeptCount(s[1..]);
    }
  }

  lemma {:induction false} KeptIsCommon(s: seq<DiffLine>)
    ensures Subsequence(Kept(s), OlderSide(s))
    ensures Subsequence(Kept(s), NewerSide(s))
  {
    if s != [] {
      KeptIsCommon(s[1..]);
      var older, newer := OlderSide(s), NewerSide(s);
      match s[0].op
      case Keep =>
        assert older[1..] == OlderSide(s[1..]) && newer[1..] == NewerSide(s[1..]);
        assert Kept(s)[1..] == Kept(s[1..]);
      case Del =>
        assert older[1..] == OlderSide(s[1..]) && newer == NewerSide(s[1..]);
        assert Kept(s) == Kept(s[1..]);
      case Ins =>
        assert newer[1..] == NewerSide(s[1..]) && older == OlderSide(s[1..]);
        assert Kept(s) == Kept(s[1..]);
    }
  }

  /** Any common subsequence is what some walk keeps. */
  lemma {:induction false} WalkKeeping(c: seq<string>, a: seq<string>, b: seq<string>, x: nat,
                                       y: nat) returns (s: seq<DiffLine>)
    requires x <= |a| && y <= |b|
    requires Subsequence(c, a[x..]) && Subsequence(c, b[y..])
    ensures Path(s, a, b, x, y) && Edits(s) + 2 * |c| == (|a| - x) + (|b| - y)
    decreases |a| - x + |b| - y
  {
    if x < |a| && (c == [] || !(a[x] == c[0] && Subsequence(c[1..], a[x..][1..]))) {
      assert a[x..][1..] == a[x + 1..];
      var rest := WalkKeeping(c, a, b, x + 1, y);
      s := [DelLine(x, a[x])] + rest;
      assert s[1..] == rest;
    } else if y < |b| && (c == [] || !(b[y] == c[0] && Subsequence(c[1..], b[y..][1..]))) {
      assert b[y..][1..] == b[y + 1..];
      var rest := WalkKeeping(c, a, b, x, y + 1);
      s := [InsLine(y, b[y])] + rest;
      assert s[1..] == rest;
    } else if c == [] {
      s := [];
    } else {
      assert a[x..][1..] == a[x + 1..] && b[y..][1..] == b[y + 1..];
      var rest := WalkKeeping(c[1..], a, b, x + 1, y + 1);
      s := [KeepLine(x, y, a[x])] + rest;
      assert s[1..] == rest;
    }
  }

  /** The unchanged lines of a shortest script are a longest common subsequence of the two texts. */
  lemma {:induction false} ShortestKeepsLongest(s: seq<DiffLine>, a: seq<string>, b: seq<string>)
    requires Shortest(s, a, b)
    ensures Subsequence(Kept(s), a) && Subsequence(Kept(s), b)
    ensures forall c :: Subsequence(c, a) && Subsequence(c, b) ==> |c| <= |Kept(s)|
    ensures Edits(s) == |a| + |b| - 2 * |Kept(s)|
  {
    KeptCount(s);
    KeptIsCommon(s);
    forall c | Subsequence(c, a) && Subsequence(c, b)
      ensures |c| <= |Kept(s)|
    {
      assert a[0..] == a && b[0..] == b;
      var other := WalkKeeping(c, a, b, 0, 0);
      PathIffRebuilds(other, a, b);
    }
  }
}
