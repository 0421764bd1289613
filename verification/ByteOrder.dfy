/** The byte order of strings: how directories are listed and names are sorted. */
module ByteOrder {

  /** Whether s comes before t byte by byte. */
  predicate Before(s: string, t: string) {
    t != "" && (s == "" || s[0] < t[0] || (s[0] == t[0] && Before(s[1..], t[1..])))
  }

  lemma {:induction false} NotBothBefore(s: string, t: string)
    ensures !(Before(s, t) && Before(t, s))
  {
    if s != "" && t != "" {
      NotBothBefore(s[1..], t[1..]);
    }
  }

  lemma {:induction false} BeforeAfterPrefix(p: string, s: string, t: string)
    ensures Before(p + s, p + t) <==> Before(s, t)
  {
    if p == "" {
      assert p + s == s && p + t == t;
    } else {
      assert (p + s)[1..] == p[1..] + s && (p + t)[1..] == p[1..] + t;
      BeforeAfterPrefix(p[1..], s, t);
    }
  }

  lemma {:induction false} BeforeTotal(s: string, t: string)
    ensures s == t || Before(s, t) || Before(t, s)
  {
    if s != "" && t != "" && s[0] == t[0] {
      BeforeTotal(s[1..], t[1..]);
      assert s == [s[0]] + s[1..] && t == [t[0]] + t[1..];
    }
  }

  lemma {:induction false} BeforeTransitive(s: string, t: string, u: string)
    requires Before(s, t) && Before(t, u)
    ensures Before(s, u)
  {
    if s != "" && s[0] == t[0] && t[0] == u[0] {
      BeforeTransitive(s[1..], t[1..], u[1..]);
    }
  }

  predicate Sorted(s: seq<string>) {
    forall i | 0 < i < |s| :: s[i - 1] == s[i] || Before(s[i - 1], s[i])
  }

  function Insert(x: string, s: seq<string>): seq<string> {
    if s == [] then [x] else if Before(s[0], x) then [s[0]] + Insert(x, s[1..]) else [x] + s
  }

  function Sort(s: seq<string>): seq<string> {
    if s == [] then [] else Insert(s[0], Sort(s[1..]))
  }

  lemma {:induction false} InsertKeeps(x: string, s: seq<string>)
    ensures multiset(Insert(x, s)) == multiset(s) + multiset{x}
    ensures Sorted(s) ==> Sorted(Insert(x, s))
  {
    if s != [] && Before(s[0], x) {
      InsertKeeps(x, s[1..]);
      assert s == [s[0]] + s[1..];
      if Sorted(s) {
        TailSorted(s);
        var t := Insert(x, s[1..]);
        assert t[0] == x || (|s| > 1 && t[0] == s[1]);
        ConsSorted(s[0], t);
      }
    } else if s != [] {
      BeforeTotal(s[0], x);
      ConsSorted(x, s);
    }
  }

  lemma {:induction false} TailSorted(s: seq<string>)
    requires s != [] && Sorted(s)
    ensures Sorted(s[1..])
  {
    forall i | 0 < i < |s[1..]|
      ensures s[1..][i - 1] == s[1..][i] || Before(s[1..][i - 1], s[1..][i])
    {
      assert s[i] == s[i + 1] || Before(s[i], s[i + 1]);
    }
  }

  lemma {:induction false} ConsSorted(x: string, s: seq<string>)
    requires s != [] && (x == s[0] || Before(x, s[0]))
    ensures Sorted(s) ==> Sorted([x] + s)
  {
    var t := [x] + s;
    forall i | Sorted(s) && 0 < i < |t|
      ensures t[i - 1] == t[i] || Before(t[i - 1], t[i])
    {
      if i > 1 {
        assert s[i - 2] == s[i - 1] || Before(s[i - 2], s[i - 1]);
      }
    }
  }

  lemma {:induction false} SortKeeps(s: seq<string>)
    ensures Sorted(Sort(s)) && multiset(Sort(s)) == multiset(s)
  {
    if s != [] {
      SortKeeps(s[1..]);
      InsertKeeps(s[0], Sort(s[1..]));
      assert s == [s[0]] + s[1..];
    }
  }

  lemma {:induction false} SortSameElements(s: seq<string>)
    ensures forall x :: x in Sort(s) <==> x in s
  {
    SortKeeps(s);
    assert forall x :: x in Sort(s) <==> x in multiset(Sort(s));
  }
}
