/**
 Names from outside as parts of paths, such as capture types and file names: what
 filepath.Join makes of any name, and what element (internal/capture/browse.go)
 and Spec.Validate (internal/capture/spec.go) let through.

 A path is the list of its elements, from the root of the file system down.
 */
module PathElements {
  import opened Slugs

  type Path = seq<string>

  datatype ElementResult = Element(name: string) | NotAnElement

  // ----- joining

  /** Windows has two separators. */
  predicate Separates(c: char, windows: bool) {
    c == '/' || (windows && c == '\\')
  }

  /** A name cut at its separators. */
  function Pieces(name: string, windows: bool): (parts: seq<string>)
    ensures parts != []
  {
    if name == "" then [""]
    else
      var rest := Pieces(name[1..], windows);
      if Separates(name[0], windows) then [""] + rest else [[name[0]] + rest[0]] + rest[1..]
  }

  /** One piece taken from a path: nothing for an empty one or a dot, one up for two dots. */
  function Taken(at: Path, piece: string): Path {
    if piece == "" || piece == "." then at
    else if piece == ".." then (if at == [] then [] else at[..|at| - 1])
    else at + [piece]
  }

  function Walk(at: Path, pieces: seq<string>): Path
    decreases |pieces|
  {
    if pieces == [] then at else Walk(Taken(at, pieces[0]), pieces[1..])
  }

  /** The cleaned path of a name joined to a directory. */
  function Join(at: Path, name: string, windows: bool): Path {
    Walk(at, Pieces(name, windows))
  }

  predicate Whole(name: string, windows: bool) {
    forall i | 0 <= i < |name| :: !Separates(name[i], windows)
  }

  predicate OneElementOn(n: string, windows: bool) {
    n != "" && n != "." && n != ".." && Whole(n, windows)
  }

  /** One path element on every system. */
  predicate OneElement(n: string) {
    OneElementOn(n, true)
  }

  lemma {:induction false} PiecesWhole(name: string, windows: bool)
    ensures forall p | p in Pieces(name, windows) :: Whole(p, windows)
    ensures Whole(name, windows) ==> Pieces(name, windows) == [name]
  {
    if name != "" {
      PiecesWhole(name[1..], windows);
      var rest := Pieces(name[1..], windows);
      assert rest[0] in rest && forall p | p in rest[1..] :: p in rest;
      assert Whole(name, windows) ==> Whole(name[1..], windows);
      if !Separates(name[0], windows) {
        assert Whole([name[0]] + rest[0], windows);
        assert name == [name[0]] + name[1..];
      }
    }
  }

  /** The first piece ends at the first separator. */
  lemma {:induction false} FirstPiece(name: string, rest: string, windows: bool)
    requires Whole(name, windows)
    ensures Pieces(name + "/" + rest, windows) == [name] + Pieces(rest, windows)
  {
    var all := name + "/" + rest;
    if name == "" {
      assert all[1..] == rest;
    } else {
      FirstPiece(name[1..], rest, windows);
      assert all[0] == name[0] && all[1..] == name[1..] + "/" + rest;
      assert name == [name[0]] + name[1..];
      assert ([name[1..]] + Pieces(rest, windows))[1..] == Pieces(rest, windows);
    }
  }

  /** From the n-th element on, a walk leaves only pieces it took. */
  lemma {:induction false} WalkTakes(at: Path, pieces: seq<string>, n: nat, windows: bool)
    requires forall p | p in pieces :: Whole(p, windows)
    requires forall i | n <= i < |at| :: Whole(at[i], windows)
    ensures forall i | n <= i < |Walk(at, pieces)| :: Whole(Walk(at, pieces)[i], windows)
    decreases |pieces|
  {
    if pieces != [] {
      assert pieces[0] in pieces && forall p | p in pieces[1..] :: p in pieces;
      WalkTakes(Taken(at, pieces[0]), pieces[1..], n, windows);
    }
  }

  /** A name joined to a directory is an entry of that directory, under that name, exactly if it is one element. */
  lemma {:induction false} JoinIsEntry(at: Path, name: string, windows: bool)
    ensures Join(at, name, windows) == at + [name] <==> OneElementOn(name, windows)
  {
    PiecesWhole(name, windows);
    var joined := Join(at, name, windows);
    if Whole(name, windows) {
      assert Walk(at, [name]) == Walk(Taken(at, name), []) by {
        assert [name][1..] == [];
      }
      assert |joined| == |at| + 1 <==> OneElementOn(name, windows);
    } else {
      WalkTakes(at, Pieces(name, windows), |at|, windows);
      assert |joined| > |at| ==> Whole(joined[|at|], windows);
    }
  }

  // ----- what element lets through

  function AsElement(name: string, u: Unicode): ElementResult {
    var n := Trim(name, u.space);
    if OneElement(n) then Element(n) else NotAnElement
  }

  /**
   A name is let through exactly if, trimmed, it has no separator of any system and
   is not empty, a dot or two dots.
  */
  lemma {:induction false} ElementExactly(name: string, u: Unicode)
    ensures var n := Trim(name, u.space);
            if n != "" && n != "." && n != ".." && '/' !in n && '\\' !in n then AsElement(name, u) == Element(n)
            else AsElement(name, u) == NotAnElement
  {
    var n := Trim(name, u.space);
    forall i | 0 <= i < |n|
      ensures n[i] in n
    {
    }
  }

  /** What element lets through is an entry of the directory it is joined to, on every system. */
  lemma {:induction false} ElementStaysInside(name: string, u: Unicode, at: Path, windows: bool)
    requires AsElement(name, u).Element?
    ensures var n := AsElement(name, u).name;
            && '/' !in n && '\\' !in n && AsElement(n, u) == Element(n)
            && Join(at, n, windows) == at + [n]
  {
    var n := AsElement(name, u).name;
    TrimShape(name, u.space);
    TrimNothing(n, u.space);
    JoinIsEntry(at, n, windows);
  }

  /** Graphic names without separators, such as slugs and the names of capture files, are elements. */
  lemma {:induction false} GraphicIsElement(s: string, u: Unicode)
    requires s != "" && s != "." && s != ".." && Sane(u)
    requires forall i | 0 <= i < |s| :: Graphic(s[i]) && !Separates(s[i], true)
    ensures AsElement(s, u) == Element(s)
  {
    TrimNothing(s, u.space);
  }

  lemma {:induction false} SlugIsElement(name: string, u: Unicode)
    requires Sane(u) && Slug(name, u).Slugged?
    ensures AsElement(Slug(name, u).slug, u) == Element(Slug(name, u).slug)
  {
    SlugIsShaped(name, u);
    var s := Slug(name, u).slug;
    forall i | 0 <= i < |s| ensures Graphic(s[i]) && !Separates(s[i], true) {
      assert s[i] in s;
    }
    GraphicIsElement(s, u);
  }

  /** Every character trimming takes off is white space. */
  lemma {:induction false} TrimTakesSpace(s: string, cut: char -> bool)
    ensures forall c | c in s :: c in Trim(s, cut) || cut(c)
  {
    TrimLeftTakes(s, cut);
    TrimRightIs(TrimLeft(s, cut), cut);
    var l, t := TrimLeft(s, cut), Trim(s, cut);
    forall c | c in l
      ensures c in t || cut(c)
    {
      var i :| 0 <= i < |l| && l[i] == c;
      assert i < |t| ==> t[i] == c;
    }
  }

  lemma {:induction false} TrimLeftTakes(s: string, cut: char -> bool)
    ensures forall c | c in s :: c in TrimLeft(s, cut) || cut(c)
  {
    if s != "" && cut(s[0]) {
      TrimLeftTakes(s[1..], cut);
      assert s == [s[0]] + s[1..];
    }
  }

  /**
   A reader looks where element says, a writer where the name itself leads: they
   meet exactly if element lets the name through as it is.
   */
  lemma {:induction false} ReaderMeetsWriter(at: Path, name: string, u: Unicode, windows: bool)
    requires Sane(u)
    ensures AsElement(name, u).Element? && Join(at, AsElement(name, u).name, windows) == Join(at, name, windows)
            <==> AsElement(name, u) == Element(name)
  {
    var n := Trim(name, u.space);
    if OneElement(n) && n != name {
      TrimTakesSpace(name, u.space);
      assert forall i | 0 <= i < |name| :: name[i] in name;
      assert !u.space('/') && !u.space('\\') && !u.space('.');
      assert Whole(name, true) by {
        forall i | 0 <= i < |name|
          ensures !Separates(name[i], true)
        {
          assert name[i] in n || u.space(name[i]);
        }
      }
      DotsAreNotTrimmed(name, u);
      JoinIsEntry(at, n, windows);
      JoinIsEntry(at, name, windows);
      assert (at + [n])[|at|] != (at + [name])[|at|];
    }
  }

  lemma {:induction false} DotsAreNotTrimmed(name: string, u: Unicode)
    requires Sane(u) && Trim(name, u.space) != name
    ensures name != "" && name != "." && name != ".."
  {
    if name == "." || name == ".." {
      TrimNothing(name, u.space);
    }
  }

  // ----- what Validate lets through

  predicate TypeStart(c: char) {
    'a' <= c <= 'z' || '0' <= c <= '9'
  }

  /** A type name: a letter or digit, then up to 63 letters, digits, dots, underscores and dashes. */
  predicate SafeType(typ: string) {
    1 <= |typ| <= 64 && TypeStart(typ[0]) && forall i | 1 <= i < |typ| :: Safe(typ[i])
  }

  /** A type that Validate accepts is one element, and element lets it through as it is. */
  lemma {:induction false} SafeTypeIsElement(typ: string, u: Unicode)
    requires SafeType(typ) && Sane(u)
    ensures OneElement(typ) && AsElement(typ, u) == Element(typ)
  {
    assert typ[0] != '.';
    GraphicIsElement(typ, u);
  }
}
