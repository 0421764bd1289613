/**
 The whole store: device directories, whose device.json says which device they
 belong to (FileStore.Put, mergeDeviceInfo and mergeStrings of
 internal/capture/store.go).

 A Put slugs the device's name and joins the capture type to the device's
 directory as it is, so where a capture goes is the cleaned path of the two.
 */
module DeviceStore {
  import opened ByteOrder
  import opened PathElements
  import opened Slugs
  import opened StoreModel
  import opened StoreTheorems
  import opened Wrappers

  datatype DeviceInfo = DeviceInfo(canonical: string, aliases: seq<string>,
                                    platform: string, firstSeen: nat, lastSeen: nat)

  // The directories that hold captures, by path, and each device directory's device.json, by its slug.
  datatype Store = Store(dirs: map<Path, Dir>, infos: map<string, DeviceInfo>)

  // Where the store is.
  datatype Root = Root(path: Path, windows: bool)

  datatype PutResult = Captured(outcome: Outcome) | Refused

  // ----- aliases

  function Fold(s: string, u: Unicode): string {
    if s == "" then "" else [u.fold(s[0])] + Fold(s[1..], u)
  }

  predicate EqualFold(s: string, t: string, u: Unicode) {
    Fold(s, u) == Fold(t, u)
  }

  /** Names are equal up to case rune by rune. */
  lemma {:induction false} EqualFoldIs(s: string, t: string, u: Unicode)
    ensures EqualFold(s, t, u) <==> |s| == |t| && forall i | 0 <= i < |s| :: u.fold(s[i]) == u.fold(t[i])
  {
    FoldAt(s, u);
    FoldAt(t, u);
    if |s| == |t| && forall i | 0 <= i < |s| :: u.fold(s[i]) == u.fold(t[i]) {
      assert Fold(s, u) == Fold(t, u);
    }
    if EqualFold(s, t, u) {
      assert forall i | 0 <= i < |s| :: Fold(s, u)[i] == Fold(t, u)[i];
    }
  }

  lemma {:induction false} FoldAt(s: string, u: Unicode)
    ensures |Fold(s, u)| == |s| && forall i | 0 <= i < |s| :: Fold(s, u)[i] == u.fold(s[i])
  {
    if s != "" {
      FoldAt(s[1..], u);
    }
  }

  function AliasKey(v: string, u: Unicode): string {
    Lower(Trim(v, u.space), u)
  }

  /** The aliases of a list, up to case and surrounding space. */
  function AliasKeys(s: seq<string>, u: Unicode): set<string> {
    set v | v in s && Trim(v, u.space) != "" :: AliasKey(v, u)
  }

  /** What the merging loop keeps of a list: the first spelling of every alias. */
  function FirstSpellings(s: seq<string>, u: Unicode): seq<string> {
    if s == [] then []
    else
      var before, v := FirstSpellings(s[..|s| - 1], u), Trim(s[|s| - 1], u.space);
      if v == "" || Lower(v, u) in AliasKeys(s[..|s| - 1], u) then before else before + [v]
  }

  function MergedStrings(a: seq<string>, b: seq<string>, u: Unicode): seq<string> {
    Sort(FirstSpellings(a + b, u))
  }

  lemma {:induction false} KeysGrow(s: seq<string>, v: string, u: Unicode)
    ensures AliasKeys(s + [v], u) == AliasKeys(s, u) + (if Trim(v, u.space) == "" then {} else {AliasKey(v, u)})
  {
  }

  lemma {:induction false} OneMoreSpelling(all: seq<string>, i: nat, u: Unicode)
    requires i < |all|
    ensures var v, seen, out := Trim(all[i], u.space), AliasKeys(all[..i], u), FirstSpellings(all[..i], u);
            if v != "" && Lower(v, u) !in seen
            then AliasKeys(all[..i + 1], u) == seen + {Lower(v, u)} && FirstSpellings(all[..i + 1], u) == out + [v]
            else AliasKeys(all[..i + 1], u) == seen && FirstSpellings(all[..i + 1], u) == out
  {
    assert all[..i + 1] == all[..i] + [all[i]] && all[..i + 1][..i] == all[..i];
    KeysGrow(all[..i], all[i], u);
  }

  /** Merges two lists of aliases. */
  method MergeStrings(a: seq<string>, b: seq<string>, u: Unicode) returns (out: seq<string>)
    ensures out == MergedStrings(a, b, u)
  {
    var all := a + b;
    var seen := {};
    out := [];
    for i := 0 to |all|
      invariant seen == AliasKeys(all[..i], u) && out == FirstSpellings(all[..i], u)
    {
      OneMoreSpelling(all, i, u);
      var v := Trim(all[i], u.space);
      if v != "" && Lower(v, u) !in seen {
        seen := seen + {Lower(v, u)};
        out := out + [v];
      }
    }
    assert all[..|all|] == all;
    out := Sort(out);
  }

  lemma {:induction false} TrimTwice(s: string, cut: char -> bool)
    ensures Trim(Trim(s, cut), cut) == Trim(s, cut)
  {
    TrimShape(s, cut);
    TrimNothing(Trim(s, cut), cut);
  }

  lemma {:induction false} SpellingsKeys(s: seq<string>, u: Unicode)
    ensures AliasKeys(FirstSpellings(s, u), u) == AliasKeys(s, u)
  {
    if s != [] {
      var n := |s| - 1;
      SpellingsKeys(s[..n], u);
      assert s == s[..n] + [s[n]];
      KeysGrow(s[..n], s[n], u);
      TrimTwice(s[n], u.space);
      KeysGrow(FirstSpellings(s[..n], u), Trim(s[n], u.space), u);
    }
  }

  /** No alias is spelled twice. */
  ghost predicate Distinct(s: seq<string>, u: Unicode) {
    forall i, j | 0 <= i < j < |s| :: AliasKey(s[i], u) != AliasKey(s[j], u)
  }

  lemma {:induction false} SpellingsDistinct(s: seq<string>, u: Unicode)
    ensures Distinct(FirstSpellings(s, u), u)
    ensures forall v | v in FirstSpellings(s, u) ::
              v != "" && Trim(v, u.space) == v && AliasKey(v, u) in AliasKeys(s, u)
  {
    if s != [] {
      var n := |s| - 1;
      SpellingsDistinct(s[..n], u);
      assert s == s[..n] + [s[n]];
      KeysGrow(s[..n], s[n], u);
      TrimTwice(s[n], u.space);
      SpellingsKeys(s[..n], u);
      var before := FirstSpellings(s[..n], u);
      assert forall i | 0 <= i < |before| :: before[i] in before;
    }
  }

  /** Whether an alias is spelled the way a list first spells it. */
  ghost predicate FirstSpelled(s: seq<string>, v: string, u: Unicode) {
    exists i | 0 <= i < |s| ::
      Trim(s[i], u.space) == v && forall j | 0 <= j < i && Trim(s[j], u.space) != "" :: AliasKey(s[j], u) != Lower(v, u)
  }

  lemma {:induction false} FirstSpelledStays(s: seq<string>, n: nat, v: string, u: Unicode)
    requires n <= |s| && FirstSpelled(s[..n], v, u)
    ensures FirstSpelled(s, v, u)
  {
    var i :| 0 <= i < n && Trim(s[..n][i], u.space) == v
             && forall j | 0 <= j < i && Trim(s[..n][j], u.space) != "" :: AliasKey(s[..n][j], u) != Lower(v, u);
    assert s[..n][i] == s[i] && forall j | 0 <= j < i :: s[..n][j] == s[j];
  }

  /** Each alias keeps the spelling it first had. */
  lemma {:induction false} SpellingsAreFirst(s: seq<string>, v: string, u: Unicode)
    requires v in FirstSpellings(s, u)
    ensures FirstSpelled(s, v, u)
  {
    var n := |s| - 1;
    if v in FirstSpellings(s[..n], u) {
      SpellingsAreFirst(s[..n], v, u);
      FirstSpelledStays(s, n, v, u);
    } else {
      assert forall j | 0 <= j < n :: s[..n][j] == s[j] && s[j] in s[..n];
    }
  }

  /** Merging loses no alias, adds none, leaves each once as it was first spelled, and sorts them. */
  lemma {:induction false} MergedAliases(a: seq<string>, b: seq<string>, u: Unicode)
    ensures AliasKeys(MergedStrings(a, b, u), u) == AliasKeys(a, u) + AliasKeys(b, u)
    ensures |MergedStrings(a, b, u)| == |FirstSpellings(a + b, u)| && Distinct(FirstSpellings(a + b, u), u)
    ensures Sorted(MergedStrings(a, b, u))
    ensures multiset(MergedStrings(a, b, u)) == multiset(FirstSpellings(a + b, u))
    ensures forall v | v in MergedStrings(a, b, u) :: FirstSpelled(a + b, v, u)
  {
    var s := FirstSpellings(a + b, u);
    SpellingsKeys(a + b, u);
    SpellingsDistinct(a + b, u);
    SortKeeps(s);
    SortSameElements(s);
    assert |multiset(Sort(s))| == |multiset(s)|;
    assert AliasKeys(a + b, u) == AliasKeys(a, u) + AliasKeys(b, u);
    forall v | v in Sort(s)
      ensures FirstSpelled(a + b, v, u)
    {
      assert multiset(Sort(s))[v] > 0;
      SpellingsAreFirst(a + b, v, u);
    }
  }

  // ----- device.json

  /** What device.json becomes; nothing when the directory is another device's. */
  function MergedInfo(existing: Option<DeviceInfo>, dev: DeviceInfo, at: nat, u: Unicode): Option<DeviceInfo> {
    match existing
    case None => Some(DeviceInfo(dev.canonical, dev.aliases, dev.platform, at, at))
    case Some(was) =>
      if !EqualFold(was.canonical, dev.canonical, u) then None
      else Some(DeviceInfo(was.canonical, MergedStrings(was.aliases, dev.aliases, u),
                           if dev.platform == "" then was.platform else dev.platform, was.firstSeen, at))
  }

  // ----- Put on the whole store

  // One attempt: the device as this visit knows it, the capture type, whether its directory can be made
  // and device.json written, and the capture with the file steps that happen.
  datatype Attempt = Attempt(dev: DeviceInfo, typ: string, made: bool, infoWritten: bool, put: Op)

  function DevicePath(root: Root, slug: string): Path {
    root.path + ["devices", slug]
  }

  /** Where a capture of a device and a type goes. */
  function TypePath(root: Root, slug: string, typ: string): Path {
    Join(DevicePath(root, slug), typ, root.windows)
  }

  function DirAt(s: Store, p: Path): Dir {
    if p in s.dirs then s.dirs[p] else EMPTY_DIR
  }

  function InfoAt(s: Store, slug: string): Option<DeviceInfo> {
    if slug in s.infos then Some(s.infos[slug]) else None
  }

  /** What the capture itself makes of its directory. */
  function PutAt(s: Store, p: Path, put: Op, sha: Bytes -> string): (Dir, Outcome)
    requires put.Put?
  {
    PutDir(DirAt(s, p), put.at, put.stamp, put.command, put.content, sha(put.content), put.keep, put.io)
  }

  /** What an attempt leaves behind. */
  function PutDevice(s: Store, a: Attempt, root: Root, sha: Bytes -> string, u: Unicode): (Store, PutResult)
    requires a.put.Put?
  {
    var slugged := Slug(a.dev.canonical, u);
    if Trim(a.typ, u.space) == "" || slugged.NoUsableCharacters? || !a.made then (s, Refused)
    else
      var slug, p := slugged.slug, TypePath(root, slugged.slug, a.typ);
      // The type's directory is made before device.json is looked at.
      var found := s.(dirs := s.dirs[p := DirAt(s, p)]);
      match MergedInfo(InfoAt(s, slug), a.dev, a.put.at, u)
      case None => (found, Refused)
      case Some(info) =>
        if !a.infoWritten then (found, Refused)
        else
          var d := PutAt(s, p, a.put, sha);
          (Store(s.dirs[p := d.0], s.infos[slug := info]), Captured(d.1))
  }

  lemma {:induction false} LastUpdateCounts(dirs: map<Path, Dir>, p: Path, x: Dir, y: Dir)
    ensures dirs[p := x][p := y] == dirs[p := y]
  {
  }

  /** The branches of an attempt, by what it is let into. */
  lemma {:induction false} AttemptBranches(s: Store, a: Attempt, root: Root, sha: Bytes -> string, u: Unicode,
                                           slug: string, p: Path)
    requires a.put.Put? && Trim(a.typ, u.space) != "" && Slug(a.dev.canonical, u) == Slugged(slug) && a.made
    requires p == TypePath(root, slug, a.typ)
    ensures var info, d := MergedInfo(InfoAt(s, slug), a.dev, a.put.at, u), PutAt(s, p, a.put, sha);
            PutDevice(s, a, root, sha, u) ==
            if info.Some? && a.infoWritten then (Store(s.dirs[p := d.0], s.infos[slug := info.value]), Captured(d.1))
            else (s.(dirs := s.dirs[p := DirAt(s, p)]), Refused)
  {
  }

  class FileStore {
    const root: Root
    var dirs: map<Path, Dir>
    var infos: map<string, DeviceInfo>

    ghost function Value(): Store
      reads this
    {
      Store(dirs, infos)
    }

    constructor (root: Root)
      ensures this.root == root && Value() == Store(map[], map[])
    {
      this.root := root;
      dirs, infos := map[], map[];
    }

    /** Writes or updates device.json; refuses a directory that is another device's. */
    method MergeDeviceInfo(slug: string, dev: DeviceInfo, at: nat, infoWritten: bool, u: Unicode) returns (ok: bool)
      modifies `infos
      ensures var merged := MergedInfo(old(InfoAt(Value(), slug)), dev, at, u);
              && (ok <==> merged.Some? && infoWritten)
              && infos == if ok then old(infos)[slug := merged.value] else old(infos)
    {
      var out := DeviceInfo(dev.canonical, dev.aliases, dev.platform, at, at);
      if slug in infos {
        var existing := infos[slug];
        if !EqualFold(existing.canonical, dev.canonical, u) {
          return false;
        }
        var aliases := MergeStrings(existing.aliases, dev.aliases, u);
        out := out.(canonical := existing.canonical, firstSeen := existing.firstSeen, aliases := aliases);
        if out.platform == "" {
          out := out.(platform := existing.platform);
        }
      }
      if !infoWritten {
        return false;
      }
      infos := infos[slug := out];
      return true;
    }

    /** Stores one capture of one device. */
    method Put(a: Attempt, sha: Bytes -> string, u: Unicode) returns (r: PutResult)
      requires a.put.Put?
      modifies this
      ensures (Value(), r) == old(PutDevice(Value(), a, root, sha, u))
    {
      if Trim(a.typ, u.space) == "" {
        return Refused;
      }
      var slugged := Slug(a.dev.canonical, u);
      if slugged.NoUsableCharacters? {
        return Refused;
      }
      var slug := slugged.slug;
      var p := TypePath(root, slug, a.typ);
      if !a.made {
        return Refused;
      }
      AttemptBranches(Value(), a, root, sha, u, slug, p);
      var was := if p in dirs then dirs[p] else EMPTY_DIR;
      dirs := dirs[p := was];
      var ok := MergeDeviceInfo(slug, a.dev, a.put.at, a.infoWritten, u);
      if !ok {
        return Refused;
      }
      var d := PutDir(was, a.put.at, a.put.stamp, a.put.command,
                      a.put.content, sha(a.put.content), a.put.keep, a.put.io);
      LastUpdateCounts(old(dirs), p, was, d.0);
      dirs := dirs[p := d.0];
      return Captured(d.1);
    }
  }

  // ----- a capture goes to its device's directory

  /** An attempt changes one directory, made from its device and its type, and one device.json. */
  lemma {:induction false} AttemptTouches(s: Store, a: Attempt, root: Root, sha: Bytes -> string, u: Unicode)
    requires a.put.Put? && PutDevice(s, a, root, sha, u).1.Captured?
    ensures var s', slug := PutDevice(s, a, root, sha, u).0, Slug(a.dev.canonical, u).slug;
            var p := TypePath(root, slug, a.typ);
            && p in s'.dirs && s'.dirs[p] == Step(DirAt(s, p), a.put, sha)
            && s'.dirs == s.dirs[p := s'.dirs[p]]
            && slug in s'.infos && s'.infos == s.infos[slug := s'.infos[slug]]
  {
  }

  lemma {:induction false} DevicesApart(root: Root, slug: string, typ: string, slug': string, typ': string)
    requires DevicePath(root, slug) + [typ] == DevicePath(root, slug') + [typ']
    ensures slug == slug' && typ == typ'
  {
    var n := |root.path|;
    assert (DevicePath(root, slug) + [typ])[n + 1] == (DevicePath(root, slug') + [typ'])[n + 1];
    assert (DevicePath(root, slug) + [typ])[n + 2] == (DevicePath(root, slug') + [typ'])[n + 2];
  }

  /**
   A capture goes to its type's own directory in its device's directory exactly
   if the type is one path element. Then it changes nothing of any other device or
   type, each of which is told apart by its path.
   */
  lemma {:induction false} AttemptStaysHome(s: Store, a: Attempt, root: Root, sha: Bytes -> string, u: Unicode)
    requires a.put.Put? && PutDevice(s, a, root, sha, u).1.Captured?
    ensures var s', slug := PutDevice(s, a, root, sha, u).0, Slug(a.dev.canonical, u).slug;
            var home := DevicePath(root, slug) + [a.typ];
            && (TypePath(root, slug, a.typ) == home <==> OneElementOn(a.typ, root.windows))
            && (OneElementOn(a.typ, root.windows) ==>
                  && home in s'.dirs && s'.dirs[home] == Step(DirAt(s, home), a.put, sha)
                  && (forall p | p != home :: DirAt(s', p) == DirAt(s, p))
                  && forall other | other != slug :: InfoAt(s', other) == InfoAt(s, other))
  {
    AttemptTouches(s, a, root, sha, u);
    JoinIsEntry(DevicePath(root, Slug(a.dev.canonical, u).slug), a.typ, root.windows);
  }

  /** Every type a spec may have is one element, so what such specs capture stays home. */
  lemma {:induction false} SafeTypeStaysHome(root: Root, slug: string, typ: string, u: Unicode)
    requires SafeType(typ) && Sane(u)
    ensures TypePath(root, slug, typ) == DevicePath(root, slug) + [typ]
  {
    SafeTypeIsElement(typ, u);
    JoinIsEntry(DevicePath(root, slug), typ, root.windows);
  }

  /** The slug of a name is itself an entry of the directory of devices. */
  lemma {:induction false} SlugStaysHome(root: Root, name: string, u: Unicode)
    requires Sane(u) && Slug(name, u).Slugged?
    ensures Join(root.path + ["devices"], Slug(name, u).slug, root.windows) == DevicePath(root, Slug(name, u).slug)
  {
    var slug := Slug(name, u).slug;
    SlugIsElement(name, u);
    ElementStaysInside(slug, u, root.path + ["devices"], root.windows);
    assert root.path + ["devices"] + [slug] == DevicePath(root, slug);
  }

  // ----- directories never merge

  /** Whether device.json lets an attempt in. */
  predicate Admitted(s: Store, a: Attempt, u: Unicode) {
    && Trim(a.typ, u.space) != "" && Slug(a.dev.canonical, u).Slugged?
    && var slug := Slug(a.dev.canonical, u).slug;
       slug in s.infos ==> EqualFold(s.infos[slug].canonical, a.dev.canonical, u)
  }

  /** An attempt is let in exactly if device.json lets it in and its directory can be made and device.json written. */
  lemma {:induction false} LetInExactly(s: Store, a: Attempt, root: Root, sha: Bytes -> string, u: Unicode)
    requires a.put.Put?
    ensures PutDevice(s, a, root, sha, u).1.Captured? <==> a.made && a.infoWritten && Admitted(s, a, u)
  {
  }

  /** What never changes about a directory's identity once it has one, and what only grows. */
  ghost predicate SameDevice(was: DeviceInfo, now: DeviceInfo, u: Unicode) {
    && now.canonical == was.canonical && now.firstSeen == was.firstSeen
    && AliasKeys(was.aliases, u) <= AliasKeys(now.aliases, u)
  }

  lemma {:induction false} MergeKeepsDevice(was: DeviceInfo, dev: DeviceInfo, at: nat, u: Unicode)
    ensures var merged := MergedInfo(Some(was), dev, at, u);
            && (merged.Some? <==> EqualFold(was.canonical, dev.canonical, u))
            && (merged.Some? ==> SameDevice(was, merged.value, u))
  {
    MergedAliases(was.aliases, dev.aliases, u);
  }

  /** One attempt: the identity of every directory is kept, and only its own device gets in. */
  lemma {:induction false} AttemptKeepsDevice(s: Store, a: Attempt, slug: string, root: Root, sha: Bytes -> string,
                                              u: Unicode)
    requires a.put.Put? && slug in s.infos
    ensures var (s', r) := PutDevice(s, a, root, sha, u);
            && slug in s'.infos && SameDevice(s.infos[slug], s'.infos[slug], u)
            && (r.Captured? ==> Admitted(s, a, u))
  {
    MergeKeepsDevice(s.infos[slug], a.dev, a.put.at, u);
  }

  function RunAttempts(s: Store, attempts: seq<Attempt>, root: Root, sha: Bytes -> string, u: Unicode): Store
    requires forall i | 0 <= i < |attempts| :: attempts[i].put.Put?
  {
    if attempts == [] then s
    else PutDevice(RunAttempts(s, attempts[..|attempts| - 1], root, sha, u), attempts[|attempts| - 1], root, sha, u).0
  }

  lemma {:induction false} RunKeepsDevice(s: Store, attempts: seq<Attempt>, slug: string, root: Root,
                                          sha: Bytes -> string, u: Unicode)
    requires forall i | 0 <= i < |attempts| :: attempts[i].put.Put?
    requires slug in s.infos
    ensures var s' := RunAttempts(s, attempts, root, sha, u);
            slug in s'.infos && SameDevice(s.infos[slug], s'.infos[slug], u)
  {
    if attempts != [] {
      var n := |attempts| - 1;
      RunKeepsDevice(s, attempts[..n], slug, root, sha, u);
      AttemptKeepsDevice(RunAttempts(s, attempts[..n], root, sha, u), attempts[n], slug, root, sha, u);
    }
  }

  /** Whether an attempt's capture was let into a directory. */
  ghost predicate StoredIn(s: Store, a: Attempt, p: Path, root: Root, sha: Bytes -> string, u: Unicode)
    requires a.put.Put?
  {
    && PutDevice(s, a, root, sha, u).1.Captured?
    && p == TypePath(root, Slug(a.dev.canonical, u).slug, a.typ)
  }

  /**
   Directories never merge, as long as types are path elements: whatever happens
   in between, with any types, a directory of a device takes no capture whose type
   is one element from a device whose name does not fold equal to the directory's
   first name, which stays, as does when it was first seen.
   */
  lemma {:induction false} OnlyItsDevice(s: Store, attempts: seq<Attempt>, a: Attempt, slug: string, typ: string,
                                         root: Root,
                                         sha: Bytes -> string, u: Unicode)
    requires a.put.Put? && forall i | 0 <= i < |attempts| :: attempts[i].put.Put?
    requires slug in s.infos
    requires StoredIn(RunAttempts(s, attempts, root, sha, u), a, DevicePath(root, slug) + [typ], root, sha, u)
    requires OneElementOn(a.typ, root.windows)
    ensures EqualFold(s.infos[slug].canonical, a.dev.canonical, u) && a.typ == typ
  {
    var before, slug' := RunAttempts(s, attempts, root, sha, u), Slug(a.dev.canonical, u).slug;
    RunKeepsDevice(s, attempts, slug, root, sha, u);
    AttemptKeepsDevice(before, a, slug, root, sha, u);
    JoinIsEntry(DevicePath(root, slug'), a.typ, root.windows);
    DevicesApart(root, slug, typ, slug', a.typ);
  }

  /**
   A refused attempt changes no capture and no device.json; an empty directory
   appears if it came as far as making it.
  */
  lemma {:induction false} RefusedChangesNothing(s: Store, a: Attempt, root: Root, sha: Bytes -> string, u: Unicode)
    requires a.put.Put? && PutDevice(s, a, root, sha, u).1.Refused?
    ensures var s' := PutDevice(s, a, root, sha, u).0;
            && s'.infos == s.infos
            && (forall p :: DirAt(s', p) == DirAt(s, p))
            && if Trim(a.typ, u.space) == "" || Slug(a.dev.canonical, u).NoUsableCharacters? || !a.made then s' == s
               else
                 var p := TypePath(root, Slug(a.dev.canonical, u).slug, a.typ);
                 s'.dirs == s.dirs[p := DirAt(s, p)]
  {
  }

  // ----- every directory of the store

  const EMPTY_STORE := Store(map[], map[])

  ghost predicate AllPuts(attempts: seq<Attempt>) {
    forall i | 0 <= i < |attempts| :: attempts[i].put.Put?
  }

  /** The attempts of a run, from an empty store, that were let into a directory. */
  ghost function LandedAt(attempts: seq<Attempt>, p: Path, root: Root, sha: Bytes -> string,
                          u: Unicode): (landed: seq<Attempt>)
    requires AllPuts(attempts)
    ensures AllPuts(landed)
  {
    if attempts == [] then []
    else
      var before, a := attempts[..|attempts| - 1], attempts[|attempts| - 1];
      LandedAt(before, p, root, sha, u)
        + if StoredIn(RunAttempts(EMPTY_STORE, before, root, sha, u), a, p, root, sha, u) then [a] else []
  }

  function PutsOf(attempts: seq<Attempt>): (puts: seq<Op>)
    ensures |puts| == |attempts| && forall i | 0 <= i < |attempts| :: puts[i] == attempts[i].put
  {
    seq(|attempts|, i requires 0 <= i < |attempts| => attempts[i].put)
  }

  lemma {:induction false} PutsOfOneMore(attempts: seq<Attempt>, a: Attempt)
    ensures PutsOf(attempts + [a]) == PutsOf(attempts) + [a.put]
  {
  }

  lemma {:induction false} AttemptAtPath(s: Store, a: Attempt, p: Path, root: Root, sha: Bytes -> string, u: Unicode)
    requires a.put.Put?
    ensures DirAt(PutDevice(s, a, root, sha, u).0, p)
            == if StoredIn(s, a, p, root, sha, u) then Step(DirAt(s, p), a.put, sha) else DirAt(s, p)
  {
    if PutDevice(s, a, root, sha, u).1.Captured? {
      AttemptTouches(s, a, root, sha, u);
    } else {
      RefusedChangesNothing(s, a, root, sha, u);
    }
  }

  lemma {:induction false} AfterOne(puts: seq<Op>, put: Op, sha: Bytes -> string)
    ensures After(puts + [put], sha) == Step(After(puts, sha), put, sha)
  {
    assert (puts + [put])[..|puts|] == puts;
  }

  /**
   Each directory of a store is what the captures that landed in it make of an
   empty one, so what holds after every run of Puts on one directory holds of every
   directory of a store.
   */
  lemma {:induction false} EveryPathIsARun(attempts: seq<Attempt>, p: Path, root: Root, sha: Bytes -> string,
                                           u: Unicode)
    requires AllPuts(attempts)
    ensures DirAt(RunAttempts(EMPTY_STORE, attempts, root, sha, u), p)
            == After(PutsOf(LandedAt(attempts, p, root, sha, u)), sha)
  {
    if attempts != [] {
      var before, a := attempts[..|attempts| - 1], attempts[|attempts| - 1];
      var landed := LandedAt(before, p, root, sha, u);
      EveryPathIsARun(before, p, root, sha, u);
      AttemptAtPath(RunAttempts(EMPTY_STORE, before, root, sha, u), a, p, root, sha, u);
      PutsOfOneMore(landed, a);
      AfterOne(PutsOf(landed), a.put, sha);
      assert landed + [] == landed;
    }
  }

  /** The backup theorem for every directory of a store, whatever devices and types it was filled by. */
  lemma {:induction false} EveryPathReadsBack(attempts: seq<Attempt>, p: Path, root: Root, sha: Bytes -> string,
                                              u: Unicode, j: nat)
    requires AllPuts(attempts)
    requires CollisionFree(sha, Log(PutsOf(LandedAt(attempts, p, root, sha, u)), sha))
    requires j < |DirAt(RunAttempts(EMPTY_STORE, attempts, root, sha, u), p).history|
    ensures ReadsBack(DirAt(RunAttempts(EMPTY_STORE, attempts, root, sha, u), p),
                      Log(PutsOf(LandedAt(attempts, p, root, sha, u)), sha), j)
  {
    EveryPathIsARun(attempts, p, root, sha, u);
    EveryLineReadsBack(PutsOf(LandedAt(attempts, p, root, sha, u)), sha, j);
  }

  lemma {:induction false} CapturedIsNamed(s: Store, a: Attempt, root: Root, sha: Bytes -> string, u: Unicode,
                                           slug: string)
    requires a.put.Put? && PutDevice(s, a, root, sha, u).1.Captured? && Slug(a.dev.canonical, u) == Slugged(slug)
    ensures slug in PutDevice(s, a, root, sha, u).0.infos
    ensures EqualFold(PutDevice(s, a, root, sha, u).0.infos[slug].canonical, a.dev.canonical, u)
  {
  }

  /** Whether an attempt is of the device a slug's device.json names, and of a type. */
  ghost predicate BelongsTo(s: Store, a: Attempt, slug: string, typ: string, u: Unicode) {
    a.typ == typ && slug in s.infos && EqualFold(s.infos[slug].canonical, a.dev.canonical, u)
  }

  lemma {:induction false} StaysBelonging(s: Store, next: Attempt, a: Attempt, slug: string, typ: string, root: Root,
                                          sha: Bytes -> string, u: Unicode)
    requires next.put.Put? && BelongsTo(s, a, slug, typ, u)
    ensures BelongsTo(PutDevice(s, next, root, sha, u).0, a, slug, typ, u)
  {
    AttemptKeepsDevice(s, next, slug, root, sha, u);
  }

  lemma {:induction false} LandsBelonging(s: Store, a: Attempt, slug: string, typ: string, root: Root,
                                          sha: Bytes -> string, u: Unicode)
    requires a.put.Put? && OneElementOn(a.typ, root.windows)
    requires StoredIn(s, a, DevicePath(root, slug) + [typ], root, sha, u)
    ensures BelongsTo(PutDevice(s, a, root, sha, u).0, a, slug, typ, u)
  {
    var own := Slug(a.dev.canonical, u).slug;
    JoinIsEntry(DevicePath(root, own), a.typ, root.windows);
    DevicesApart(root, slug, typ, own, a.typ);
    CapturedIsNamed(s, a, root, sha, u, slug);
  }

  /**
   With types that are path elements, a device's directory of a type holds
   captures of that device and that type only, from the first to the last.
   */
  lemma {:induction false} OneDeviceOneHistory(attempts: seq<Attempt>, slug: string, typ: string, root: Root,
                                               sha: Bytes -> string, u: Unicode, i: nat)
    requires AllPuts(attempts) && forall k | 0 <= k < |attempts| :: OneElementOn(attempts[k].typ, root.windows)
    requires i < |LandedAt(attempts, DevicePath(root, slug) + [typ], root, sha, u)|
    ensures BelongsTo(RunAttempts(EMPTY_STORE, attempts, root, sha, u),
                      LandedAt(attempts, DevicePath(root, slug) + [typ], root, sha, u)[i], slug, typ, u)
  {
    var before, a := attempts[..|attempts| - 1], attempts[|attempts| - 1];
    var p, s := DevicePath(root, slug) + [typ], RunAttempts(EMPTY_STORE, before, root, sha, u);
    var landed := LandedAt(before, p, root, sha, u);
    if i < |landed| {
      OneDeviceOneHistory(before, slug, typ, root, sha, u, i);
      StaysBelonging(s, a, landed[i], slug, typ, root, sha, u);
    } else {
      LandsBelonging(s, a, slug, typ, root, sha, u);
    }
  }

  // ----- a type that leads elsewhere

  /** A type that goes up, and into another device's directory. */
  function Stray(slug: string, typ: string): string {
    ".." + "/" + (slug + "/" + typ)
  }

  lemma {:induction false} StrayPath(root: Root, slug: string, other: string, typ: string)
    requires OneElementOn(other, root.windows) && OneElementOn(typ, root.windows)
    ensures TypePath(root, slug, Stray(other, typ)) == DevicePath(root, other) + [typ]
  {
    var at, up := DevicePath(root, slug), root.path + ["devices"];
    FirstPiece("..", other + "/" + typ, root.windows);
    FirstPiece(other, typ, root.windows);
    PiecesWhole(typ, root.windows);
    assert [".."] + ([other] + [typ]) == ["..", other, typ];
    assert at[..|at| - 1] == up && up + [other] == DevicePath(root, other);
    WalkThree(at, "..", other, typ);
  }

  lemma {:induction false} WalkThree(at: Path, x: string, y: string, z: string)
    ensures Walk(at, [x, y, z]) == Taken(Taken(Taken(at, x), y), z)
  {
    assert [x, y, z][1..] == [y, z] && [y, z][1..] == [z] && [z][1..] == [];
    assert Walk(Taken(at, x), [y, z]) == Walk(Taken(Taken(at, x), y), [z]);
    assert Walk(Taken(Taken(at, x), y), [z]) == Walk(Taken(Taken(Taken(at, x), y), z), []);
  }

  /**
   Why the type has to be one element: with such a type, as ../r2/running-config
   for a device r1, a capture becomes the next line of another device's history,
   and nothing of that device's device.json is looked at.
   */
  lemma {:induction false} StrayCapture(s: Store, a: Attempt, slug: string, other: string, typ: string, root: Root,
                                        sha: Bytes -> string, u: Unicode)
    requires Sane(u) && a.put.Put? && a.made && a.infoWritten
    requires Slug(a.dev.canonical, u) == Slugged(slug) && slug !in s.infos && slug != other
    requires OneElementOn(other, root.windows) && OneElementOn(typ, root.windows) && a.typ == Stray(other, typ)
    ensures StoredIn(s, a, DevicePath(root, other) + [typ], root, sha, u)
    ensures var (s', home) := (PutDevice(s, a, root, sha, u).0, DevicePath(root, other) + [typ]);
            InfoAt(s', other) == InfoAt(s, other) && DirAt(s', home) == Step(DirAt(s, home), a.put, sha)
  {
    StrayPath(root, slug, other, typ);
    StrayIsNotBlank(other, typ, u);
    AttemptTouches(s, a, root, sha, u);
  }

  lemma {:induction false} StrayIsNotBlank(slug: string, typ: string, u: Unicode)
    requires Sane(u)
    ensures Trim(Stray(slug, typ), u.space) != ""
  {
    assert Stray(slug, typ)[0] == '.' && Graphic('.');
    TrimShape(Stray(slug, typ), u.space);
  }

  const RUNNING: string := "running-config"
  const STRAY: string := "../r2/running-config"

  lemma {:induction false} PlainSlug(name: string, u: Unicode)
    requires Sane(u) && |name| == 2 && 'a' <= name[0] <= 'z' && '0' <= name[1] <= '9'
    ensures Slug(name, u) == Slugged(name) && OneElement(name)
  {
    assert forall r | r in RESERVED :: |r| != 2;
    assert Shaped(name);
    ShapedIsItsSlug(name, u);
  }

  lemma {:induction false} RunningIsElement()
    ensures OneElement(RUNNING)
  {
  }

  lemma {:induction false} StrayText()
    ensures STRAY == Stray("r2", RUNNING)
  {
  }

  /** At a concrete input: the capture of a device called r1 goes into r2's history. */
  lemma {:induction false} StrayExists(s: Store, a: Attempt, root: Root, sha: Bytes -> string, u: Unicode)
    requires Sane(u) && a.put.Put? && a.made && a.infoWritten
    requires a.dev.canonical == "r1" && a.typ == STRAY && "r1" !in s.infos
    ensures StoredIn(s, a, DevicePath(root, "r2") + [RUNNING], root, sha, u)
    ensures Slug("r1", u) == Slugged("r1") && Slug("r2", u) == Slugged("r2")
  {
    PlainSlug("r1", u);
    PlainSlug("r2", u);
    RunningIsElement();
    StrayText();
    StrayCapture(s, a, "r1", "r2", RUNNING, root, sha, u);
  }

  /** Two types may share a directory when one of them is not one element. */
  lemma {:induction false} TypesShare(at: Path, windows: bool)
    ensures Join(at, "./a", windows) == Join(at, "a", windows) == at + ["a"]
  {
    assert "./a" == "." + "/" + "a";
    FirstPiece(".", "a", windows);
    PiecesWhole("a", windows);
    assert [".", "a"][1..] == ["a"] && ["a"][1..] == [];
    assert Walk(at, [".", "a"]) == Walk(at, ["a"]) == Walk(at + ["a"], []);
  }
}
