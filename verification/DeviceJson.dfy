/**
 What a device.json says (mergeDeviceInfo of internal/capture/store.go), by the
 attempts that wrote it: the first of them names the device and says when it was
 first seen, the last when it was last seen, the last that knew a platform which
 platform it is, and all of them together its aliases.
 */
module DeviceJson {
  import opened ByteOrder
  import opened DeviceStore
  import opened Slugs
  import opened StoreModel
  import opened Wrappers

  /** Whether an attempt writes the device.json of a slug. */
  ghost predicate WritesInfo(s: Store, a: Attempt, slug: string, root: Root, sha: Bytes -> string, u: Unicode)
    requires a.put.Put?
  {
    PutDevice(s, a, root, sha, u).1.Captured? && Slug(a.dev.canonical, u) == Slugged(slug)
  }

  /** The attempts of a run, from an empty store, that wrote the device.json of a slug. */
  ghost function WritersOf(attempts: seq<Attempt>, slug: string, root: Root, sha: Bytes -> string,
                           u: Unicode): (writers: seq<Attempt>)
    requires AllPuts(attempts)
    ensures AllPuts(writers)
  {
    if attempts == [] then []
    else
      var before, a := attempts[..|attempts| - 1], attempts[|attempts| - 1];
      WritersOf(before, slug, root, sha, u)
        + if WritesInfo(RunAttempts(EMPTY_STORE, before, root, sha, u), a, slug, root, sha, u) then [a] else []
  }

  /** The last platform that is not empty, if there is one. */
  function LastPlatform(writers: seq<Attempt>): string {
    if writers == [] then ""
    else if writers[|writers| - 1].dev.platform != "" then writers[|writers| - 1].dev.platform
    else LastPlatform(writers[..|writers| - 1])
  }

  /** The aliases of all, up to case and surrounding space. */
  function KeysOf(writers: seq<Attempt>, u: Unicode): set<string> {
    if writers == [] then {}
    else KeysOf(writers[..|writers| - 1], u) + AliasKeys(writers[|writers| - 1].dev.aliases, u)
  }

  /** What a device.json says, by who wrote it. */
  ghost predicate Tells(info: Option<DeviceInfo>, writers: seq<Attempt>, u: Unicode)
    requires AllPuts(writers)
  {
    if writers == [] then info == None
    else
      var first, last := writers[0], writers[|writers| - 1];
      && info.Some?
      && info.value.canonical == first.dev.canonical && info.value.firstSeen == first.put.at
      && info.value.lastSeen == last.put.at && info.value.platform == LastPlatform(writers)
      && AliasKeys(info.value.aliases, u) == KeysOf(writers, u)
      && if |writers| == 1 then info.value.aliases == first.dev.aliases else Sorted(info.value.aliases)
  }

  lemma {:induction false} OneMoreWriter(writers: seq<Attempt>, a: Attempt, u: Unicode)
    ensures LastPlatform(writers + [a]) == if a.dev.platform != "" then a.dev.platform else LastPlatform(writers)
    ensures KeysOf(writers + [a], u) == KeysOf(writers, u) + AliasKeys(a.dev.aliases, u)
  {
    assert (writers + [a])[..|writers|] == writers;
  }

  lemma {:induction false} MergeTells(info: Option<DeviceInfo>, writers: seq<Attempt>, a: Attempt, u: Unicode)
    requires AllPuts(writers) && a.put.Put? && Tells(info, writers, u)
    requires MergedInfo(info, a.dev, a.put.at, u).Some?
    ensures AllPuts(writers + [a]) && Tells(MergedInfo(info, a.dev, a.put.at, u), writers + [a], u)
  {
    OneMoreWriter(writers, a, u);
    if info.Some? {
      MergedAliases(info.value.aliases, a.dev.aliases, u);
    }
  }

  /** What an attempt makes of a device.json. */
  lemma {:induction false} AttemptInfo(s: Store, a: Attempt, slug: string, root: Root, sha: Bytes -> string, u: Unicode)
    requires a.put.Put?
    ensures var info := InfoAt(PutDevice(s, a, root, sha, u).0, slug);
            if WritesInfo(s, a, slug, root, sha, u)
            then info == MergedInfo(InfoAt(s, slug), a.dev, a.put.at, u) && info.Some?
            else info == InfoAt(s, slug)
  {
  }

  /**
   In every store, a device.json says what the attempts that wrote it bring: the
   first one's name and time, the last one's time, the last platform any of them
   knew, and the aliases of all; and it is there exactly if one of them wrote it.
  */
  lemma {:induction false} DeviceJsonTells(attempts: seq<Attempt>, slug: string, root: Root, sha: Bytes -> string,
                                           u: Unicode)
    requires AllPuts(attempts)
    ensures Tells(InfoAt(RunAttempts(EMPTY_STORE, attempts, root, sha, u), slug),
                  WritersOf(attempts, slug, root, sha, u), u)
  {
    if attempts != [] {
      var before, a := attempts[..|attempts| - 1], attempts[|attempts| - 1];
      var s, writers := RunAttempts(EMPTY_STORE, before, root, sha, u), WritersOf(before, slug, root, sha, u);
      DeviceJsonTells(before, slug, root, sha, u);
      AttemptInfo(s, a, slug, root, sha, u);
      if WritesInfo(s, a, slug, root, sha, u) {
        MergeTells(InfoAt(s, slug), writers, a, u);
      } else {
        assert writers + [] == writers;
      }
    }
  }
}
