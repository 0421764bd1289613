/**
 Key maps of inventory edits (composeKeys of app/inventory.cpp). A map says,
 for each key whose session changed key or was deleted, its new key, or "" for
 deleted (internal/inventory/edit.go). Composing keeps original keys mapping to
 where later edits put them.
 */
module KeyMap {

  type Keys = map<string, string>

  /** Where one edit puts a key: a deleted one stays deleted, one not in the map stays. */
  function Pushed(edit: Keys, k: string): string {
    if k != "" && k in edit then edit[k] else k
  }

  function PushedAll(edits: seq<Keys>, k: string): string
    decreases |edits|
  {
    if edits == [] then k else Pushed(edits[|edits| - 1], PushedAll(edits[..|edits| - 1], k))
  }

  /** Some key now stands at v. */
  predicate Live(m: Keys, v: string) {
    v != "" && exists k | k in m :: m[k] == v
  }

  /** No two keys stand at the same place. */
  predicate Injective(m: Keys) {
    forall j, k | j in m && k in m && m[j] != "" && m[j] == m[k] :: j == k
  }

  /** The composition: live values are pushed on, and what is left of the later map is put in, over what was there. */
  function Composed(m: Keys, later: Keys): Keys {
    map k | k in m.Keys + later.Keys && (k in m || !Live(m, k)) ::
      if k in later && !Live(m, k) then later[k] else Pushed(later, m[k])
  }

  // ----- the loop

  class KeyChanges {
    var keys: Keys

    constructor ()
      ensures keys == map[]
    {
      keys := map[];
    }

    /** composeKeys, whatever order the hash gives its keys in. */
    method Compose(later: Keys)
      modifies this
      ensures Injective(old(keys)) ==> keys == Composed(old(keys), later)
    {
      ghost var m := keys;
      var pending := PushOn(later);
      ghost var pushed := keys;
      PutRest(pending);
      if Injective(m) {
        PutTogether(m, later, pushed, pending, keys);
      }
    }

    /** The first loop: every live value that the later map moves is moved, and taken from what is pending. */
    method PushOn(later: Keys) returns (pending: Keys)
      modifies this
      ensures keys.Keys == old(keys).Keys
      ensures Injective(old(keys)) ==> Done(old(keys), later, keys, {}) && Left(old(keys), later, pending, {})
    {
      pending := later;
      var todo := keys.Keys;
      while todo != {}
        invariant todo <= keys.Keys == old(keys).Keys
        invariant forall k | k in todo :: keys[k] == old(keys)[k]
        invariant Injective(old(keys)) ==> Done(old(keys), later, keys, todo) && Left(old(keys), later, pending, todo)
        decreases |todo|
      {
        var k :| k in todo;
        if Injective(old(keys)) {
          Step(old(keys), later, keys, pending, todo, k);
        }
        if keys[k] != "" && keys[k] in pending {
          var v := keys[k];
          keys := keys[k := pending[v]];
          pending := pending - {v};
        }
        todo := todo - {k};
      }
    }

    /** The second loop: what is still pending is put in, over what was there. */
    method PutRest(pending: Keys)
      modifies this
      ensures Over(old(keys), pending, {}, keys)
    {
      var more := pending.Keys;
      while more != {}
        invariant more <= pending.Keys && Over(old(keys), pending, more, keys)
        decreases |more|
      {
        var k :| k in more;
        OverStep(old(keys), pending, more, keys, k);
        keys := keys[k := pending[k]];
        more := more - {k};
      }
    }
  }

  /** What was there, with the pending keys put over it except those still to come. */
  ghost predicate Over(m: Keys, pending: Keys, more: set<string>, now: Keys) {
    && (forall k :: k in now <==> k in m || (k in pending && k !in more))
    && (forall k | k in now :: now[k] == if k in pending && k !in more then pending[k] else m[k])
  }

  lemma {:induction false} OverStep(m: Keys, pending: Keys, more: set<string>, now: Keys, k: string)
    requires k in more && more <= pending.Keys && Over(m, pending, more, now)
    ensures Over(m, pending, more - {k}, now[k := pending[k]])
  {
  }

  /** The keys already visited have been pushed on. */
  ghost predicate Done(m: Keys, later: Keys, now: Keys, todo: set<string>)
    requires now.Keys == m.Keys
  {
    forall k | k in m && k !in todo :: now[k] == Pushed(later, m[k])
  }

  /** What is pending is what no visited key stood at. */
  ghost predicate Left(m: Keys, later: Keys, pending: Keys, todo: set<string>) {
    && (forall v | v in pending :: v in later && pending[v] == later[v])
    && (forall v | v in later :: v !in pending <==> (v != "" && exists k | k in m && k !in todo :: m[k] == v))
  }

  lemma {:induction false} Step(m: Keys, later: Keys, now: Keys, pending: Keys, todo: set<string>, k: string)
    requires Injective(m) && todo <= m.Keys && now.Keys == m.Keys && k in todo
    requires (forall j | j in todo :: now[j] == m[j]) && Done(m, later, now, todo) && Left(m, later, pending, todo)
    ensures m[k] != "" && m[k] in pending ==>
              Done(m, later, now[k := pending[m[k]]], todo - {k}) && Left(m, later, pending - {m[k]}, todo - {k})
    ensures !(m[k] != "" && m[k] in pending) ==> Done(m, later, now, todo - {k}) && Left(m, later, pending, todo - {k})
  {
  }

  lemma {:induction false} PendingIsNotLive(m: Keys, later: Keys, pending: Keys, k: string)
    requires Left(m, later, pending, {})
    ensures k in pending <==> k in later && !Live(m, k)
  {
  }

  lemma {:induction false} PutAt(m: Keys, later: Keys, pushed: Keys, pending: Keys, now: Keys, k: string)
    requires pushed.Keys == m.Keys && Done(m, later, pushed, {}) && Left(m, later, pending, {})
    requires Over(pushed, pending, {}, now)
    ensures k in now <==> k in Composed(m, later)
    ensures k in now ==> now[k] == Composed(m, later)[k]
  {
    PendingIsNotLive(m, later, pending, k);
  }

  lemma {:induction false} PutTogether(m: Keys, later: Keys, pushed: Keys, pending: Keys, now: Keys)
    requires pushed.Keys == m.Keys && Done(m, later, pushed, {}) && Left(m, later, pending, {})
    requires Over(pushed, pending, {}, now)
    ensures now == Composed(m, later)
  {
    forall k: string
      ensures k in now <==> k in Composed(m, later)
      ensures k in now ==> now[k] == Composed(m, later)[k]
    {
      PutAt(m, later, pushed, pending, now, k);
    }
  }

  // ----- one composition

  /** Keys in use stay apart: an edit leaves no two of them at one place. */
  ghost predicate KeepsApart(edit: Keys, inUse: set<string>) {
    && "" !in inUse && edit.Keys <= inUse
    && forall j, k | j in inUse && k in inUse && j != k :: Pushed(edit, j) != Pushed(edit, k) || Pushed(edit, j) == ""
  }

  /** The map knows of keys in use only: each of its values is one, or was deleted. */
  ghost predicate Stands(m: Keys, inUse: set<string>) {
    Injective(m) && forall k | k in m && m[k] != "" :: m[k] in inUse
  }

  /**
   The key was vacated, and an added session that took it is moved by the later
   edit; it is harmless only when both sessions end up deleted.
   */
  predicate Clashes(m: Keys, later: Keys, k: string) {
    k in m && k in later && !Live(m, k) && !(later[k] == "" && Pushed(later, m[k]) == "")
  }

  /** Composing puts a key where pushing it twice does, exactly if its vacated key was not reused and moved. */
  lemma {:induction false} ComposedIsPushed(m: Keys, later: Keys, inUse: set<string>, k: string)
    requires Stands(m, inUse) && KeepsApart(later, inUse) && k != "" && (k !in m ==> !Live(m, k))
    ensures Pushed(Composed(m, later), k) == Pushed(later, Pushed(m, k)) <==> !Clashes(m, later, k)
  {
    if Clashes(m, later, k) {
      assert Composed(m, later)[k] == later[k];
      assert m[k] != k;
    }
  }

  /** Two devices with one key: the first renamed away, the second added under its key and renamed too. */
  lemma {:induction false} ReusedKeyIsLost()
    ensures var m, later := map["a" := "b"], map["a" := "c"];
            && Stands(m, {"a", "b"}) && KeepsApart(later, {"a", "b"}) && Clashes(m, later, "a")
            && Pushed(later, Pushed(m, "a")) == "b" && Pushed(Composed(m, later), "a") == "c"
  {
    var m: Keys, later: Keys := map["a" := "b"], map["a" := "c"];
    assert !Live(m, "a");
    assert "a" in Composed(m, later);
  }

  // ----- many edits

  ghost function ComposedAll(edits: seq<Keys>): Keys
    decreases |edits|
  {
    if edits == [] then map[] else Composed(ComposedAll(edits[..|edits| - 1]), edits[|edits| - 1])
  }

  /** The keys in use after each edit: those it leaves, and those of sessions it added. */
  ghost predicate Follows(edit: Keys, inUse: set<string>, next: set<string>) {
    "" !in next && forall k | k in inUse && Pushed(edit, k) != "" :: Pushed(edit, k) in next
  }

  /** A history of edits: inUse[i] is what the i-th finds, and keys stay apart. */
  ghost predicate History(edits: seq<Keys>, inUse: seq<set<string>>) {
    && |inUse| == |edits| + 1 && "" !in inUse[0]
    && forall i | 0 <= i < |edits| :: KeepsApart(edits[i], inUse[i]) && Follows(edits[i], inUse[i], inUse[i + 1])
  }

  /** Original keys the map does not mention are where they were, and nobody else is there. */
  ghost predicate Unmoved(m: Keys, original: set<string>, inUse: set<string>) {
    forall k | k in original && k !in m :: k in inUse && !Live(m, k)
  }

  /** The key in use that k's entry comes from: k itself when it is a later edit's, or where k stood. */
  function Source(m: Keys, later: Keys, k: string): string {
    if k in later && !Live(m, k) then k else if k in m then m[k] else k
  }

  lemma {:induction false} ComposedAt(m: Keys, later: Keys, inUse: set<string>, k: string)
    requires Stands(m, inUse) && KeepsApart(later, inUse) && k in Composed(m, later)
    ensures var source := Source(m, later, k);
            Composed(m, later)[k] == Pushed(later, source) && (source in inUse || source == "")
  {
  }

  lemma {:induction false} SourcesApart(m: Keys, later: Keys, j: string, k: string)
    requires Injective(m) && j in Composed(m, later) && k in Composed(m, later) && Source(m, later, j) != ""
    requires Source(m, later, j) == Source(m, later, k)
    ensures j == k
  {
  }

  lemma {:induction false} ComposedApart(m: Keys, later: Keys, inUse: set<string>, j: string, k: string)
    requires Stands(m, inUse) && KeepsApart(later, inUse) && j in Composed(m, later) && k in Composed(m, later)
    requires Composed(m, later)[j] != "" && Composed(m, later)[j] == Composed(m, later)[k]
    ensures j == k
  {
    ComposedAt(m, later, inUse, j);
    ComposedAt(m, later, inUse, k);
    SourcesApart(m, later, j, k);
  }

  lemma {:induction false} ComposedStands(m: Keys, later: Keys, inUse: set<string>, next: set<string>)
    requires Stands(m, inUse) && KeepsApart(later, inUse) && Follows(later, inUse, next)
    ensures Stands(Composed(m, later), next)
  {
    var c := Composed(m, later);
    forall j, k | j in c && k in c && c[j] != "" && c[j] == c[k]
      ensures j == k
    {
      ComposedApart(m, later, inUse, j, k);
    }
    forall k | k in c && c[k] != ""
      ensures c[k] in next
    {
      ComposedAt(m, later, inUse, k);
    }
  }

  lemma {:induction false} NobodyAt(m: Keys, later: Keys, inUse: set<string>, k: string, j: string)
    requires Stands(m, inUse) && KeepsApart(later, inUse) && k in inUse && !Live(m, k) && k !in m && k !in later
    requires j in Composed(m, later)
    ensures Composed(m, later)[j] != k
  {
    ComposedAt(m, later, inUse, j);
    assert Pushed(later, k) == k;
    assert Source(m, later, j) != k;
  }

  lemma {:induction false} ComposedUnmoved(m: Keys, later: Keys, original: set<string>, inUse: set<string>,
                                           next: set<string>)
    requires Stands(m, inUse) && KeepsApart(later, inUse) && Follows(later, inUse, next) && Unmoved(m, original, inUse)
    ensures Unmoved(Composed(m, later), original, next)
  {
    var c := Composed(m, later);
    forall k | k in original && k !in c
      ensures k in next && !Live(c, k)
    {
      assert k !in m && k !in later;
      assert Pushed(later, k) == k;
      forall j | j in c
        ensures c[j] != k
      {
        NobodyAt(m, later, inUse, k, j);
      }
    }
  }

  lemma {:induction false} OneEditMore(edits: seq<Keys>, n: nat, k: string)
    requires n < |edits|
    ensures ComposedAll(edits[..n + 1]) == Composed(ComposedAll(edits[..n]), edits[n])
    ensures PushedAll(edits[..n + 1], k) == Pushed(edits[n], PushedAll(edits[..n], k))
  {
    assert edits[..n + 1][..n] == edits[..n];
  }

  /** All along a history, clashes or not, the map knows of keys in use only, and of originals that moved. */
  lemma {:induction false} MapStands(edits: seq<Keys>, inUse: seq<set<string>>, n: nat)
    requires History(edits, inUse) && n <= |edits|
    ensures Stands(ComposedAll(edits[..n]), inUse[n]) && Unmoved(ComposedAll(edits[..n]), inUse[0], inUse[n])
  {
    if n > 0 {
      var m := ComposedAll(edits[..n - 1]);
      MapStands(edits, inUse, n - 1);
      OneEditMore(edits, n - 1, "");
      ComposedStands(m, edits[n - 1], inUse[n - 1], inUse[n]);
      ComposedUnmoved(m, edits[n - 1], inUse[0], inUse[n - 1], inUse[n]);
    }
  }

  /** Whether the map sends a key where pushing it through the first n edits puts it. */
  ghost predicate FollowedTo(edits: seq<Keys>, n: nat, k: string)
    requires n <= |edits|
  {
    Pushed(ComposedAll(edits[..n]), k) == PushedAll(edits[..n], k)
  }

  /** Whether edit i moves a session that was given the vacated key of k's. */
  ghost predicate ClashAt(edits: seq<Keys>, i: nat, k: string)
    requires i < |edits|
  {
    Clashes(ComposedAll(edits[..i]), edits[i], k)
  }

  lemma {:induction false} FollowedOn(edits: seq<Keys>, inUse: seq<set<string>>, n: nat, k: string)
    requires History(edits, inUse) && k in inUse[0] && n < |edits| && FollowedTo(edits, n, k)
    ensures FollowedTo(edits, n + 1, k) <==> !ClashAt(edits, n, k)
  {
    var m := ComposedAll(edits[..n]);
    MapStands(edits, inUse, n);
    OneEditMore(edits, n, k);
    ComposedIsPushed(m, edits[n], inUse[n], k);
  }

  lemma {:induction false} FollowedAlong(edits: seq<Keys>, inUse: seq<set<string>>, n: nat, k: string)
    requires History(edits, inUse) && k in inUse[0] && n <= |edits|
    requires forall i | 0 <= i < |edits| :: !ClashAt(edits, i, k)
    ensures FollowedTo(edits, n, k)
  {
    if n > 0 {
      FollowedAlong(edits, inUse, n - 1, k);
      FollowedOn(edits, inUse, n - 1, k);
    }
  }

  /**
   Over any history of edits, swaps and deletions included: all along it an
   original key maps to where pushing it through each edit puts it, exactly if no
   edit moves a session that was given this key after it was vacated, but to
   delete the two of them.
   */
  lemma {:induction false} OriginalsFollow(edits: seq<Keys>, inUse: seq<set<string>>, k: string)
    requires History(edits, inUse) && k in inUse[0]
    ensures (forall n | 0 <= n <= |edits| :: FollowedTo(edits, n, k))
            <==> forall i | 0 <= i < |edits| :: !ClashAt(edits, i, k)
  {
    if forall i | 0 <= i < |edits| :: !ClashAt(edits, i, k) {
      forall n | 0 <= n <= |edits|
        ensures FollowedTo(edits, n, k)
      {
        FollowedAlong(edits, inUse, n, k);
      }
    }
    if forall n | 0 <= n <= |edits| :: FollowedTo(edits, n, k) {
      forall i | 0 <= i < |edits|
        ensures !ClashAt(edits, i, k)
      {
        assert FollowedTo(edits, i, k) && FollowedTo(edits, i + 1, k);
        FollowedOn(edits, inUse, i, k);
      }
    }
  }
}
