/**
 One capture type's directory as the store works on it, file step by file step:
 FileStore.Put and pruneType (internal/capture/store.go), the counts of
 FileStore.Types (internal/capture/browse.go), PutParsed
 (internal/capture/parsed.go).
 */
module TypeDirectory {
  import opened FileNames
  import opened PathElements
  import opened Slugs
  import opened StoreModel
  import opened StoreTheorems
  import opened Wrappers

  // What the store says about one type's captures.
  datatype TypeInfo = TypeInfo(attempts: nat, stored: nat, last: nat, bytes: nat, sha: string, file: string)

  /** The counts of a history, entry by entry. */
  function InfoOf(h: seq<Entry>): TypeInfo {
    if h == [] then TypeInfo(0, 0, 0, 0, "", "")
    else
      var before, e := InfoOf(h[..|h| - 1]), h[|h| - 1];
      var seen := before.(attempts := before.attempts + 1, last := if e.at > before.last then e.at else before.last);
      if e.again then seen
      else seen.(stored := seen.stored + 1, bytes := e.bytes, sha := e.sha, file := e.file)
  }

  lemma {:induction false} FilesSuffix(h: seq<Entry>, i: nat, j: nat)
    requires i <= j <= |h|
    ensures |Files(h[j..])| <= |Files(h[i..])|
  {
    assert h[i..][j - i..] == h[j..];
    FilesShrink(h[i..], j - i);
  }

  lemma {:induction false} CutIsUnique(h: seq<Entry>, keep: nat, c: nat)
    requires c <= |h| && |Files(h[c..])| <= keep
    requires c > 0 ==> |Files(h[c - 1..])| > keep
    ensures c == CutOf(h, keep)
  {
    CutIsLongest(h, keep);
    if CutOf(h, keep) < c {
      FilesSuffix(h, CutOf(h, keep), c - 1);
    }
  }

  class TypeDir {
    var files: map<string, Content>
    var history: seq<Entry>

    ghost function Value(): Dir
      reads this
    {
      Dir(files, history)
    }

    constructor ()
      ensures Value() == EMPTY_DIR
    {
      files, history := map[], [];
    }

    /** The most recent entry with a file behind it. */
    method FindLastStored() returns (last: Option<Entry>)
      ensures last == LastStored(history)
    {
      var i := |history|;
      assert history[..i] == history;
      while i > 0
        invariant 0 <= i <= |history| && LastStored(history[..i]) == LastStored(history)
      {
        i := i - 1;
        assert history[..i + 1][..i] == history[..i];
        if history[i].file != "" {
          return Some(history[i]);
        }
      }
      return None;
    }

    /** Tries names until one is not taken. */
    method ChooseName(stamp: string) returns (name: string)
      ensures name == FreshName(Value(), stamp)
    {
      name := Candidate(stamp, 0);
      var i := 0;
      ghost var free := FirstFree(files.Keys, stamp, 0);
      FirstFreeIsFirst(files.Keys, stamp, 0);
      while name in files
        invariant i <= free && name == Candidate(stamp, i)
        decreases free - i
      {
        i := i + 1;
        name := Candidate(stamp, i);
      }
      FirstIsUnique(files.Keys, stamp, i, free);
    }

    /** Stores one capture; digest is its content's. */
    method Put(at: nat, stamp: string, command: string, content: Bytes, digest: string, keep: int, io: Io)
      returns (outcome: Outcome)
      modifies this
      ensures (Value(), outcome) == old(PutDir(Value(), at, stamp, command, content, digest, keep, io))
    {
      var prev := FindLastStored();
      if prev.Some? && prev.value.sha == digest {
        if !io.append {
          return Failed;
        }
        history := history + [Entry(at, command, digest, |content|, prev.value.file, true)];
        if !io.sync {
          return Failed;
        }
        return Unchanged(prev.value.file);
      }
      var name := ChooseName(stamp);
      if !io.write {
        return Failed;
      }
      files := files[name := Capture(content)];
      if !io.append {
        return Failed;
      }
      history := history + [Entry(at, command, digest, |content|, name, false)];
      if !io.sync {
        return Failed;
      }
      var failed := Prune(keep, io);
      return Stored(name, failed);
    }

    /** Where history is cut, and the files what is left of it names. */
    method FindCut(keep: nat) returns (cut: nat, survive: set<string>)
      ensures cut == CutOf(history, keep) && survive == Files(history[cut..])
    {
      survive, cut := {}, 0;
      var i := |history|;
      while i > 0
        invariant 0 <= i <= |history|
        invariant survive == Files(history[i..]) && |survive| <= keep
      {
        var f := history[i - 1].file;
        FilesSplit(history[i - 1..]);
        assert history[i - 1..][1..] == history[i..];
        if f != "" && f !in survive {
          if |survive| == keep {
            cut := i;
            CutIsUnique(history, keep, cut);
            return;
          }
          survive := survive + {f};
        }
        i := i - 1;
      }
      CutIsUnique(history, keep, 0);
    }

    /** Reduces the directory to its newest keep versions: history first, files after it. */
    method Prune(keep: int, io: Io) returns (failed: bool)
      modifies this
      ensures Value() == old(PruneDir(Value(), keep, io))
      ensures failed == old(PruneFails(Value(), keep, io))
    {
      if keep <= 0 || |history| == 0 {
        return false;
      }
      var cut, survive := FindCut(keep);
      if cut > 0 {
        if !io.rewrite {
          return true;
        }
        history := history[cut..];
      }
      failed := Sweep(survive, io.refused);
    }

    /** Unlinks every capture and parse that does not survive, in any order. */
    method Sweep(survive: set<string>, refused: set<string>) returns (failed: bool)
      modifies `files
      ensures files == old(map n | n in files && (!Swept(n, survive) || n in refused) :: files[n])
      ensures failed == old(exists n | n in files :: Swept(n, survive) && n in refused)
    {
      var todo := files.Keys;
      failed := false;
      while todo != {}
        invariant todo <= files.Keys <= old(files.Keys)
        invariant forall n | n in files :: files[n] == old(files)[n]
        invariant forall n | n in old(files) && n !in todo :: n in files <==> !Swept(n, survive) || n in refused
        invariant failed <==> exists n | n in old(files) && n !in todo :: Swept(n, survive) && n in refused
        decreases |todo|
      {
        var n :| n in todo;
        todo := todo - {n};
        if Swept(n, survive) {
          if n in refused {
            failed := true;
          } else {
            files := files - {n};
          }
        }
      }
    }

    /** What Types reports of this directory; nothing when it was never captured. */
    method Info() returns (info: Option<TypeInfo>)
      ensures info == if history == [] then None else Some(InfoOf(history))
    {
      if |history| == 0 {
        return None;
      }
      var ti := TypeInfo(|history|, 0, 0, 0, "", "");
      for i := 0 to |history|
        invariant ti == InfoOf(history[..i]).(attempts := |history|)
      {
        var h := history[i];
        assert history[..i + 1][..i] == history[..i];
        if h.at > ti.last {
          ti := ti.(last := h.at);
        }
        if !h.again {
          ti := ti.(stored := ti.stored + 1, bytes := h.bytes, sha := h.sha, file := h.file);
        }
      }
      assert history[..|history|] == history;
      AttemptsIsLength(history);
      return Some(ti);
    }

    /** Writes the parse of a stored capture beside it; the capture's name comes from outside. */
    method PutParsed(parsed: ParsedFile, written: bool, u: Unicode) returns (ok: bool)
      modifies `files
      ensures match AsElement(parsed.rawFile, u)
              case NotAnElement => !ok && Value() == old(Value())
              case Element(f) =>
                && Value() == old(PutParsedDir(Value(), f, parsed, written))
                && ok == (old(f in files || (f == HISTORY && history != [])) && written)
                && files == if ok then old(files)[ParsedName(f) := Parse(parsed)] else old(files)
    {
      var checked := AsElement(parsed.rawFile, u);
      if checked.NotAnElement? {
        return false;
      }
      var f := checked.name;
      if !(f in files || (f == HISTORY && |history| > 0)) {
        return false;
      }
      if written {
        files := files[ParsedName(f) := Parse(parsed)];
      }
      return written;
    }
  }

  lemma {:induction false} FirstIsUnique(taken: set<string>, stamp: string, i: nat, free: nat)
    requires i <= free && Candidate(stamp, i) !in taken
    requires forall j | 0 <= j < free :: Candidate(stamp, j) in taken
    ensures i == free
  {
  }

  lemma {:induction false} AttemptsIsLength(h: seq<Entry>)
    ensures InfoOf(h).attempts == |h|
  {
    if h != [] {
      AttemptsIsLength(h[..|h| - 1]);
    }
  }

  // ----- Types agrees with the store

  /** Every line's byte count is that of the file it names. */
  ghost predicate Sized(d: Dir) {
    forall e | e in d.history :: e.file in d.files && d.files[e.file].Capture? && e.bytes == |d.files[e.file].bytes|
  }

  lemma {:induction false} LinesAreSized(ops: seq<Op>, sha: Bytes -> string)
    requires CollisionFree(sha, Log(ops, sha))
    ensures Sized(After(ops, sha))
  {
    var d := After(ops, sha);
    EveryRun(ops, sha);
    forall e | e in d.history
      ensures e.file in d.files && d.files[e.file].Capture? && e.bytes == |d.files[e.file].bytes|
    {
      var j :| 0 <= j < |d.history| && d.history[j] == e;
      EveryLineReadsBack(ops, sha, j);
    }
  }

  lemma {:induction false} RunsPrefix(h: seq<Entry>, n: nat)
    requires Runs(h) && n <= |h|
    ensures Runs(h[..n])
  {
    forall i | 0 <= i < n
      ensures RunAt(h[..n], i)
    {
      assert RunAt(h, i);
    }
  }

  lemma {:induction false} FilesGrow(h: seq<Entry>, n: nat)
    requires n < |h| && h[n].file != ""
    ensures Files(h[..n + 1]) == Files(h[..n]) + {h[n].file}
  {
    assert h[..n + 1] == h[..n] + [h[n]];
  }

  lemma {:induction false} StoredOneMore(h: seq<Entry>, n: nat)
    requires n < |h|
    ensures InfoOf(h[..n + 1]).stored == InfoOf(h[..n]).stored + if h[n].again then 0 else 1
  {
    assert h[..n + 1][..n] == h[..n];
  }

  /** In runs a line names a file named before exactly if it is marked unchanged. */
  lemma {:induction false} NewFileOrAgain(h: seq<Entry>, n: nat)
    requires Runs(h) && n < |h| && forall i | 0 <= i < |h| :: h[i].file != ""
    ensures h[n].file in Files(h[..n]) <==> h[n].again
  {
    assert RunAt(h, n);
    if h[n].again {
      assert h[n - 1] in h[..n] by {
        assert h[..n][n - 1] == h[n - 1];
      }
    }
  }

  lemma {:induction false} FilesOneMore(h: seq<Entry>, n: nat)
    requires Runs(h) && n < |h| && forall i | 0 <= i < |h| :: h[i].file != ""
    ensures |Files(h[..n + 1])| == |Files(h[..n])| + if h[n].again then 0 else 1
  {
    FilesGrow(h, n);
    NewFileOrAgain(h, n);
    OneMoreFile(Files(h[..n]), h[n].file);
  }

  /** stored counts the files named. */
  lemma {:induction false} StoredCountsFiles(h: seq<Entry>, n: nat)
    requires Runs(h) && n <= |h| && forall i | 0 <= i < |h| :: h[i].file != ""
    ensures InfoOf(h[..n]).stored == |Files(h[..n])|
  {
    if n > 0 {
      var m := n - 1;
      StoredCountsFiles(h, m);
      StoredOneMore(h, m);
      FilesOneMore(h, m);
    }
  }

  lemma {:induction false} OneMoreFile(s: set<string>, f: string)
    ensures |s + {f}| == |s| + if f in s then 0 else 1
  {
    if f in s {
      assert s + {f} == s;
    }
  }

  /** The newest stored file is the last line's, and its size that of a line naming it. */
  lemma {:induction false} NewestIsLast(h: seq<Entry>)
    requires Runs(h) && h != []
    ensures InfoOf(h).file == h[|h| - 1].file && InfoOf(h).sha == h[|h| - 1].sha
    ensures exists i | 0 <= i < |h| :: h[i].file == h[|h| - 1].file && h[i].bytes == InfoOf(h).bytes
  {
    var n := |h| - 1;
    assert RunAt(h, n);
    if h[n].again {
      RunsPrefix(h, n);
      NewestIsLast(h[..n]);
      var i :| 0 <= i < n && h[..n][i].file == h[..n][n - 1].file && h[..n][i].bytes == InfoOf(h[..n]).bytes;
      assert h[i].file == h[n].file;
    }
  }

  /** last is the latest time of any line. */
  lemma {:induction false} LastIsLatest(h: seq<Entry>)
    ensures forall i | 0 <= i < |h| :: h[i].at <= InfoOf(h).last
    ensures InfoOf(h).last == 0 || exists i | 0 <= i < |h| :: h[i].at == InfoOf(h).last
  {
    if h != [] {
      var n := |h| - 1;
      LastIsLatest(h[..n]);
      assert forall i | 0 <= i < n :: h[..n][i] == h[i];
      if InfoOf(h).last != 0 && InfoOf(h).last != h[n].at {
        var i :| 0 <= i < n && h[..n][i].at == InfoOf(h[..n]).last;
        assert h[i].at == InfoOf(h).last;
      }
    }
  }

  /**
   In every reachable directory, Types counts the surviving attempts and the
   distinct surviving versions, and describes the file the next capture would be
   compared with.
   */
  lemma {:induction false} TypesAgrees(ops: seq<Op>, sha: Bytes -> string)
    requires CollisionFree(sha, Log(ops, sha)) && After(ops, sha).history != []
    ensures var d := After(ops, sha);
            var info, last := InfoOf(d.history), LastStored(d.history);
            && info.attempts == |d.history| && info.stored == |Files(d.history)|
            && last.Some? && info.file == last.value.file
            && info.sha == last.value.sha && info.bytes == last.value.bytes
            && (forall i | 0 <= i < |d.history| :: d.history[i].at <= info.last)
            && (info.last == 0 || exists i | 0 <= i < |d.history| :: d.history[i].at == info.last)
  {
    var d := After(ops, sha);
    EveryRun(ops, sha);
    LinesAreSized(ops, sha);
    DirTypesAgrees(d, sha);
  }

  lemma {:induction false} DirTypesAgrees(d: Dir, sha: Bytes -> string)
    requires Good(d, sha) && Sized(d) && d.history != []
    ensures var info, last := InfoOf(d.history), LastStored(d.history);
            && info.attempts == |d.history| && info.stored == |Files(d.history)|
            && last.Some? && info.file == last.value.file
            && info.sha == last.value.sha && info.bytes == last.value.bytes
            && (forall i | 0 <= i < |d.history| :: d.history[i].at <= info.last)
            && (info.last == 0 || exists i | 0 <= i < |d.history| :: d.history[i].at == info.last)
  {
    LastStoredIsLast(d.history);
    AttemptsIsLength(d.history);
    assert forall i | 0 <= i < |d.history| :: d.history[i] in d.history;
    StoredCountsFiles(d.history, |d.history|);
    assert d.history[..|d.history|] == d.history;
    NewestIsLast(d.history);
    LastIsLatest(d.history);
  }
}
