/**
 What the capture store promises over whole runs: every recorded attempt can be
 read back, whatever stops or is refused; retention keeps exactly the newest
 versions; parses stay with the captures they were made from.
 */
module StoreTheorems {
  import opened FileNames
  import opened Sequences
  import opened StoreModel

  // ----- history is a sequence of runs

  /** A file's entries are contiguous, share one digest, and only the first of them wrote the file. */
  lemma {:induction false} RunsContiguous(h: seq<Entry>, i: nat, j: nat, k: nat)
    requires Runs(h) && i <= j <= k < |h| && h[i].file == h[k].file
    ensures h[j].file == h[i].file && h[j].sha == h[i].sha
    ensures i < j ==> h[j].again
    decreases k
  {
    if i < k {
      assert RunAt(h, k);
      if j < k {
        RunsContiguous(h, i, j, k - 1);
      } else {
        RunsContiguous(h, i, k - 1, k - 1);
      }
    }
  }

  /** Where the file changes a new version begins, and its content is another one. */
  lemma {:induction false} RunsChange(h: seq<Entry>, i: nat)
    requires Runs(h) && 0 < i < |h|
    ensures h[i].file != h[i - 1].file <==> !h[i].again
    ensures h[i].file != h[i - 1].file <==> h[i].sha != h[i - 1].sha
  {
    assert RunAt(h, i);
  }

  /** A directory's next capture gets a name no history line and no surviving file has. */
  lemma {:induction false} FreshNameNeverCollides(d: Dir, stamp: string, sha: Bytes -> string)
    requires Good(d, sha)
    ensures FreshName(d, stamp) !in d.files && FreshName(d, stamp) !in Files(d.history)
  {
    FreshNameIsFree(d, stamp);
  }

  // ----- whole runs

  datatype Op =
    | Put(at: nat, stamp: string, command: string, content: Bytes, keep: int, io: Io)
    | WriteParse(file: string, parsed: ParsedFile, written: bool)

  function Step(d: Dir, op: Op, sha: Bytes -> string): Dir {
    match op
    case Put(at, stamp, command, content, keep, io) => PutDir(d, at, stamp, command, content, sha(content), keep, io).0
    case WriteParse(file, parsed, written) => PutParsedDir(d, file, parsed, written)
  }

  /** The content an operation got a line into the history for. */
  function Recorded(d: Dir, op: Op, sha: Bytes -> string): seq<Bytes> {
    match op
    case Put(_, _, _, content, _, io) => if io.append && (io.write || Repeats(d, sha(content))) then [content] else []
    case WriteParse(_, _, _) => []
  }

  const EMPTY_DIR := Dir(map[], [])

  function After(ops: seq<Op>, sha: Bytes -> string): Dir {
    if ops == [] then EMPTY_DIR else Step(After(ops[..|ops| - 1], sha), ops[|ops| - 1], sha)
  }

  /** Every content recorded so far, oldest first. */
  function Log(ops: seq<Op>, sha: Bytes -> string): seq<Bytes> {
    if ops == [] then []
    else Log(ops[..|ops| - 1], sha) + Recorded(After(ops[..|ops| - 1], sha), ops[|ops| - 1], sha)
  }

  /** History lines are the digests of the newest contents of a log, and name files holding something of it. */
  ghost predicate Tracks(d: Dir, log: seq<Bytes>, sha: Bytes -> string) {
    && |d.history| <= |log|
    && forall j | 0 <= j < |d.history| ::
      && d.history[j].sha == sha(log[|log| - |d.history| + j])
      && d.history[j].bytes == |log[|log| - |d.history| + j]|
      && d.history[j].file in d.files && d.files[d.history[j].file].Capture?
      && d.files[d.history[j].file].bytes in log
  }

  lemma {:induction false} PruneTracks(d: Dir, keep: int, io: Io, log: seq<Bytes>, sha: Bytes -> string)
    requires Good(d, sha) && Tracks(d, log, sha)
    ensures Tracks(PruneDir(d, keep, io), log, sha)
  {
    PruneKeepsGood(d, keep, io, sha);
    PruneIsSuffix(d, keep, io);
    var d' := PruneDir(d, keep, io);
    forall e | e in d'.history
      ensures e.file in d'.files && d'.files[e.file] == d.files[e.file]
    {
    }
    SuffixTracks(d, d', log, sha);
  }

  lemma {:induction false} PruneIsSuffix(d: Dir, keep: int, io: Io)
    ensures var d' := PruneDir(d, keep, io);
            && |d'.history| <= |d.history| && d'.history == d.history[|d.history| - |d'.history|..]
            && forall n | n in d'.files :: n in d.files && d'.files[n] == d.files[n]
  {
  }

  lemma {:induction false} SuffixTracks(d: Dir, d': Dir, log: seq<Bytes>, sha: Bytes -> string)
    requires Tracks(d, log, sha)
    requires |d'.history| <= |d.history| && d'.history == d.history[|d.history| - |d'.history|..]
    requires forall e | e in d'.history ::
               e.file in d'.files && e.file in d.files && d'.files[e.file] == d.files[e.file]
    ensures Tracks(d', log, sha)
  {
    var cut := |d.history| - |d'.history|;
    forall j | 0 <= j < |d'.history|
      ensures d'.history[j] == d.history[cut + j] && d'.history[j] in d'.history
    {
    }
  }

  lemma {:induction false} RecordTracks(d: Dir, d': Dir, entry: Entry, content: Bytes, log: seq<Bytes>,
                                        sha: Bytes -> string)
    requires Tracks(d, log, sha) && d'.history == d.history + [entry]
    requires forall n | n in d.files :: n in d'.files && d'.files[n] == d.files[n]
    requires entry.sha == sha(content) && entry.bytes == |content|
    requires entry.file in d'.files && d'.files[entry.file].Capture? && d'.files[entry.file].bytes in log + [content]
    ensures Tracks(d', log + [content], sha)
  {
    var log' := log + [content];
    forall j | 0 <= j < |d.history|
      ensures d'.history[j] == d.history[j] && log'[|log'| - |d'.history| + j] == log[|log| - |d.history| + j]
    {
    }
  }

  lemma {:induction false} PutTracks(d: Dir, op: Op, log: seq<Bytes>, sha: Bytes -> string)
    requires op.Put? && Good(d, sha) && Tracks(d, log, sha)
    ensures Tracks(Step(d, op, sha), log + Recorded(d, op, sha), sha)
  {
    var digest := sha(op.content);
    LastStoredIsLast(d.history);
    var prev := LastStored(d.history);
    if prev.Some? && prev.value.sha == digest {
      var entry := Entry(op.at, op.command, digest, |op.content|, prev.value.file, true);
      if op.io.append {
        RecordTracks(d, d.(history := d.history + [entry]), entry, op.content, log, sha);
      } else {
        assert log + [] == log;
      }
    } else {
      PutNewTracks(d, op, log, sha);
    }
  }

  /** Whether a Put has new content to store. */
  ghost predicate Differs(d: Dir, op: Op, sha: Bytes -> string)
    requires op.Put?
  {
    d.history == [] || d.history[|d.history| - 1].sha != sha(op.content)
  }

  /** The directory with a new capture written and recorded, before pruning. */
  function WithNew(d: Dir, op: Op, sha: Bytes -> string): Dir
    requires op.Put?
  {
    var name := FreshName(d, op.stamp);
    Dir(d.files[name := Capture(op.content)],
        d.history + [Entry(op.at, op.command, sha(op.content), |op.content|, name, false)])
  }

  /** Where a Put of new content can stop. */
  lemma {:induction false} NewStep(d: Dir, op: Op, sha: Bytes -> string)
    requires op.Put? && Good(d, sha)
    requires Differs(d, op, sha)
    ensures if !op.io.write then Step(d, op, sha) == d && Recorded(d, op, sha) == []
            else if !op.io.append then
              Step(d, op, sha) == Dir(WithNew(d, op, sha).files, d.history) && Recorded(d, op, sha) == []
            else
              && Recorded(d, op, sha) == [op.content]
              && Step(d, op, sha) ==
                  if op.io.sync then PruneDir(WithNew(d, op, sha), op.keep, op.io) else WithNew(d, op, sha)
  {
    LastStoredIsLast(d.history);
  }

  lemma {:induction false} PutNewTracks(d: Dir, op: Op, log: seq<Bytes>, sha: Bytes -> string)
    requires op.Put? && Good(d, sha) && Tracks(d, log, sha)
    requires Differs(d, op, sha)
    ensures Tracks(Step(d, op, sha), log + Recorded(d, op, sha), sha)
  {
    NewStep(d, op, sha);
    NewTracks(d, op, log, sha);
    if op.io.write && op.io.append {
      PruneTracks(WithNew(d, op, sha), op.keep, op.io, log + [op.content], sha);
    } else {
      assert log + [] == log;
    }
  }

  lemma {:induction false} NewTracks(d: Dir, op: Op, log: seq<Bytes>, sha: Bytes -> string)
    requires op.Put? && Good(d, sha) && Tracks(d, log, sha)
    requires Differs(d, op, sha)
    ensures Good(WithNew(d, op, sha), sha) && Tracks(WithNew(d, op, sha), log + [op.content], sha)
    ensures Tracks(Dir(WithNew(d, op, sha).files, d.history), log, sha)
  {
    FreshNameIsFree(d, op.stamp);
    var name := FreshName(d, op.stamp);
    var entry := Entry(op.at, op.command, sha(op.content), |op.content|, name, false);
    RecordKeepsGood(d, name, op.content, entry, sha);
    RecordTracks(d, WithNew(d, op, sha), entry, op.content, log, sha);
  }

  lemma {:induction false} WriteParseTracks(d: Dir, op: Op, log: seq<Bytes>, sha: Bytes -> string)
    requires op.WriteParse? && Good(d, sha) && Tracks(d, log, sha)
    ensures Tracks(Step(d, op, sha), log, sha)
  {
    SweepInvertsParsedName(op.file);
    forall j | 0 <= j < |d.history|
      ensures d.history[j].file != ParsedName(op.file)
    {
      assert d.history[j] in d.history;
      TxtIsNotParsed(d.history[j].file);
    }
  }

  /** In every reachable directory, whatever stopped or was refused on the way. */
  lemma {:induction false} EveryRun(ops: seq<Op>, sha: Bytes -> string)
    ensures Good(After(ops, sha), sha) && Tracks(After(ops, sha), Log(ops, sha), sha)
  {
    if ops != [] {
      var before, op := ops[..|ops| - 1], ops[|ops| - 1];
      var d := After(before, sha);
      EveryRun(before, sha);
      match op
      case Put(at, stamp, command, content, keep, io) =>
        PutKeepsGood(d, at, stamp, command, content, keep, io, sha);
        PutTracks(d, op, Log(before, sha), sha);
      case WriteParse(file, parsed, written) =>
        PutParsedKeepsGood(d, file, parsed, written, sha);
        WriteParseTracks(d, op, Log(before, sha), sha);
        assert Log(ops, sha) == Log(before, sha);
    }
  }

  /** Whether a digest tells the given contents apart. */
  ghost predicate CollisionFree(sha: Bytes -> string, contents: seq<Bytes>) {
    forall x, y | x in contents && y in contents && sha(x) == sha(y) :: x == y
  }

  /**
   The backup theorem. After any run the history is a suffix of what was ever
   recorded, and the file each line names holds exactly that line's content.
   */
  lemma {:induction false} EveryLineReadsBack(ops: seq<Op>, sha: Bytes -> string, j: nat)
    requires CollisionFree(sha, Log(ops, sha)) && j < |After(ops, sha).history|
    ensures ReadsBack(After(ops, sha), Log(ops, sha), j)
  {
    EveryRun(ops, sha);
    LineReadsBack(After(ops, sha), Log(ops, sha), sha, j);
  }

  /** Line j names a file holding the content recorded with it, which the log has as many places from its end. */
  ghost predicate ReadsBack(d: Dir, log: seq<Bytes>, j: nat)
    requires j < |d.history|
  {
    && |d.history| <= |log|
    && var content := log[|log| - |d.history| + j];
       && d.history[j].file in d.files && d.files[d.history[j].file] == Capture(content)
       && d.history[j].bytes == |content|
  }

  lemma {:induction false} LineReadsBack(d: Dir, log: seq<Bytes>, sha: Bytes -> string, j: nat)
    requires Good(d, sha) && Tracks(d, log, sha) && CollisionFree(sha, log) && j < |d.history|
    ensures ReadsBack(d, log, j)
  {
    assert d.history[j] in d.history;
  }

  /** No Put prunes. */
  ghost predicate WithoutRetention(ops: seq<Op>) {
    forall k | 0 <= k < |ops| && ops[k].Put? :: ops[k].keep <= 0
  }

  lemma {:induction false} LastStep(ops: seq<Op>, sha: Bytes -> string)
    requires ops != []
    ensures var before, op := ops[..|ops| - 1], ops[|ops| - 1];
            && After(ops, sha) == Step(After(before, sha), op, sha)
            && Log(ops, sha) == Log(before, sha) + Recorded(After(before, sha), op, sha)
  {
  }

  lemma {:induction false} LinesGrow(d: Dir, op: Op, sha: Bytes -> string)
    requires op.Put? ==> op.keep <= 0
    ensures |Step(d, op, sha).history| == |d.history| + |Recorded(d, op, sha)|
    ensures d.history <= Step(d, op, sha).history
  {
  }

  /** Without retention nothing is ever dropped: every content recorded has its line, in order, whatever else fails. */
  lemma {:induction false} NothingDropped(ops: seq<Op>, sha: Bytes -> string)
    requires WithoutRetention(ops)
    ensures |After(ops, sha).history| == |Log(ops, sha)|
  {
    if ops != [] {
      var n := |ops| - 1;
      NothingDropped(ops[..n], sha);
      LinesGrow(After(ops[..n], sha), ops[n], sha);
      LastStep(ops, sha);
    }
  }

  /** The contents of the Puts of a run, in order. */
  function ContentsOf(ops: seq<Op>): seq<Bytes> {
    if ops == [] then []
    else ContentsOf(ops[..|ops| - 1]) + if ops[|ops| - 1].Put? then [ops[|ops| - 1].content] else []
  }

  /** What is recorded: the content of every Put, if each could write and append, whatever happened to it after that. */
  lemma {:induction false} EveryPutRecorded(ops: seq<Op>, sha: Bytes -> string)
    requires forall k | 0 <= k < |ops| && ops[k].Put? :: ops[k].io.write && ops[k].io.append
    ensures Log(ops, sha) == ContentsOf(ops)
  {
    if ops != [] {
      EveryPutRecorded(ops[..|ops| - 1], sha);
    }
  }

  /** Without retention the i-th line's file is the i-th content recorded, for every one of them. */
  lemma {:induction false} BackupWithoutRetention(ops: seq<Op>, sha: Bytes -> string, i: nat)
    requires WithoutRetention(ops) && CollisionFree(sha, Log(ops, sha)) && i < |Log(ops, sha)|
    ensures var d := After(ops, sha);
            |d.history| == |Log(ops, sha)| && ReadsBack(d, Log(ops, sha), i)
            && d.files[d.history[i].file] == Capture(Log(ops, sha)[i])
  {
    NothingDropped(ops, sha);
    EveryLineReadsBack(ops, sha, i);
  }

  // ----- retention

  /** The longest end of a history that names at most keep files. */
  ghost predicate NewestOf(kept: seq<Entry>, h: seq<Entry>, keep: nat) {
    && |kept| <= |h| && kept == h[|h| - |kept|..] && |Files(kept)| <= keep
    && forall i | 0 <= i < |h| - |kept| :: |Files(h[i..])| > keep
  }

  /** A prune that is not stopped and not refused leaves exactly the newest keep versions. */
  lemma {:induction false} PruneKeepsNewest(d: Dir, keep: int, sha: Bytes -> string)
    requires Good(d, sha) && d.history != [] && keep > 0
    ensures var d' := PruneDir(d, keep, ALL_GOES_WELL);
            && NewestOf(d'.history, d.history, keep)
            && (forall n | EndsWith(n, TXT) :: n in d'.files <==> n in Files(d'.history))
            && (forall n | n in d'.files && EndsWith(n, PARSED) :: RawOf(n) in Files(d'.history))
            && (forall n | n in d'.files :: n in d.files && d'.files[n] == d.files[n])
            && (forall n | n in d.files && !EndsWith(n, TXT) && !EndsWith(n, PARSED) :: n in d'.files)
  {
    CutIsLongest(d.history, keep);
    PruneKeepsGood(d, keep, ALL_GOES_WELL, sha);
    forall n | EndsWith(n, TXT)
      ensures !EndsWith(n, PARSED)
    {
      TxtIsNotParsed(n);
    }
  }

  /**
   The next Put that stores a file under retention, unhindered, heals whatever
   earlier ones left behind: its history is the longest end of what was recorded
   that names at most keep files, and these are the captures that are there.
  */
  lemma {:induction false} PutHeals(d: Dir, at: nat, stamp: string, command: string, content: Bytes, keep: int,
                                    sha: Bytes -> string)
    requires Good(d, sha) && keep > 0
    ensures var (d', outcome) := PutDir(d, at, stamp, command, content, sha(content), keep, ALL_GOES_WELL);
            outcome.Stored? ==>
              !outcome.pruneFailed && outcome.name in Files(d'.history) &&
              Healed(d', d.history + [Entry(at, command, sha(content), |content|, outcome.name, false)], keep)
  {
    LastStoredIsLast(d.history);
    if d.history == [] || d.history[|d.history| - 1].sha != sha(content) {
      var name := FreshName(d, stamp);
      FreshNameIsFree(d, stamp);
      var entry := Entry(at, command, sha(content), |content|, name, false);
      var recorded := Dir(d.files[name := Capture(content)], d.history + [entry]);
      RecordKeepsGood(d, name, content, entry, sha);
      PruneHeals(recorded, entry, keep, sha);
      assert PutDir(d, at, stamp, command, content, sha(content), keep, ALL_GOES_WELL)
          == (PruneDir(recorded, keep, ALL_GOES_WELL), StoreModel.Stored(name, false));
    }
  }

  /**
   Nothing is left to prune: the longest end of a history that fits, exactly its
   captures, and no parse of another.
  */
  ghost predicate Healed(d: Dir, h: seq<Entry>, keep: nat) {
    && NewestOf(d.history, h, keep)
    && (forall n | EndsWith(n, TXT) :: n in d.files <==> n in Files(d.history))
    && (forall n | n in d.files && EndsWith(n, PARSED) :: RawOf(n) in Files(d.history))
  }

  lemma {:induction false} PruneHeals(recorded: Dir, entry: Entry, keep: int, sha: Bytes -> string)
    requires Good(recorded, sha) && recorded.history != [] && recorded.history[|recorded.history| - 1] == entry
    requires keep > 0
    ensures var d' := PruneDir(recorded, keep, ALL_GOES_WELL);
            !PruneFails(recorded, keep, ALL_GOES_WELL) && entry.file in Files(d'.history)
            && Healed(d', recorded.history, keep)
  {
    PruneKeepsNewest(recorded, keep, sha);
    CutBeforeEnd(recorded.history, keep);
    var kept := PruneDir(recorded, keep, ALL_GOES_WELL).history;
    assert entry in recorded.history && kept[|kept| - 1] == entry && entry in kept;
  }

  /** A file that a history does not need any more: a capture it does not name, or the parse of one. */
  predicate Obsolete(n: string, h: seq<Entry>) {
    (EndsWith(n, PARSED) && RawOf(n) !in Files(h)) || (EndsWith(n, TXT) && !EndsWith(n, PARSED) && n !in Files(h))
  }

  /**
   A Put that stored a capture reports a failed prune exactly if something is left
   to prune: history names too many files, or a file it does not need is there.
  */
  lemma {:induction false} PruneReports(d: Dir, at: nat, stamp: string, command: string, content: Bytes, digest: string,
                                        keep: int, io: Io)
    requires PutDir(d, at, stamp, command, content, digest, keep, io).1.Stored?
    ensures var (d', outcome) := PutDir(d, at, stamp, command, content, digest, keep, io);
            outcome.pruneFailed <==>
            keep > 0 && (|Files(d'.history)| > keep || exists n | n in d'.files :: Obsolete(n, d'.history))
  {
    var name := FreshName(d, stamp);
    var recorded := Dir(d.files[name := Capture(content)],
                        d.history + [Entry(at, command, digest, |content|, name, false)]);
    PruneTells(recorded, keep, io);
  }

  lemma {:induction false} PruneTells(d: Dir, keep: int, io: Io)
    requires d.history != []
    ensures var d' := PruneDir(d, keep, io);
            PruneFails(d, keep, io) <==>
            keep > 0 && (|Files(d'.history)| > keep || exists n | n in d'.files :: Obsolete(n, d'.history))
  {
    if keep > 0 {
      CutIsLongest(d.history, keep);
      var cut := CutOf(d.history, keep);
      if cut > 0 && !io.rewrite {
        assert d.history[0..] == d.history;
      } else {
        SweepTells(d, PruneDir(d, keep, io), Files(d.history[cut..]), io.refused);
      }
    }
  }

  lemma {:induction false} SweepTells(d: Dir, d': Dir, survive: set<string>, refused: set<string>)
    requires d'.files == map n | n in d.files && (!Swept(n, survive) || n in refused) :: d.files[n]
    requires survive == Files(d'.history)
    ensures (exists n | n in d.files :: Swept(n, survive) && n in refused)
            <==> exists n | n in d'.files :: Obsolete(n, d'.history)
  {
    if n :| n in d.files && Swept(n, survive) && n in refused {
      assert n in d'.files && Obsolete(n, d'.history);
    }
    if n :| n in d'.files && Obsolete(n, d'.history) {
      assert n in d.files && Swept(n, survive) && n in refused;
    }
  }

  // ----- parses stay with their captures

  /** Every parse lies beside its capture and was made from the content that is there. */
  ghost predicate ParsesMatch(d: Dir, sha: Bytes -> string) {
    forall n | n in d.files && EndsWith(n, PARSED) :: RawOf(n) in d.files && MadeFromRaw(d, n, sha)
  }

  /** What a reader needs: no parse lies beside content it was not made from. */
  ghost predicate NoneStale(d: Dir, sha: Bytes -> string) {
    forall n | n in d.files && EndsWith(n, PARSED) && RawOf(n) in d.files :: MadeFromRaw(d, n, sha)
  }

  ghost predicate MadeFromRaw(d: Dir, n: string, sha: Bytes -> string)
    requires n in d.files && RawOf(n) in d.files
  {
    d.files[n].Parse? && Holds(d, RawOf(n), d.files[n].parsed.rawSha, sha)
  }

  /** Whether a file is a capture whose content has a digest. */
  ghost predicate Holds(d: Dir, file: string, digest: string, sha: Bytes -> string)
    requires file in d.files
  {
    d.files[file].Capture? && sha(d.files[file].bytes) == digest
  }

  /** Of the parses whose captures go, those that cannot be deleted are those whose captures cannot either. */
  ghost predicate ParsesGoFirst(d: Dir, survive: set<string>, refused: set<string>) {
    forall n | n in d.files && EndsWith(n, PARSED) && RawOf(n) !in survive && n in refused :: RawOf(n) in refused
  }

  ghost predicate SweepsInOrder(d: Dir, keep: int, io: Io) {
    keep > 0 && d.history != [] && (CutOf(d.history, keep) == 0 || io.rewrite)
    ==> ParsesGoFirst(d, Files(d.history[CutOf(d.history, keep)..]), io.refused)
  }

  lemma {:induction false} RawIsTxt(sidecar: string)
    ensures EndsWith(RawOf(sidecar), TXT) && !EndsWith(RawOf(sidecar), PARSED)
  {
    var stem := TrimSuffix(sidecar, PARSED);
    assert (stem + TXT)[|stem|..] == TXT;
    TxtIsNotParsed(RawOf(sidecar));
  }

  /** What a sweep leaves of a parse and its capture. */
  lemma {:induction false} SweptPair(n: string, survive: set<string>, refused: set<string>)
    requires EndsWith(n, PARSED)
    ensures !Swept(n, survive) || n in refused <==> RawOf(n) in survive || n in refused
    ensures !Swept(RawOf(n), survive) || RawOf(n) in refused <==> RawOf(n) in survive || RawOf(n) in refused
  {
    RawIsTxt(n);
  }

  lemma {:induction false} SweepMatches(d: Dir, d': Dir, survive: set<string>, refused: set<string>,
                                        sha: Bytes -> string)
    requires ParsesMatch(d, sha)
    requires d'.files == map n | n in d.files && (!Swept(n, survive) || n in refused) :: d.files[n]
    ensures ParsesMatch(d', sha) <==> ParsesGoFirst(d, survive, refused)
  {
    forall n | n in d.files && EndsWith(n, PARSED)
      ensures n in d'.files ==> (RawOf(n) in d'.files <==> RawOf(n) in survive || RawOf(n) in refused)
      ensures n in d'.files <==> RawOf(n) in survive || n in refused
    {
      SweptPair(n, survive, refused);
    }
  }

  /** A prune leaves every parse with its capture exactly if its sweep takes no capture and leaves the parse. */
  lemma {:induction false} PruneMatches(d: Dir, keep: int, io: Io, sha: Bytes -> string)
    requires ParsesMatch(d, sha)
    ensures ParsesMatch(PruneDir(d, keep, io), sha) <==> SweepsInOrder(d, keep, io)
  {
    if keep > 0 && d.history != [] && (CutOf(d.history, keep) == 0 || io.rewrite) {
      SweepMatches(d, PruneDir(d, keep, io), Files(d.history[CutOf(d.history, keep)..]), io.refused, sha);
    }
  }

  /** The condition on a Put: when it prunes, the sweep is in order. */
  ghost predicate PutInOrder(d: Dir, op: Op, sha: Bytes -> string)
    requires op.Put?
  {
    Differs(d, op, sha) && op.io.write && op.io.append && op.io.sync ==>
      SweepsInOrder(WithNew(d, op, sha), op.keep, op.io)
  }

  /** The condition on writing a parse: its digest is that of the capture its name belongs to. */
  ghost predicate ParseInOrder(d: Dir, file: string, parsed: ParsedFile, written: bool, sha: Bytes -> string) {
    var raw := RawOf(ParsedName(file));
    Exists(d, file) && written ==> raw in d.files && Holds(d, raw, parsed.rawSha, sha)
  }

  ghost predicate StepInOrder(d: Dir, op: Op, sha: Bytes -> string) {
    match op
    case Put(_, _, _, _, _, _) => PutInOrder(d, op, sha)
    case WriteParse(file, parsed, written) => ParseInOrder(d, file, parsed, written, sha)
  }

  lemma {:induction false} NewFileMatches(d: Dir, name: string, content: Bytes, sha: Bytes -> string)
    requires ParsesMatch(d, sha) && name !in d.files && !EndsWith(name, PARSED)
    ensures ParsesMatch(d.(files := d.files[name := Capture(content)]), sha)
  {
  }

  lemma {:induction false} SameFilesMatch(d: Dir, d': Dir, sha: Bytes -> string)
    requires d.files == d'.files
    ensures ParsesMatch(d, sha) <==> ParsesMatch(d', sha)
    ensures NoneStale(d, sha) <==> NoneStale(d', sha)
  {
  }

  lemma {:induction false} PutMatches(d: Dir, op: Op, sha: Bytes -> string)
    requires op.Put? && Good(d, sha) && ParsesMatch(d, sha)
    ensures ParsesMatch(Step(d, op, sha), sha) <==> PutInOrder(d, op, sha)
  {
    LastStoredIsLast(d.history);
    if Differs(d, op, sha) {
      FreshNameIsFree(d, op.stamp);
      TxtIsNotParsed(FreshName(d, op.stamp));
      NewStep(d, op, sha);
      var d' := WithNew(d, op, sha);
      NewFileMatches(d, FreshName(d, op.stamp), op.content, sha);
      SameFilesMatch(d.(files := d'.files), d', sha);
      PruneMatches(d', op.keep, op.io, sha);
    } else {
      SameFilesMatch(d, Step(d, op, sha), sha);
    }
  }

  lemma {:induction false} WriteParseMatches(d: Dir, file: string, parsed: ParsedFile, written: bool,
                                             sha: Bytes -> string)
    requires ParsesMatch(d, sha)
    ensures ParsesMatch(PutParsedDir(d, file, parsed, written), sha) <==> ParseInOrder(d, file, parsed, written, sha)
  {
    var mine := ParsedName(file);
    var d' := PutParsedDir(d, file, parsed, written);
    SweepInvertsParsedName(file);
    forall n: string
      ensures RawOf(n) != mine
    {
      RawIsTxt(n);
    }
  }

  /** One step keeps every parse with its capture exactly if it is in order. */
  lemma {:induction false} StepMatches(d: Dir, op: Op, sha: Bytes -> string)
    requires Good(d, sha) && ParsesMatch(d, sha)
    ensures ParsesMatch(Step(d, op, sha), sha) <==> StepInOrder(d, op, sha)
  {
    match op
    case Put(_, _, _, _, _, _) => PutMatches(d, op, sha);
    case WriteParse(file, parsed, written) => WriteParseMatches(d, file, parsed, written, sha);
  }

  /** Whether every step of a run is in order. */
  ghost predicate Orderly(ops: seq<Op>, sha: Bytes -> string) {
    forall k | 0 <= k < |ops| :: StepInOrder(After(ops[..k], sha), ops[k], sha)
  }

  lemma {:induction false} AfterOneMore(ops: seq<Op>, k: nat, sha: Bytes -> string)
    requires k < |ops|
    ensures After(ops[..k + 1], sha) == Step(After(ops[..k], sha), ops[k], sha)
  {
    assert ops[..k + 1][..k] == ops[..k];
  }

  /**
   In every run: all along it each parse lies beside the capture it was made
   from, exactly if every step of the run is in order.
   */
  lemma {:induction false} EveryParseMatches(ops: seq<Op>, sha: Bytes -> string)
    ensures (forall k | 0 <= k <= |ops| :: ParsesMatch(After(ops[..k], sha), sha)) <==> Orderly(ops, sha)
  {
    if Orderly(ops, sha) {
      forall k | 0 <= k <= |ops|
        ensures ParsesMatch(After(ops[..k], sha), sha)
      {
        OrderlyMatches(ops, k, sha);
      }
    }
    if forall k | 0 <= k <= |ops| :: ParsesMatch(After(ops[..k], sha), sha) {
      forall k | 0 <= k < |ops|
        ensures StepInOrder(After(ops[..k], sha), ops[k], sha)
      {
        EveryRun(ops[..k], sha);
        AfterOneMore(ops, k, sha);
        StepMatches(After(ops[..k], sha), ops[k], sha);
      }
    }
  }

  lemma {:induction false} OrderlyMatches(ops: seq<Op>, k: nat, sha: Bytes -> string)
    requires k <= |ops| && Orderly(ops, sha)
    ensures ParsesMatch(After(ops[..k], sha), sha)
  {
    if k > 0 {
      OrderlyMatches(ops, k - 1, sha);
      EveryRun(ops[..k - 1], sha);
      AfterOneMore(ops, k - 1, sha);
      StepMatches(After(ops[..k - 1], sha), ops[k - 1], sha);
    }
  }

  // ----- no parse lies beside content it was not made from

  /**
   The condition a reader depends on: no capture is stored under a name whose
   parse is still there and was made from something else, and no parse is
   written with a digest other than its capture's.
   */
  ghost predicate StepIsFresh(d: Dir, op: Op, sha: Bytes -> string) {
    match op
    case Put(_, stamp, _, content, _, io) =>
      var sidecar := ParsedName(FreshName(d, stamp));
      Differs(d, op, sha) && io.write && sidecar in d.files
      ==> d.files[sidecar].Parse? && d.files[sidecar].parsed.rawSha == sha(content)
    case WriteParse(file, parsed, written) =>
      var raw := RawOf(ParsedName(file));
      Exists(d, file) && written && raw in d.files ==> Holds(d, raw, parsed.rawSha, sha)
  }

  lemma {:induction false} NewFileStale(d: Dir, name: string, content: Bytes, sha: Bytes -> string)
    requires NoneStale(d, sha) && name !in d.files && EndsWith(name, TXT)
    ensures NoneStale(d.(files := d.files[name := Capture(content)]), sha)
            <==> (ParsedName(name) in d.files ==>
                    d.files[ParsedName(name)].Parse? && d.files[ParsedName(name)].parsed.rawSha == sha(content))
  {
    var d' := d.(files := d.files[name := Capture(content)]);
    SweepInvertsParsedName(name);
    TxtIsNotParsed(name);
    forall n | n in d'.files && EndsWith(n, PARSED)
      ensures RawOf(n) == name ==> n == ParsedName(name)
    {
      if RawOf(n) == name {
        RawReadsBack(n);
      }
    }
  }

  lemma {:induction false} RawReadsBack(sidecar: string)
    requires EndsWith(sidecar, PARSED)
    ensures ParsedName(RawOf(sidecar)) == sidecar
  {
    var stem := TrimSuffix(sidecar, PARSED);
    assert stem + PARSED == sidecar && (stem + TXT)[|stem|..] == TXT;
    assert TrimSuffix(stem + TXT, TXT) == stem;
  }

  /** A prune never makes a parse stale, and removes none whose capture survives. */
  lemma {:induction false} PruneStale(d: Dir, keep: int, io: Io, sha: Bytes -> string)
    requires NoneStale(d, sha)
    ensures NoneStale(PruneDir(d, keep, io), sha)
  {
    PruneIsSuffix(d, keep, io);
  }

  lemma {:induction false} PruneKeepsPair(d: Dir, keep: int, io: Io, sha: Bytes -> string)
    requires Good(d, sha) && d.history != []
    ensures var d', newest := PruneDir(d, keep, io), d.history[|d.history| - 1].file;
            && newest in d'.files && d'.files[newest] == d.files[newest]
            && (ParsedName(newest) in d.files ==>
                  ParsedName(newest) in d'.files && d'.files[ParsedName(newest)] == d.files[ParsedName(newest)])
  {
    var last := d.history[|d.history| - 1];
    SweepInvertsParsedName(last.file);
    TxtIsNotParsed(last.file);
    if keep > 0 {
      CutBeforeEnd(d.history, keep);
      var kept := d.history[CutOf(d.history, keep)..];
      assert kept[|kept| - 1] == last && last in kept;
    }
  }

  lemma {:induction false} PairStale(d: Dir, name: string, sha: Bytes -> string)
    requires NoneStale(d, sha) && name in d.files && EndsWith(name, TXT) && ParsedName(name) in d.files
    ensures d.files[ParsedName(name)].Parse? && Holds(d, name, d.files[ParsedName(name)].parsed.rawSha, sha)
  {
    SweepInvertsParsedName(name);
  }

  lemma {:induction false} PutFresh(d: Dir, op: Op, sha: Bytes -> string)
    requires op.Put? && Good(d, sha) && NoneStale(d, sha)
    ensures NoneStale(Step(d, op, sha), sha) <==> StepIsFresh(d, op, sha)
  {
    LastStoredIsLast(d.history);
    if !Differs(d, op, sha) {
      SameFilesMatch(d, Step(d, op, sha), sha);
    } else {
      NewStep(d, op, sha);
      if op.io.write {
        NewFresh(d, op, sha);
      }
    }
  }

  lemma {:induction false} NewFresh(d: Dir, op: Op, sha: Bytes -> string)
    requires op.Put? && Good(d, sha) && NoneStale(d, sha) && Differs(d, op, sha) && op.io.write
    ensures var d' := WithNew(d, op, sha);
            && (NoneStale(PruneDir(d', op.keep, op.io), sha) <==> StepIsFresh(d, op, sha))
            && (NoneStale(d', sha) <==> StepIsFresh(d, op, sha))
            && (NoneStale(Dir(d'.files, d.history), sha) <==> StepIsFresh(d, op, sha))
  {
    var name, d' := FreshName(d, op.stamp), WithNew(d, op, sha);
    FreshNameIsFree(d, op.stamp);
    SweepInvertsParsedName(name);
    TxtIsNotParsed(name);
    NewFileStale(d, name, op.content, sha);
    SameFilesMatch(Dir(d'.files, d.history), d', sha);
    NewIsGood(d, op, sha);
    var after := PruneDir(d', op.keep, op.io);
    if NoneStale(d', sha) {
      PruneStale(d', op.keep, op.io, sha);
    }
    PruneKeepsPair(d', op.keep, op.io, sha);
    if NoneStale(after, sha) && ParsedName(name) in d.files {
      PairStale(after, name, sha);
    }
  }

  lemma {:induction false} NewIsGood(d: Dir, op: Op, sha: Bytes -> string)
    requires op.Put? && Good(d, sha) && Differs(d, op, sha)
    ensures Good(WithNew(d, op, sha), sha)
  {
    var name := FreshName(d, op.stamp);
    FreshNameIsFree(d, op.stamp);
    RecordKeepsGood(d, name, op.content, Entry(op.at, op.command, sha(op.content), |op.content|, name, false), sha);
  }

  lemma {:induction false} WriteParseFresh(d: Dir, op: Op, sha: Bytes -> string)
    requires op.WriteParse? && NoneStale(d, sha)
    ensures NoneStale(Step(d, op, sha), sha) <==> StepIsFresh(d, op, sha)
  {
    SweepInvertsParsedName(op.file);
    forall n: string
      ensures RawOf(n) != ParsedName(op.file)
    {
      RawIsTxt(n);
    }
  }

  lemma {:induction false} StepFresh(d: Dir, op: Op, sha: Bytes -> string)
    requires Good(d, sha) && NoneStale(d, sha)
    ensures NoneStale(Step(d, op, sha), sha) <==> StepIsFresh(d, op, sha)
  {
    if op.Put? {
      PutFresh(d, op, sha);
    } else {
      WriteParseFresh(d, op, sha);
    }
  }

  /** Whether no step of a run makes a parse stale. */
  ghost predicate Fresh(ops: seq<Op>, sha: Bytes -> string) {
    forall k | 0 <= k < |ops| :: StepIsFresh(After(ops[..k], sha), ops[k], sha)
  }

  lemma {:induction false} FreshAllAlong(ops: seq<Op>, k: nat, sha: Bytes -> string)
    requires k <= |ops| && Fresh(ops, sha)
    ensures NoneStale(After(ops[..k], sha), sha)
  {
    if k > 0 {
      FreshAllAlong(ops, k - 1, sha);
      EveryRun(ops[..k - 1], sha);
      AfterOneMore(ops, k - 1, sha);
      StepFresh(After(ops[..k - 1], sha), ops[k - 1], sha);
    }
  }

  /** In every run: all along it no parse is stale, exactly if no step makes one so. */
  lemma {:induction false} NoParseStale(ops: seq<Op>, sha: Bytes -> string)
    ensures (forall k | 0 <= k <= |ops| :: NoneStale(After(ops[..k], sha), sha)) <==> Fresh(ops, sha)
  {
    if Fresh(ops, sha) {
      forall k | 0 <= k <= |ops|
        ensures NoneStale(After(ops[..k], sha), sha)
      {
        FreshAllAlong(ops, k, sha);
      }
    }
    if forall k | 0 <= k <= |ops| :: NoneStale(After(ops[..k], sha), sha) {
      forall k | 0 <= k < |ops|
        ensures StepIsFresh(After(ops[..k], sha), ops[k], sha)
      {
        EveryRun(ops[..k], sha);
        AfterOneMore(ops, k, sha);
        StepFresh(After(ops[..k], sha), ops[k], sha);
      }
    }
  }
}
