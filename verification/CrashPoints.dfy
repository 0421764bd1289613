/**
 Put and pruneType (internal/capture/store.go) as the file steps they take, one
 after the other. A process can end between any two of them, and the operating
 system can refuse any unlink. Every directory that can be left that way is one
 that StoreModel.PutDir describes for some Io, so what is proved there for every
 Io holds at every crash point.
 */
module CrashPoints {
  import opened ByteOrder
  import opened FileNames
  import opened Sequences
  import opened StoreModel
  import opened StoreTheorems

  datatype FileStep =
    | WriteCapture(name: string, content: Bytes)
    | AppendLine(entry: Entry)
    | RewriteHistory(kept: seq<Entry>)
    | Unlink(victim: string)

  /** One file step; an unlink may be refused. */
  function Do(d: Dir, s: FileStep, refused: set<string>): Dir {
    match s
    case WriteCapture(name, content) => d.(files := d.files[name := Capture(content)])
    case AppendLine(entry) => d.(history := d.history + [entry])
    case RewriteHistory(kept) => d.(history := kept)
    case Unlink(victim) => if victim in refused then d else d.(files := d.files - {victim})
  }

  function DoAll(d: Dir, steps: seq<FileStep>, refused: set<string>): Dir
    decreases |steps|
  {
    if steps == [] then d else DoAll(Do(d, steps[0], refused), steps[1..], refused)
  }

  /** The unlinks of a sweep, in the order the directory is listed. */
  function Unlinks(listing: seq<string>, survive: set<string>): seq<FileStep> {
    if listing == [] then []
    else (if Swept(listing[0], survive) then [Unlink(listing[0])] else []) + Unlinks(listing[1..], survive)
  }

  /** The steps of a prune: history is rewritten before any file goes. */
  function PruneSteps(d: Dir, keep: int, listing: seq<string>): seq<FileStep> {
    if keep <= 0 || d.history == [] then []
    else
      var cut := CutOf(d.history, keep);
      (if cut > 0 then [RewriteHistory(d.history[cut..])] else []) + Unlinks(listing, Files(d.history[cut..]))
  }

  /** The steps of a Put. listing is what the directory holds when it comes to the sweep. */
  function PutSteps(d: Dir, op: Op, sha: Bytes -> string, listing: seq<string>): seq<FileStep>
    requires op.Put?
  {
    var digest := sha(op.content);
    if Repeats(d, digest) then
      [AppendLine(Entry(op.at, op.command, digest, |op.content|, LastStored(d.history).value.file, true))]
    else
      var name := FreshName(d, op.stamp);
      [WriteCapture(name, op.content), AppendLine(Entry(op.at, op.command, digest, |op.content|, name, false))]
      + PruneSteps(WithNew(d, op, sha), op.keep, listing)
  }

  /** Whether a listing names the files of a directory. */
  ghost predicate Lists(listing: seq<string>, d: Dir) {
    forall n :: n in listing <==> n in d.files
  }

  // ----- stopping the sweep

  lemma {:induction false} UnlinksOnly(d: Dir, steps: seq<FileStep>, refused: set<string>)
    requires forall s | s in steps :: s.Unlink?
    ensures DoAll(d, steps, refused) ==
            d.(files := map n | n in d.files && (Unlink(n) !in steps || n in refused) :: d.files[n])
    decreases |steps|
  {
    if steps != [] {
      assert steps[0] in steps && forall s | s in steps[1..] :: s in steps;
      var d1 := Do(d, steps[0], refused);
      UnlinksOnly(d1, steps[1..], refused);
      forall n | n in d.files
        ensures Unlink(n) in steps <==> n == steps[0].victim || Unlink(n) in steps[1..]
      {
        assert steps == [steps[0]] + steps[1..];
      }
      var left := map n | n in d.files && (Unlink(n) !in steps || n in refused) :: d.files[n];
      var left1 := map n | n in d1.files && (Unlink(n) !in steps[1..] || n in refused) :: d1.files[n];
      assert left == left1;
    }
  }

  lemma {:induction false} UnlinksNameSwept(listing: seq<string>, survive: set<string>)
    ensures forall s | s in Unlinks(listing, survive) :: s.Unlink?
    ensures forall n :: Unlink(n) in Unlinks(listing, survive) <==> n in listing && Swept(n, survive)
  {
    if listing != [] {
      UnlinksNameSwept(listing[1..], survive);
      assert listing == [listing[0]] + listing[1..];
    }
  }

  /** A sweep stopped after n unlinks is a sweep that is refused the others. */
  lemma {:induction false} StoppedSweep(d: Dir, listing: seq<string>, survive: set<string>, n: nat,
                                        refused: set<string>)
    returns (all: set<string>)
    requires Lists(listing, d) && n <= |Unlinks(listing, survive)|
    ensures DoAll(d, Unlinks(listing, survive)[..n], refused) ==
            d.(files := map x | x in d.files && (!Swept(x, survive) || x in all) :: d.files[x])
    ensures all == refused + (set x | x in d.files && Unlink(x) !in Unlinks(listing, survive)[..n])
  {
    var steps := Unlinks(listing, survive);
    UnlinksNameSwept(listing, survive);
    assert forall s | s in steps[..n] :: s in steps;
    UnlinksOnly(d, steps[..n], refused);
    all := refused + (set x | x in d.files && Unlink(x) !in steps[..n]);
  }

  // ----- stopping a Put

  lemma {:induction false} DoAllAppend(d: Dir, s: seq<FileStep>, t: seq<FileStep>, refused: set<string>)
    ensures DoAll(d, s + t, refused) == DoAll(DoAll(d, s, refused), t, refused)
    decreases |s|
  {
    if s == [] {
      assert s + t == t;
    } else {
      assert (s + t)[1..] == s[1..] + t;
      DoAllAppend(Do(d, s[0], refused), s[1..], t, refused);
    }
  }

  /** Wherever a prune stops, it is the prune of some Io. */
  lemma {:induction false} StoppedPrune(d: Dir, keep: int, listing: seq<string>, n: nat, refused: set<string>)
    returns (io: Io)
    requires Lists(listing, d) && n <= |PruneSteps(d, keep, listing)|
    ensures DoAll(d, PruneSteps(d, keep, listing)[..n], refused) == PruneDir(d, keep, io)
    ensures io.write && io.append && io.sync
  {
    io := Io(true, true, true, false, refused + d.files.Keys);
    var steps := PruneSteps(d, keep, listing);
    if keep > 0 && d.history != [] {
      var cut := CutOf(d.history, keep);
      var kept := d.history[cut..];
      var first := if cut > 0 then [RewriteHistory(kept)] else [];
      var unlinks := Unlinks(listing, Files(kept));
      var d1 := d.(history := kept);
      if n < |first| {
        assert steps[..n] == [];
      } else {
        assert steps[..n] == first + unlinks[..n - |first|];
        DoAllAppend(d, first, unlinks[..n - |first|], refused);
        assert DoAll(d, first, refused) == d1 by {
          assert cut == 0 ==> kept == d.history;
          assert first != [] ==> first[1..] == [];
        }
        var all := StoppedSweep(d1, listing, Files(kept), n - |first|, refused);
        io := Io(true, true, true, true, all);
      }
    }
  }

  /** The one step of a Put whose content is there already: its line is appended, or not. */
  lemma {:induction false} StoppedRepeat(d: Dir, op: Op, sha: Bytes -> string, listing: seq<string>, n: nat,
                                         refused: set<string>)
    returns (io: Io)
    requires op.Put? && Good(d, sha) && !Differs(d, op, sha) && n <= |PutSteps(d, op, sha, listing)|
    ensures DoAll(d, PutSteps(d, op, sha, listing)[..n], refused) == Step(d, op.(io := io), sha)
  {
    LastStoredIsLast(d.history);
    var steps := PutSteps(d, op, sha, listing);
    assert |steps| == 1;
    io := Io(true, n == 1, true, true, refused);
    if n == 0 {
      assert steps[..0] == [];
    } else {
      assert steps[..1] == [steps[0]];
      OneStep(d, steps[0], refused);
    }
  }

  lemma {:induction false} OneStep(d: Dir, s: FileStep, refused: set<string>)
    ensures DoAll(d, [s], refused) == Do(d, s, refused)
  {
    assert [s][1..] == [];
  }

  /** The steps of a Put with new content: the two that write and record it, and those of its prune. */
  lemma {:induction false} NewSteps(d: Dir, op: Op, sha: Bytes -> string, listing: seq<string>)
    requires op.Put? && Good(d, sha) && Differs(d, op, sha)
    ensures PutSteps(d, op, sha, listing)
            == [WriteCapture(FreshName(d, op.stamp), op.content),
                AppendLine(Entry(op.at, op.command, sha(op.content), |op.content|, FreshName(d, op.stamp), false))]
               + PruneSteps(WithNew(d, op, sha), op.keep, listing)
  {
    LastStoredIsLast(d.history);
  }

  lemma {:induction false} FirstSteps(x: FileStep, y: FileStep, more: seq<FileStep>, n: nat)
    requires n <= 2 + |more|
    ensures ([x, y] + more)[..n] == if n == 0 then [] else if n == 1 then [x] else [x, y] + more[..n - 2]
  {
  }

  /** Wherever a Put stops, and whatever it is refused, the directory left is that of some Io. */
  lemma {:induction false} StoppedPut(d: Dir, op: Op, sha: Bytes -> string, listing: seq<string>, n: nat,
                                      refused: set<string>)
    returns (io: Io)
    requires op.Put? && Good(d, sha)
    requires Lists(listing, WithNew(d, op, sha)) && n <= |PutSteps(d, op, sha, listing)|
    ensures DoAll(d, PutSteps(d, op, sha, listing)[..n], refused) == Step(d, op.(io := io), sha)
  {
    if !Differs(d, op, sha) {
      io := StoppedRepeat(d, op, sha, listing, n, refused);
    } else if n < 2 {
      io := StoppedEarly(d, op, sha, listing, n, refused);
    } else {
      io := StoppedAfterRecord(d, op, sha, listing, n, refused);
      NewStep(d, op.(io := io), sha);
    }
  }

  /** Before its line is appended, a Put has written its file or done nothing. */
  lemma {:induction false} StoppedEarly(d: Dir, op: Op, sha: Bytes -> string, listing: seq<string>, n: nat,
                                        refused: set<string>)
    returns (io: Io)
    requires op.Put? && Good(d, sha) && Differs(d, op, sha) && n < 2 && n <= |PutSteps(d, op, sha, listing)|
    ensures DoAll(d, PutSteps(d, op, sha, listing)[..n], refused) == Step(d, op.(io := io), sha)
  {
    io := Io(n == 1, false, true, true, refused);
    NewSteps(d, op, sha, listing);
    var steps := PutSteps(d, op, sha, listing);
    FirstSteps(steps[0], steps[1], PruneSteps(WithNew(d, op, sha), op.keep, listing), n);
    NewStep(d, op.(io := io), sha);
    OneStep(d, steps[0], refused);
  }

  /** From the appended line on, what is left of a Put is what is left of its prune. */
  lemma {:induction false} StoppedAfterRecord(d: Dir, op: Op, sha: Bytes -> string, listing: seq<string>, n: nat,
                                              refused: set<string>)
    returns (io: Io)
    requires op.Put? && Good(d, sha) && Differs(d, op, sha)
    requires Lists(listing, WithNew(d, op, sha)) && 2 <= n <= |PutSteps(d, op, sha, listing)|
    ensures DoAll(d, PutSteps(d, op, sha, listing)[..n], refused) == PruneDir(WithNew(d, op, sha), op.keep, io)
    ensures io.write && io.append && io.sync
  {
    NewSteps(d, op, sha, listing);
    io := StoppedPrune(WithNew(d, op, sha), op.keep, listing, n - 2, refused);
    RecordThenPrune(d, op, sha, listing, n, refused);
  }

  /**
   What the steps of a Put do, after its line is appended: what its prune does to
   the directory with the new capture.
  */
  lemma {:induction false} RecordThenPrune(d: Dir, op: Op, sha: Bytes -> string, listing: seq<string>, n: nat,
                                           refused: set<string>)
    requires op.Put? && Good(d, sha) && Differs(d, op, sha)
    requires 2 <= n <= |PutSteps(d, op, sha, listing)| == 2 + |PruneSteps(WithNew(d, op, sha), op.keep, listing)|
    ensures DoAll(d, PutSteps(d, op, sha, listing)[..n], refused)
            == DoAll(WithNew(d, op, sha), PruneSteps(WithNew(d, op, sha), op.keep, listing)[..n - 2], refused)
  {
    NewSteps(d, op, sha, listing);
    var steps, rest := PutSteps(d, op, sha, listing), PruneSteps(WithNew(d, op, sha), op.keep, listing);
    FirstSteps(steps[0], steps[1], rest, n);
    DoAllAppend(d, [steps[0], steps[1]], rest[..n - 2], refused);
    TwoSteps(d, steps[0], steps[1], refused);
    WrittenAndRecorded(d, op, sha, refused);
  }

  lemma {:induction false} WrittenAndRecorded(d: Dir, op: Op, sha: Bytes -> string, refused: set<string>)
    requires op.Put?
    ensures var name := FreshName(d, op.stamp);
            Do(Do(d, WriteCapture(name, op.content), refused),
               AppendLine(Entry(op.at, op.command, sha(op.content), |op.content|, name, false)), refused)
            == WithNew(d, op, sha)
  {
  }

  lemma {:induction false} TwoSteps(d: Dir, s: FileStep, t: FileStep, refused: set<string>)
    ensures DoAll(d, [s, t], refused) == Do(Do(d, s, refused), t, refused)
  {
    assert [s, t][1..] == [t] && [t][1..] == [];
    var d1 := Do(d, s, refused);
    assert DoAll(d, [s, t], refused) == DoAll(d1, [t], refused);
    assert DoAll(d1, [t], refused) == DoAll(Do(d1, t, refused), [], refused);
  }

  /** All the steps of a prune, none of them refused, are the prune that goes well. */
  lemma {:induction false} WholePrune(d: Dir, keep: int, listing: seq<string>)
    requires Lists(listing, d)
    ensures DoAll(d, PruneSteps(d, keep, listing), {}) == PruneDir(d, keep, ALL_GOES_WELL)
  {
    if keep > 0 && d.history != [] {
      var cut := CutOf(d.history, keep);
      var kept := d.history[cut..];
      var first, unlinks := if cut > 0 then [RewriteHistory(kept)] else [], Unlinks(listing, Files(kept));
      var d1 := d.(history := kept);
      DoAllAppend(d, first, unlinks, {});
      assert DoAll(d, first, {}) == d1 by {
        assert cut == 0 ==> kept == d.history;
        assert first != [] ==> first[1..] == [];
      }
      WholeSweep(d1, listing, Files(kept));
    }
  }

  lemma {:induction false} WholeSweep(d: Dir, listing: seq<string>, survive: set<string>)
    requires Lists(listing, d)
    ensures DoAll(d, Unlinks(listing, survive), {})
            == d.(files := map n | n in d.files && (!Swept(n, survive) || n in {}) :: d.files[n])
  {
    UnlinksNameSwept(listing, survive);
    UnlinksOnly(d, Unlinks(listing, survive), {});
  }

  /** All the steps of a Put, none of them refused, are the Put that goes well. */
  lemma {:induction false} WholePut(d: Dir, op: Op, sha: Bytes -> string, listing: seq<string>)
    requires op.Put? && Good(d, sha) && Lists(listing, WithNew(d, op, sha))
    ensures DoAll(d, PutSteps(d, op, sha, listing), {}) == Step(d, op.(io := ALL_GOES_WELL), sha)
  {
    var steps := PutSteps(d, op, sha, listing);
    assert steps[..|steps|] == steps;
    if Differs(d, op, sha) {
      NewSteps(d, op, sha, listing);
      NewStep(d, op.(io := ALL_GOES_WELL), sha);
      RecordThenPrune(d, op, sha, listing, |steps|, {});
      var rest := PruneSteps(WithNew(d, op, sha), op.keep, listing);
      assert rest[..|rest|] == rest;
      WholePrune(WithNew(d, op, sha), op.keep, listing);
    } else {
      LastStoredIsLast(d.history);
      OneStep(d, steps[0], {});
    }
  }

  /** Crash safety: stopped anywhere, refused anything, a Put leaves history naming only files that are there. */
  lemma {:induction false} CrashLeavesGood(d: Dir, op: Op, sha: Bytes -> string, listing: seq<string>, n: nat,
                                           refused: set<string>)
    requires op.Put? && Good(d, sha)
    requires Lists(listing, WithNew(d, op, sha)) && n <= |PutSteps(d, op, sha, listing)|
    ensures Good(DoAll(d, PutSteps(d, op, sha, listing)[..n], refused), sha)
  {
    var io := StoppedPut(d, op, sha, listing, n, refused);
    PutKeepsGood(d, op.at, op.stamp, op.command, op.content, op.keep, io, sha);
  }

  /** Once the capture is recorded, no later crash or refusal loses it. */
  lemma {:induction false} RecordedSurvives(d: Dir, op: Op, sha: Bytes -> string, listing: seq<string>, n: nat,
                                            refused: set<string>)
    requires op.Put? && Good(d, sha)
    requires Differs(d, op, sha)
    requires Lists(listing, WithNew(d, op, sha)) && 2 <= n <= |PutSteps(d, op, sha, listing)|
    ensures var d' := DoAll(d, PutSteps(d, op, sha, listing)[..n], refused);
            && d'.history != [] && d'.history[|d'.history| - 1].file == FreshName(d, op.stamp)
            && FreshName(d, op.stamp) in d'.files && d'.files[FreshName(d, op.stamp)] == Capture(op.content)
  {
    var name, d2 := FreshName(d, op.stamp), WithNew(d, op, sha);
    FreshNameIsFree(d, op.stamp);
    RecordKeepsGood(d, name, op.content, d2.history[|d.history|], sha);
    var io := StoppedAfterRecord(d, op, sha, listing, n, refused);
    PruneKeepsLast(d2, op.keep, io, sha);
  }

  lemma {:induction false} PruneKeepsLast(d: Dir, keep: int, io: Io, sha: Bytes -> string)
    requires Good(d, sha) && d.history != []
    ensures var d' := PruneDir(d, keep, io);
            && d'.history != [] && d'.history[|d'.history| - 1] == d.history[|d.history| - 1]
            && d'.history[|d'.history| - 1].file in d'.files
            && d'.files[d'.history[|d'.history| - 1].file] == d.files[d'.history[|d'.history| - 1].file]
  {
    PruneKeepsGood(d, keep, io, sha);
    PruneIsSuffix(d, keep, io);
    if keep > 0 {
      CutBeforeEnd(d.history, keep);
    }
    var d' := PruneDir(d, keep, io);
    assert d'.history[|d'.history| - 1] in d'.history;
  }

  /**
   What a Put reports: a file that holds the content and that the newest line
   names, or an error. After an error no line was added, or the attempt's line was
   and could not be synced; then too it names a file of the content's digest.
   */
  ghost predicate Reported(d: Dir, op: Op, d': Dir, outcome: Outcome, sha: Bytes -> string)
    requires op.Put?
  {
    match outcome
    case Failed =>
      if Recorded(d, op, sha) == [] then d'.history == d.history
      else !op.io.sync && NamesContent(d', op, sha) && d'.history[..|d'.history| - 1] == d.history
    case Unchanged(name) =>
      && NamesContent(d', op, sha) && NewestIs(d', name, true)
      && d'.files == d.files && d'.history[..|d'.history| - 1] == d.history
    case Stored(name, _) =>
      && NamesContent(d', op, sha) && NewestIs(d', name, false)
      && name !in d.files && d'.files[name] == Capture(op.content)
  }

  /** The newest line has the content's digest and names a file that has it. */
  ghost predicate NamesContent(d: Dir, op: Op, sha: Bytes -> string)
    requires op.Put?
  {
    && d.history != []
    && var e := d.history[|d.history| - 1];
       && e.at == op.at && e.command == op.command && e.sha == sha(op.content) && e.bytes == |op.content|
       && e.file in d.files && Holds(d, e.file, e.sha, sha)
  }

  ghost predicate NewestIs(d: Dir, name: string, again: bool) {
    d.history != [] && d.history[|d.history| - 1].file == name && d.history[|d.history| - 1].again == again
  }

  /** The report is true, wherever the Put stopped and however its prune went. */
  lemma {:induction false} PutReports(d: Dir, op: Op, sha: Bytes -> string)
    requires op.Put? && Good(d, sha)
    ensures var (d', outcome) := PutDir(d, op.at, op.stamp, op.command, op.content, sha(op.content), op.keep, op.io);
            Reported(d, op, d', outcome, sha)
  {
    LastStoredIsLast(d.history);
    if Differs(d, op, sha) {
      NewStep(d, op, sha);
      NewIsGood(d, op, sha);
      StoredReports(d, op, sha);
    } else {
      assert d.history[|d.history| - 1] in d.history;
      RepeatKeepsGood(d, op.at, op.command, op.content, sha);
    }
  }

  lemma {:induction false} StoredReports(d: Dir, op: Op, sha: Bytes -> string)
    requires op.Put? && Good(d, sha) && Differs(d, op, sha)
    ensures var name, d' := FreshName(d, op.stamp), PruneDir(WithNew(d, op, sha), op.keep, op.io);
            && NewestIs(d', name, false) && NamesContent(d', op, sha)
            && name !in d.files && d'.files[name] == Capture(op.content)
  {
    FreshNameIsFree(d, op.stamp);
    NewIsGood(d, op, sha);
    PruneKeepsLast(WithNew(d, op, sha), op.keep, op.io, sha);
  }

  // ----- parses and the order of the sweep

  /** A parse is listed before the capture it was made from. */
  lemma {:induction false} ParseListedFirst(sidecar: string)
    requires EndsWith(sidecar, PARSED)
    ensures Before(sidecar, RawOf(sidecar))
  {
    var stem := TrimSuffix(sidecar, PARSED);
    assert sidecar == stem + PARSED;
    BeforeAfterPrefix(stem, PARSED, TXT);
    assert Before(PARSED[1..], TXT[1..]);
  }

  ghost predicate InByteOrder(listing: seq<string>) {
    forall i, j | 0 <= i < j < |listing| :: Before(listing[i], listing[j])
  }

  /** What a sweep that is only stopped has not come to is as good as refused, and that is in order. */
  lemma {:induction false} StoppedSweepTakesParsesFirst(d: Dir, listing: seq<string>, p: nat, survive: set<string>,
                                                        sha: Bytes -> string)
    requires Lists(listing, d) && InByteOrder(listing) && p <= |listing| && ParsesMatch(d, sha)
    ensures ParsesGoFirst(d, survive, set n | n in listing[p..])
  {
    forall n | n in listing[p..] && EndsWith(n, PARSED)
      ensures RawOf(n) in listing[p..]
    {
      assert n in d.files && RawOf(n) in listing;
      var i :| p <= i < |listing| && listing[i] == n;
      var j :| 0 <= j < |listing| && listing[j] == RawOf(n);
      ParseListedFirst(n);
      OrderedIndices(listing, i, j);
      assert listing[p..][j - p] == RawOf(n);
    }
  }

  lemma {:induction false} OrderedIndices(listing: seq<string>, i: nat, j: nat)
    requires InByteOrder(listing) && i < |listing| && j < |listing| && Before(listing[i], listing[j])
    ensures i < j
  {
    NotBothBefore(listing[i], listing[j]);
  }

  // A run in which a parse cannot be deleted although its capture can, and the capture's name is used again.
  const RAW := "T.txt"
  const SIDECAR := "T.parsed.json"

  function StaleRun(sha: Bytes -> string): seq<Op> {
    [Put(0, "T", "", "a", 1, ALL_GOES_WELL),
     WriteParse(RAW, ParsedFile(RAW, sha("a"), ""), true),
     Put(1, "T", "", "b", 1, Io(true, true, true, true, {SIDECAR})),
     Put(2, "T", "", "c", 1, ALL_GOES_WELL)]
  }

  const SECOND := "T-1.txt"

  lemma {:induction false} NamesOfStaleRun()
    ensures Candidate("T", 0) == RAW && Candidate("T", 1) == SECOND
    ensures EndsWith(SIDECAR, PARSED) && RawOf(SIDECAR) == RAW && ParsedName(RAW) == SIDECAR
    ensures !EndsWith(RAW, PARSED) && !EndsWith(SECOND, PARSED) && EndsWith(RAW, TXT) && EndsWith(SECOND, TXT)
  {
    assert Decimal(1) == "1";
    assert RAW == "T" + TXT && SIDECAR == "T" + PARSED && SECOND == "T" + "-" + "1" + TXT;
    assert RAW[|RAW| - |TXT|..] == TXT && SECOND[|SECOND| - |TXT|..] == TXT;
    assert SIDECAR[|SIDECAR| - |PARSED|..] == PARSED;
    TxtIsNotParsed(RAW);
    TxtIsNotParsed(SECOND);
  }

  lemma {:induction false} CutLeavesLast(history: seq<Entry>, e: Entry)
    requires |history| <= 1 && e.file != "" && (history != [] ==> history[0].file != "" && history[0].file != e.file)
    ensures CutOf(history + [e], 1) == |history| && (history + [e])[|history|..] == [e] && Files([e]) == {e.file}
  {
    var all := history + [e];
    assert Files([e]) == {e.file};
    if history != [] {
      assert all[1..] == [e] && Files(all) == {history[0].file, e.file};
      assert CutOf(all, 1) == 1 + CutOf([e], 1);
    } else {
      assert all == [e] && all[0..] == all;
    }
  }

  /** What a Put that keeps one version makes of a directory with at most one line. */
  lemma {:induction false} PutReplaces(d: Dir, op: Op, sha: Bytes -> string, name: string)
    requires op.Put? && op.keep == 1 && op.io.write && op.io.append && op.io.sync && op.io.rewrite
    requires |d.history| <= 1 && FreshName(d, op.stamp) == name
    requires d.history != [] ==>
               d.history[0].file != "" && d.history[0].file != name && d.history[0].sha != sha(op.content)
    ensures var d' := Step(d, op, sha);
            && d'.history == [Entry(op.at, op.command, sha(op.content), |op.content|, name, false)]
            && forall n :: n in d'.files <==>
                 (n == name || n in d.files) && (!Swept(n, {name}) || n in op.io.refused)
    ensures forall n | n in Step(d, op, sha).files ::
              Step(d, op, sha).files[n] == if n == name then Capture(op.content) else d.files[n]
  {
    var e := Entry(op.at, op.command, sha(op.content), |op.content|, name, false);
    FreshNameIsFree(d, op.stamp);
    CutLeavesLast(d.history, e);
  }

  /** After the first capture and its parse, the directory holds the two files and one line. */
  lemma {:induction false} ParseWritten(sha: Bytes -> string) returns (d2: Dir)
    ensures d2 == Step(Step(EMPTY_DIR, StaleRun(sha)[0], sha), StaleRun(sha)[1], sha)
    ensures |d2.history| == 1 && d2.history[0].file == RAW && d2.history[0].sha == sha("a")
    ensures d2.files.Keys == {RAW, SIDECAR} && d2.files[SIDECAR] == Parse(ParsedFile(RAW, sha("a"), ""))
  {
    var ops := StaleRun(sha);
    NamesOfStaleRun();
    PutReplaces(EMPTY_DIR, ops[0], sha, RAW);
    d2 := Step(Step(EMPTY_DIR, ops[0], sha), ops[1], sha);
  }

  /** After the second capture the first one's file is gone and its parse is still there. */
  lemma {:induction false} ParseLeftBehind(sha: Bytes -> string) returns (d3: Dir)
    requires sha("a") != sha("b")
    ensures var ops := StaleRun(sha); d3 == Step(Step(Step(EMPTY_DIR, ops[0], sha), ops[1], sha), ops[2], sha)
    ensures RAW !in d3.files && SIDECAR in d3.files && d3.files[SIDECAR] == Parse(ParsedFile(RAW, sha("a"), ""))
    ensures |d3.history| == 1 && d3.history[0].file == SECOND && d3.history[0].sha == sha("b")
  {
    NamesOfStaleRun();
    var d2 := ParseWritten(sha);
    assert FirstFree(d2.files.Keys - {RAW}, "T", 1) == 1;
    PutReplaces(d2, StaleRun(sha)[2], sha, SECOND);
    d3 := Step(d2, StaleRun(sha)[2], sha);
  }

  /**
   Why a parse carries the digest of what it was made from: when a parse cannot
   be deleted and its capture can, the name may go to another capture within the
   same second, and the parse then lies beside content it was not made from. The
   third step is the one out of order, the fourth the one that shows.
   */
  lemma {:induction false} StaleParse(sha: Bytes -> string)
    requires sha("a") != sha("b") && sha("b") != sha("c") && sha("a") != sha("c")
    ensures !NoneStale(After(StaleRun(sha), sha), sha)
  {
    var ops := StaleRun(sha);
    NamesOfStaleRun();
    RunOfFour(ops, sha);
    var d3 := ParseLeftBehind(sha);
    PutReplaces(d3, ops[3], sha, RAW);
    assert SIDECAR in After(ops, sha).files;
  }

  lemma {:induction false} RunOfFour(ops: seq<Op>, sha: Bytes -> string)
    requires |ops| == 4
    ensures After(ops, sha) == Step(Step(Step(Step(EMPTY_DIR, ops[0], sha), ops[1], sha), ops[2], sha), ops[3], sha)
  {
    assert ops[..3][..2] == ops[..2] && ops[..2][..1] == ops[..1] && ops[..1][..0] == [];
    assert After(ops[..1], sha) == Step(EMPTY_DIR, ops[0], sha);
    assert After(ops[..2], sha) == Step(After(ops[..1], sha), ops[1], sha);
    assert After(ops[..3], sha) == Step(After(ops[..2], sha), ops[2], sha);
  }
}
