/**
 What becomes of the parses written beside captures (internal/capture/parsed.go)
 over whole runs: which one lies under a name, and until when.
 */
module StoreParses {
  import opened FileNames
  import opened Sequences
  import opened StoreModel
  import opened StoreTheorems
  import opened Wrappers

  /** Whether an operation writes a parse under a name: that of a file that is there. */
  ghost predicate Writes(d: Dir, op: Op, n: string) {
    op.WriteParse? && op.written && Exists(d, op.file) && ParsedName(op.file) == n
  }

  /**
   Whether a sweep takes the parse under a name: that of a Put that stored its
   capture under retention and cut its history if it had to, when none of the
   lines that are left names the parse's capture and the parse can be unlinked.
  */
  ghost predicate Takes(d: Dir, op: Op, n: string, sha: Bytes -> string) {
    && op.Put? && Differs(d, op, sha) && op.io.write && op.io.append && op.io.sync && op.keep > 0
    && (|Files(WithNew(d, op, sha).history)| <= op.keep || op.io.rewrite)
    && RawOf(n) !in Files(Step(d, op, sha).history) && n !in op.io.refused
  }

  /** The last parse written under a name. */
  ghost function LastWritten(ops: seq<Op>, n: string, sha: Bytes -> string): Option<ParsedFile> {
    if ops == [] then None
    else
      var before, op := ops[..|ops| - 1], ops[|ops| - 1];
      if Writes(After(before, sha), op, n) then Some(op.parsed) else LastWritten(before, n, sha)
  }

  /** Writing a parse puts it, all of it, under its name, and changes nothing else. */
  lemma {:induction false} WriteParseOnly(d: Dir, file: string, parsed: ParsedFile, written: bool)
    ensures var d' := PutParsedDir(d, file, parsed, written);
            && d'.history == d.history
            && (Exists(d, file) && written ==>
                  && ParsedName(file) in d'.files && d'.files[ParsedName(file)] == Parse(parsed)
                  && forall n | n != ParsedName(file) :: SameFile(d, d', n))
            && (!(Exists(d, file) && written) ==> d' == d)
  {
  }

  ghost predicate SameFile(d: Dir, d': Dir, n: string) {
    (n in d'.files <==> n in d.files) && (n in d.files ==> d'.files[n] == d.files[n])
  }

  lemma {:induction false} NewLeavesParse(d: Dir, op: Op, n: string, sha: Bytes -> string)
    requires op.Put? && EndsWith(n, PARSED)
    ensures SameFile(d, WithNew(d, op, sha), n)
  {
    FreshNameIsFree(d, op.stamp);
    TxtIsNotParsed(FreshName(d, op.stamp));
  }

  /** What a prune does to a parse. */
  lemma {:induction false} PruneTakes(d: Dir, keep: int, io: Io, n: string)
    requires EndsWith(n, PARSED) && d.history != []
    ensures var d' := PruneDir(d, keep, io);
            && (n in d'.files <==> n in d.files && !(&& keep > 0 && (|Files(d.history)| <= keep || io.rewrite)
                                                     && RawOf(n) !in Files(d'.history) && n !in io.refused))
            && (n in d'.files ==> d'.files[n] == d.files[n])
  {
  }

  lemma {:induction false} PutLeavesParse(d: Dir, op: Op, n: string, sha: Bytes -> string)
    requires op.Put? && Good(d, sha) && EndsWith(n, PARSED)
    ensures var d' := Step(d, op, sha);
            && (n in d'.files <==> n in d.files && !Takes(d, op, n, sha))
            && (n in d'.files ==> d'.files[n] == d.files[n])
  {
    LastStoredIsLast(d.history);
    if Differs(d, op, sha) {
      NewStep(d, op, sha);
      NewLeavesParse(d, op, n, sha);
      PruneTakes(WithNew(d, op, sha), op.keep, op.io, n);
    }
  }

  /** What one operation makes of the parse under a name. */
  lemma {:induction false} StepParse(d: Dir, op: Op, n: string, sha: Bytes -> string)
    requires Good(d, sha) && EndsWith(n, PARSED)
    ensures var d' := Step(d, op, sha);
            && (n in d'.files <==> Writes(d, op, n) || (n in d.files && !Takes(d, op, n, sha)))
            && (n in d'.files ==> d'.files[n] == if Writes(d, op, n) then Parse(op.parsed) else d.files[n])
  {
    if op.Put? {
      PutLeavesParse(d, op, n, sha);
    } else {
      WriteParseOnly(d, op.file, op.parsed, op.written);
    }
  }

  /** After any run, a parse on disk is, in all its fields, the last one that was written under its name. */
  lemma {:induction false} EveryParseReadsBack(ops: seq<Op>, n: string, sha: Bytes -> string)
    requires EndsWith(n, PARSED) && n in After(ops, sha).files
    ensures LastWritten(ops, n, sha).Some?
    ensures After(ops, sha).files[n] == Parse(LastWritten(ops, n, sha).value)
  {
    var before, op := ops[..|ops| - 1], ops[|ops| - 1];
    EveryRun(before, sha);
    StepParse(After(before, sha), op, n, sha);
    if !Writes(After(before, sha), op, n) {
      EveryParseReadsBack(before, n, sha);
    }
  }

  /** The i-th operation is the last of a run to write under a name. */
  ghost predicate LastAt(ops: seq<Op>, i: nat, n: string, sha: Bytes -> string) {
    && i < |ops|
    && var m := |ops| - 1;
       if i == m then Writes(After(ops[..m], sha), ops[m], n)
       else !Writes(After(ops[..m], sha), ops[m], n) && LastAt(ops[..m], i, n, sha)
  }

  /** A sweep after the i-th operation takes the parse under a name. */
  ghost predicate TakenSince(ops: seq<Op>, i: nat, n: string, sha: Bytes -> string) {
    && i + 1 < |ops|
    && var m := |ops| - 1;
       Takes(After(ops[..m], sha), ops[m], n, sha) || TakenSince(ops[..m], i, n, sha)
  }

  /** Whether a directory holds a parse under a name. */
  ghost predicate HasParse(d: Dir, n: string, parsed: ParsedFile) {
    n in d.files && d.files[n] == Parse(parsed)
  }

  lemma {:induction false} LastWrites(ops: seq<Op>, i: nat, n: string, sha: Bytes -> string)
    requires LastAt(ops, i, n, sha)
    ensures ops[i].WriteParse? && EndsWith(n, PARSED)
  {
    if i < |ops| - 1 {
      LastWrites(ops[..|ops| - 1], i, n, sha);
    } else {
      SweepInvertsParsedName(ops[i].file);
    }
  }

  lemma {:induction false} NextParse(d: Dir, d': Dir, op: Op, n: string, was: ParsedFile, sha: Bytes -> string)
    requires Good(d, sha) && EndsWith(n, PARSED) && d' == Step(d, op, sha) && !Writes(d, op, n)
    requires n in d.files ==> HasParse(d, n, was)
    ensures n in d'.files <==> n in d.files && !Takes(d, op, n, sha)
    ensures n in d'.files ==> HasParse(d', n, was)
  {
    StepParse(d, op, n, sha);
  }

  /**
   A parse that was written stays, as it was written, until a sweep takes it or
   another one is written over it: after any run it is there exactly if none of the
   sweeps since has taken it.
  */
  lemma {:induction false} ParseStays(ops: seq<Op>, i: nat, n: string, sha: Bytes -> string)
    requires LastAt(ops, i, n, sha)
    ensures n in After(ops, sha).files <==> !TakenSince(ops, i, n, sha)
    ensures ops[i].WriteParse?
    ensures n in After(ops, sha).files ==> HasParse(After(ops, sha), n, ops[i].parsed)
  {
    var m := |ops| - 1;
    LastWrites(ops, i, n, sha);
    EveryRun(ops[..m], sha);
    if i < m {
      ParseStays(ops[..m], i, n, sha);
      NextParse(After(ops[..m], sha), After(ops, sha), ops[m], n, ops[i].parsed, sha);
    } else {
      StepParse(After(ops[..m], sha), ops[m], n, sha);
    }
  }
}
