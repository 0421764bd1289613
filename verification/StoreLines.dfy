/**
 Whose line each line of a history is (internal/capture/store.go): the newest
 attempts of a run that were recorded, one line each, in order.
 */
module StoreLines {
  import opened StoreModel
  import opened StoreTheorems

  /** The Puts of a run whose attempt got a line, oldest first. */
  ghost function Recorders(ops: seq<Op>, sha: Bytes -> string): (puts: seq<Op>)
    ensures forall k | 0 <= k < |puts| :: puts[k].Put?
  {
    if ops == [] then []
    else
      var before, op := ops[..|ops| - 1], ops[|ops| - 1];
      Recorders(before, sha) + if Recorded(After(before, sha), op, sha) != [] then [op] else []
  }

  /** The line an attempt gets: when it was, the command, and the digest and size of what came of it. */
  ghost predicate IsLineOf(e: Entry, put: Op, sha: Bytes -> string)
    requires put.Put?
  {
    && e.at == put.at && e.command == put.command
    && e.sha == sha(put.content) && e.bytes == |put.content|
  }

  /** The lines are those of the newest attempts of a list. */
  ghost predicate LinesOf(h: seq<Entry>, puts: seq<Op>, sha: Bytes -> string)
    requires forall k | 0 <= k < |puts| :: puts[k].Put?
  {
    && |h| <= |puts|
    && forall j | 0 <= j < |h| :: IsLineOf(h[j], puts[|puts| - |h| + j], sha)
  }

  lemma {:induction false} OneMoreLine(h: seq<Entry>, e: Entry, puts: seq<Op>, put: Op, sha: Bytes -> string)
    requires forall k | 0 <= k < |puts| :: puts[k].Put?
    requires put.Put? && LinesOf(h, puts, sha) && IsLineOf(e, put, sha)
    ensures LinesOf(h + [e], puts + [put], sha)
  {
    forall j | 0 <= j < |h|
      ensures (h + [e])[j] == h[j] && (puts + [put])[|puts| - |h| + j] == puts[|puts| - |h| + j]
    {
    }
  }

  lemma {:induction false} FewerLines(h: seq<Entry>, h': seq<Entry>, puts: seq<Op>, sha: Bytes -> string)
    requires forall k | 0 <= k < |puts| :: puts[k].Put?
    requires LinesOf(h, puts, sha) && |h'| <= |h| && h' == h[|h| - |h'|..]
    ensures LinesOf(h', puts, sha)
  {
    forall j | 0 <= j < |h'|
      ensures h'[j] == h[|h| - |h'| + j]
    {
    }
  }

  /** A history with one more line, perhaps cut at its front. */
  ghost predicate CutAfter(h: seq<Entry>, e: Entry, h': seq<Entry>) {
    |h'| <= |h| + 1 && h' == (h + [e])[|h| + 1 - |h'|..]
  }

  lemma {:induction false} NewLine(d: Dir, op: Op, e: Entry, sha: Bytes -> string)
    requires op.Put? && Good(d, sha) && Differs(d, op, sha)
    requires e == Entry(op.at, op.command, sha(op.content), |op.content|, FreshName(d, op.stamp), false)
    ensures if op.io.write && op.io.append
            then Recorded(d, op, sha) != [] && CutAfter(d.history, e, Step(d, op, sha).history)
            else Recorded(d, op, sha) == [] && Step(d, op, sha).history == d.history
  {
    NewStep(d, op, sha);
    PruneIsSuffix(WithNew(d, op, sha), op.keep, op.io);
  }

  lemma {:induction false} RepeatLine(d: Dir, op: Op, e: Entry, sha: Bytes -> string)
    requires op.Put? && Good(d, sha) && !Differs(d, op, sha)
    requires e == Entry(op.at, op.command, sha(op.content), |op.content|, d.history[|d.history| - 1].file, true)
    ensures if op.io.append then Recorded(d, op, sha) != [] && Step(d, op, sha).history == d.history + [e]
            else Recorded(d, op, sha) == [] && Step(d, op, sha).history == d.history
  {
    LastStoredIsLast(d.history);
  }

  /** What a Put makes of the history: a line of its own at the end, if it got one, and then perhaps a cut. */
  lemma {:induction false} PutLine(d: Dir, op: Op, sha: Bytes -> string) returns (e: Entry)
    requires op.Put? && Good(d, sha)
    ensures Recorded(d, op, sha) != [] ==> IsLineOf(e, op, sha) && CutAfter(d.history, e, Step(d, op, sha).history)
    ensures Recorded(d, op, sha) == [] ==> Step(d, op, sha).history == d.history
  {
    if Differs(d, op, sha) {
      e := Entry(op.at, op.command, sha(op.content), |op.content|, FreshName(d, op.stamp), false);
      NewLine(d, op, e, sha);
    } else {
      e := Entry(op.at, op.command, sha(op.content), |op.content|, d.history[|d.history| - 1].file, true);
      RepeatLine(d, op, e, sha);
    }
  }

  lemma {:induction false} LineAdded(h: seq<Entry>, e: Entry, h': seq<Entry>, puts: seq<Op>, put: Op,
                                     sha: Bytes -> string)
    requires forall k | 0 <= k < |puts| :: puts[k].Put?
    requires put.Put? && LinesOf(h, puts, sha) && IsLineOf(e, put, sha) && CutAfter(h, e, h')
    ensures LinesOf(h', puts + [put], sha)
  {
    OneMoreLine(h, e, puts, put, sha);
    FewerLines(h + [e], h', puts + [put], sha);
  }

  lemma {:induction false} StepLines(d: Dir, op: Op, puts: seq<Op>, sha: Bytes -> string)
    requires (forall k | 0 <= k < |puts| :: puts[k].Put?) && Good(d, sha) && LinesOf(d.history, puts, sha)
    ensures LinesOf(Step(d, op, sha).history, if Recorded(d, op, sha) != [] then puts + [op] else puts, sha)
  {
    if op.Put? {
      var e := PutLine(d, op, sha);
      if Recorded(d, op, sha) != [] {
        LineAdded(d.history, e, Step(d, op, sha).history, puts, op, sha);
      }
    }
  }

  /**
   After any run the lines of the history are those of the newest attempts that
   were recorded, one each and in order: each has its attempt's time and command,
   and the digest and size of what that attempt captured.
  */
  lemma {:induction false} EveryLineIsItsAttempt(ops: seq<Op>, sha: Bytes -> string)
    ensures LinesOf(After(ops, sha).history, Recorders(ops, sha), sha)
  {
    if ops != [] {
      var before, op := ops[..|ops| - 1], ops[|ops| - 1];
      EveryLineIsItsAttempt(before, sha);
      EveryRun(before, sha);
      StepLines(After(before, sha), op, Recorders(before, sha), sha);
      assert Recorders(before, sha) + [] == Recorders(before, sha);
    }
  }

  /** What those attempts captured is the log that the files read back from. */
  lemma {:induction false} RecordersLog(ops: seq<Op>, sha: Bytes -> string)
    ensures |Recorders(ops, sha)| == |Log(ops, sha)|
    ensures forall k | 0 <= k < |Log(ops, sha)| :: Recorders(ops, sha)[k].content == Log(ops, sha)[k]
  {
    if ops != [] {
      RecordersLog(ops[..|ops| - 1], sha);
    }
  }
}
