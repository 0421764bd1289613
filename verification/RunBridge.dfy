/**
 The objects on either side of a run's notifier: notifier of
 capi/notify_linux.go, runState and the table of runs of capi/capi.go, and
 RunBridge of app/runbridge.cpp. Their methods take the steps of PullProtocol.
 */
module RunBridge {
  import opened RunModel
  import opened RunTheorems
  import opened ResultsTable
  import opened PullProtocol
  import opened Wrappers

  // A self-pipe. bytes is what was written and not yet read.
  class Notifier {
    var r: int
    var w: int
    var bytes: nat

    constructor ()
      ensures r >= 0 && w >= 0 && bytes == 0
    {
      r, w, bytes := 3, 4, 0;
    }

    /** A write to a full pipe is dropped; a byte is then waiting all the same. */
    method Wake()
      requires bytes <= CAPACITY
      modifies this`bytes
      ensures bytes <= CAPACITY
      ensures w < 0 ==> bytes == old(bytes)
      ensures w >= 0 ==> bytes > 0 && old(bytes) <= bytes <= old(bytes) + 1
      ensures w >= 0 && old(bytes) < CAPACITY ==> bytes == old(bytes) + 1
    {
      if w < 0 {
        return;
      }
      if bytes < CAPACITY {
        bytes := bytes + 1;
      }
    }

    method Close()
      modifies this
      ensures r == -1 && w == -1 && bytes == 0
    {
      w, r, bytes := -1, -1, 0;
    }

    /** read(2) on the non-blocking end: at most n bytes, 0 when there are none. */
    method Read(n: nat) returns (got: nat)
      requires n > 0
      modifies this`bytes
      ensures got == (if old(bytes) < n then old(bytes) else n) && bytes == old(bytes) - got
    {
      got := if bytes < n then bytes else n;
      bytes := bytes - got;
    }
  }

  /** drainNotifier of app/runbridge.cpp: reads until a read gets nothing. */
  method DrainNotifier(notify: Notifier)
    modifies notify`bytes
    ensures notify.bytes == if notify.r < 0 then old(notify.bytes) else 0
  {
    if notify.r < 0 {
      return;
    }
    var got := notify.Read(256);
    while got > 0
      invariant got == 0 ==> notify.bytes == 0
      decreases notify.bytes + got
    {
      got := notify.Read(256);
    }
  }

  lemma {:induction false} FinishIsNext(r: Run)
    requires Honest(r)
    ensures Finish(r) == Next(r, RunTheorems.End) && Honest(Finish(r)) && Finish(r).finished
  {
    FinishMoves(r);
  }

  lemma {:induction false} EndIsFinish(lib: Library, run: Run)
    requires Honest(lib.run) && lib.result != Running && run == Finish(lib.run)
    ensures run.finished && Honest(run)
    ensures !lib.run.finished ==> LibraryStep(lib, EndRun) == Changed(lib, run)
  {
    FinishIsNext(lib.run);
  }

  class RunState {
    var run: Run
    var hooked: bool
    var notifyGone: bool
    var cancelled: bool
    var result: ResultState
    const notify: Notifier

    /**
     A finished run has its result; the notifier is gone exactly when its ends are
     closed, and never holds more than it can.
    */
    ghost predicate Valid()
      reads this, notify
    {
      && Honest(run) && (run.finished ==> result != Running) && notify.bytes <= CAPACITY
      && (!notifyGone ==> notify.w >= 0 && notify.r >= 0)
      && (notifyGone ==> notify.w < 0 && notify.r < 0 && notify.bytes == 0)
    }

    /** The protocol's library side; pending and version are the goroutines' own. */
    ghost function Side(pending: nat, version: nat): Library
      reads this, notify
    {
      Library(run, result, hooked, pending, notify.bytes, notifyGone, version)
    }

    constructor (notifier: Notifier)
      requires notifier.r >= 0 && notifier.w >= 0 && notifier.bytes == 0
      ensures Valid() && notify == notifier && Side(0, 0) == OPENED.lib && !cancelled
    {
      run, hooked, notifyGone, cancelled, result := NEW_RUN, true, false, false, Running;
      notify := notifier;
    }

    /** poke is the protocol's Poke. */
    method Poke(ghost pending: nat, ghost version: nat)
      requires Valid() && pending > 0
      modifies notify`bytes
      ensures Valid()
      ensures Side(pending - 1, version) == Poked(old(Side(pending, version)))
    {
      if notifyGone {
        return;
      }
      notify.Wake();
    }

    /**
     apply, up to the unlock: the change is made, and the hook read under the same
     lock is owed a call. Before the result is set that is the protocol's step.
     */
    method Apply(ev: Event, ghost pending: nat, ghost version: nat) returns (changed: bool)
      requires Valid()
      modifies this`run
      ensures Valid() && changed == hooked && run == RunModel.Apply(old(run), ev)
      ensures result == Running && '\n' !in ev.typ ==>
                Side(if changed then pending + 1 else pending, version + 1)
                == LibraryStep(old(Side(pending, version)), Action.Emit(ev))
    {
      ApplyMoves(run, ev);
      ApplyLists(run, ev);
      ApplyOpens(run, ev);
      run := RunModel.Apply(run, ev);
      changed := hooked;
    }

    /** The run's outcome: a failure to start it, or how it was ended. */
    method SetResult(failure: Option<string>, ghost pending: nat, ghost version: nat)
      requires Valid()
      modifies this`result
      ensures Valid() && result != Running
      ensures result == match failure
                        case Some(error) => FailedWith(error)
                        case None => if cancelled then Cancelled else Done
      ensures old(result) == Running ==>
                Side(pending, version) == LibraryStep(old(Side(pending, version)), Action.SetResult(result))
    {
      if failure.Some? {
        result := FailedWith(failure.value);
      } else {
        result := if cancelled then Cancelled else Done;
      }
    }

    /** The last thing a run's goroutine does; it has set the result. */
    method Finish(ghost pending: nat, ghost version: nat) returns (changed: bool)
      requires Valid() && result != Running
      modifies this`run
      ensures Valid() && changed == hooked && run == RunModel.Finish(old(run)) && run.finished
      ensures !old(run.finished) ==>
                Side(if changed then pending + 1 else pending, version + 1)
                == LibraryStep(old(Side(pending, version)), EndRun)
    {
      EndIsFinish(Side(pending, version), RunModel.Finish(run));
      run := RunModel.Finish(run);
      changed := hooked;
    }

    /** What omegacat_close does to a run it has taken out of the table. */
    method Close(ghost pending: nat, ghost version: nat)
      requires Valid()
      modifies this`cancelled, this`hooked, this`notifyGone, notify
      ensures Valid() && cancelled
      ensures Side(pending, version) == LibraryStep(old(Side(pending, version)), Action.Close)
    {
      cancelled := true;
      hooked := false;
      notifyGone := true;
      notify.Close();
    }
  }

  // The table of open runs. A handle is a number never given out before.
  class Runs {
    var open: map<int, RunState>
    var last: nat

    ghost predicate Valid()
      reads this
    {
      forall h | h in open :: 0 < h <= last
    }

    constructor ()
      ensures Valid() && open == map[] && last == 0
    {
      open, last := map[], 0;
    }

    method Register(st: RunState) returns (h: int)
      requires Valid()
      modifies this
      ensures Valid() && h == last == old(last) + 1 && h !in old(open) && open == old(open)[h := st]
    {
      last := last + 1;
      h := last;
      open := open[h := st];
    }

    /** omegacat_close: a handle closes once, and for good. */
    method CloseRun(h: int, ghost pending: nat, ghost version: nat) returns (code: int)
      requires Valid() && (h in open ==> open[h].Valid())
      modifies this`open, if h in open then {open[h], open[h].notify} else {}
      ensures Valid() && open == old(open) - {h} && h !in open
      ensures code == if h in old(open) then 0 else -1
      ensures h in old(open) ==>
                old(open)[h].Valid() && old(open)[h].cancelled
                && old(open)[h].Side(pending, version)
                   == LibraryStep(old(open[h].Side(pending, version)), Action.Close)
    {
      if h !in open {
        return -1;
      }
      var st := open[h];
      open := open - {h};
      st.Close(pending, version);
      return 0;
    }
  }

  // The signals a slot of the view may answer by closing the bridge.
  datatype Signal = RowsChanged | DecisionsAdded | ProgressChanged | Finished | NoSignal

  // The view's end. Table and heard stand for what the slots connected to the signals keep.
  class Bridge {
    var handle: int
    var watching: bool
    var rowSeq: nat
    var decisionSeq: nat
    var finished: bool
    var heard: seq<Decision>
    const results: ResultsModel

    ghost predicate Valid()
      reads this, results
    {
      results.Valid()
    }

    /** The protocol's view side, given what its reads saw. */
    ghost function Side(phase: Phase, missed: bool, progressAt: nat, rowsAt: Seen,
                        decisionsAt: Seen): PullProtocol.Bridge
      requires Valid()
      reads this, results
    {
      PullProtocol.Bridge(phase, results.Table(), rowSeq, heard, decisionSeq, finished, handle <= 0, missed,
                          progressAt, rowsAt, decisionsAt)
    }

    constructor ()
      ensures Valid() && fresh(results) && handle == -1 && !watching
    {
      handle, watching, rowSeq, decisionSeq, finished, heard := -1, false, 0, 0, false, [];
      results := new ResultsModel();
    }

    /** Whether the bridge has just started on a run, from nothing seen. */
    ghost predicate Started(h: int)
      requires Valid()
      reads this, results
    {
      handle == h && watching && Side(Idle, false, 0, Seen(NEW_RUN, 0), Seen(NEW_RUN, 0)) == OPENED.bridge
    }

    method Start(h: int)
      requires Valid() && h > 0
      modifies this, results
      ensures Valid() && Started(h)
    {
      handle, rowSeq, decisionSeq, finished, heard := h, 0, 0, false, [];
      results.Clear();
      watching := true;
    }

    /** adopt: a run whose notifier has an end to watch is started on; another one is closed. */
    method Adopt(h: int, fd: int, runs: Runs, ghost pending: nat, ghost version: nat) returns (ok: bool)
      requires Valid() && h > 0 && runs.Valid() && (h in runs.open ==> runs.open[h].Valid())
      modifies this, results, runs`open, if h in runs.open then {runs.open[h], runs.open[h].notify} else {}
      ensures Valid() && runs.Valid() && ok == (fd >= 0)
      ensures !ok ==>
                && handle == old(handle) && results.Table() == old(results.Table())
                && runs.open == old(runs.open) - {h}
      ensures !ok && h in old(runs.open) ==>
                old(runs.open)[h].cancelled
                && old(runs.open)[h].Side(pending, version)
                   == LibraryStep(old(runs.open[h].Side(pending, version)), Action.Close)
      ensures ok ==> Started(h) && runs.open == old(runs.open)
    {
      if fd < 0 {
        var _ := runs.CloseRun(h, pending, version);
        return false;
      }
      Start(h);
      return true;
    }

    /** Stops watching, closes the run, and forgets it. */
    method Close(runs: Runs, ghost pending: nat, ghost version: nat)
      requires Valid() && runs.Valid() && (handle in runs.open ==> runs.open[handle].Valid())
      modifies this`handle, this`watching, runs`open
      modifies if handle in runs.open then {runs.open[handle], runs.open[handle].notify} else {}
      ensures Valid() && runs.Valid() && handle == -1 && !watching
      ensures runs.open == old(runs.open) - {old(handle)}
      ensures old(handle) in old(runs.open) ==>
                old(runs.open[handle]).cancelled
                && old(runs.open[handle]).Side(pending, version)
                   == LibraryStep(old(runs.open[handle].Side(pending, version)), Action.Close)
    {
      watching := false;
      if handle > 0 {
        var _ := runs.CloseRun(handle, pending, version);
      }
      handle := -1;
    }

    /** What a slot does that closes the bridge in the middle of a pull, and that may go on to open another run. */
    method Leave(next: int)
      requires Valid()
      modifies this, results
      ensures Valid() && Left(next)
      ensures next <= 0 ==> finished == old(finished) && results.Table() == old(results.Table())
    {
      watching, handle := false, -1;
      if next > 0 {
        Start(next);
      }
    }

    ghost predicate Left(next: int)
      requires Valid()
      reads this, results
    {
      if next > 0 then Started(next) else handle == -1
    }

    method TakeRows(atRows: Library, leaves: bool, next: int)
      requires Valid() && Rowed(atRows.run) && handle > 0 && next != handle
      modifies this, results
      ensures Valid()
      ensures handle != old(handle) ==> Left(next)
      ensures handle == old(handle) || next <= 0 ==>
                finished == old(finished) &&
                results.Table() == Taken(old(results.Table()), RowsSince(atRows.run, old(rowSeq)))
      ensures handle == old(handle) ==>
                rowSeq == atRows.run.num && decisionSeq == old(decisionSeq) &&
                heard == old(heard) && watching == old(watching)
    {
      var rows := RowsSince(atRows.run, rowSeq);
      rowSeq := atRows.run.num;
      results.Merge(rows);
      if rows != [] && leaves {
        Leave(next);
      }
    }

    method TakeDecisions(atDecisions: Library, leaves: bool, next: int)
      requires Valid() && handle > 0 && next != handle
      modifies this, results
      ensures Valid()
      ensures handle != old(handle) ==> Left(next)
      ensures handle == old(handle) || next <= 0 ==>
                finished == old(finished) && results.Table() == old(results.Table())
      ensures handle == old(handle) ==>
                decisionSeq == atDecisions.run.num &&
                heard == old(heard) + DecisionsSince(atDecisions.run, old(decisionSeq))
                && rowSeq == old(rowSeq) && watching == old(watching)
    {
      var decisions := DecisionsSince(atDecisions.run, decisionSeq);
      decisionSeq := atDecisions.run.num;
      heard := heard + decisions;
      if decisions != [] && leaves {
        Leave(next);
      }
    }

    /**
     pull, given the library as each of its calls finds it, and whether there was
     any progress to read; the slot that answers signal closes the bridge and may
     open the run next. A pull that runs through is the protocol's four reads in
     order. One closed on the way takes no further step, on either run.
     */
    method Pull(atProgress: Library, progressed: bool, atRows: Library, atDecisions: Library, signal: Signal,
                next: int, notify: Notifier)
      requires Valid() && notify.r >= 0 && Rowed(atRows.run) && next != handle
      modifies this, results, notify`bytes
      ensures Valid()
      ensures old(handle) <= 0 || old(finished) ==> notify.bytes == old(notify.bytes)
      ensures old(handle) <= 0 || old(finished) || !progressed ==>
                handle == old(handle) && finished == old(finished) &&
                rowSeq == old(rowSeq) && decisionSeq == old(decisionSeq)
                && results.Table() == old(results.Table()) && heard == old(heard)
      ensures old(handle) > 0 && !old(finished) ==> notify.bytes == 0
      ensures old(handle) > 0 && !old(finished) && progressed && handle == old(handle) ==>
                forall was: nat, missed: bool, rowsWas: Seen, decisionsWas: Seen ::
                  Side(Idle, false, atProgress.version, Seen(atRows.run, atRows.version),
                       Seen(atDecisions.run, atDecisions.version))
                  == EndOf(atProgress, atRows, atDecisions, old(Side(Drained, missed, was, rowsWas, decisionsWas)))
      ensures handle != old(handle) ==> Left(next)
      ensures handle != old(handle) && next <= 0 ==>
                (finished ==> signal == Finished && atProgress.run.finished)
                && results.Table() == Taken(old(results.Table()), RowsSince(atRows.run, old(rowSeq)))
    {
      var h := handle;
      if h <= 0 || finished {
        return;
      }
      DrainNotifier(notify);
      if !progressed {
        return;
      }
      var ended := atProgress.run.finished;
      TakeRows(atRows, signal == RowsChanged, next);
      if handle != h {
        return;
      }
      TakeDecisions(atDecisions, signal == DecisionsAdded, next);
      if handle != h {
        return;
      }
      if signal == ProgressChanged {
        Leave(next);
      }
      if handle != h {
        return;
      }
      if ended {
        finished := true;
        watching := false;
        if signal == Finished {
          Leave(next);
        }
      }
    }
  }

  ghost function EndOf(atProgress: Library, atRows: Library, atDecisions: Library,
                       b: PullProtocol.Bridge): PullProtocol.Bridge
    requires Rowed(atRows.run)
  {
    var ended := atProgress.run.finished;
    var read := RowsRead(ProgressRead(b, atProgress), atRows, ended);
    DecisionsRead(read, atDecisions, ended).(phase := Idle, stopped := ended)
  }
}
