/**
 How a view follows a run (capi/capi.go, capi/notify_linux.go,
 app/runbridge.cpp, app/runview.cpp): the run's goroutines change rows and poke
 a bounded pipe, the view drains the pipe and pulls, and every interleaving of
 their steps is allowed.
 */
module PullProtocol {
  import opened RunModel
  import opened RunTheorems
  import opened ResultsTable

  // Bytes the pipe holds before a write is dropped; only that there is room for one matters.
  const CAPACITY: nat := 65536

  // How a run came out.
  datatype ResultState = Running | Done | Cancelled | FailedWith(error: string)

  // The library's side. pending counts changes whose poke is still to come; version counts changes.
  datatype Library = Library(run: Run, result: ResultState, hooked: bool,
                             pending: nat, pipe: nat, gone: bool, version: nat)

  // Where a pull stands. ended is what its progress read said.
  datatype Phase = Idle | Drained | GotProgress(ended: bool) | GotRows(ended: bool) | GotDecisions(ended: bool)

  // The run as it was at a read, and the version it had.
  datatype Seen = Seen(run: Run, version: nat)

  // The view's side. progressAt, rowsAt and decisionsAt record what the latest reads saw; missed, that
  // the latest pull drained the pipe and then got no progress, so that only the tick leads to another.
  datatype Bridge = Bridge(phase: Phase, table: map<string, Row>, rowSeq: nat, heard: seq<Decision>, decisionSeq: nat,
                           stopped: bool, closed: bool, missed: bool, progressAt: nat, rowsAt: Seen, decisionsAt: Seen)

  datatype Sys = Sys(lib: Library, bridge: Bridge)

  datatype Action =
    | Emit(event: Event) | SetResult(outcome: ResultState) | EndRun | Poke
    | Drain | ReadProgress | MissProgress | ReadRows | ReadDecisions | EndPull | Close

  const OPENED := Sys(Library(NEW_RUN, Running, true, 0, 0, false, 0),
                      Bridge(Idle, map[], 0, [], 0, false, false, false, 0, Seen(NEW_RUN, 0), Seen(NEW_RUN, 0)))

  // ----- the library's steps

  ghost function Changed(lib: Library, run: Run): Library {
    lib.(run := run, version := lib.version + 1, pending := if lib.hooked then lib.pending + 1 else lib.pending)
  }

  /**
   One goroutine's turn; an action that is not due does nothing. The goroutine
   that owns a run emits, sets the result, and finishes the run, in this order.
   */
  ghost function LibraryStep(lib: Library, a: Action): Library
    requires Honest(lib.run)
  {
    match a
    case Emit(ev) =>
      if lib.result == Running && '\n' !in ev.typ then Changed(lib, Next(lib.run, Move.Emit(ev))) else lib
    case SetResult(outcome) => if lib.result == Running then lib.(result := outcome) else lib
    case EndRun => if lib.result != Running && !lib.run.finished then Changed(lib, Next(lib.run, End)) else lib
    case Poke => if lib.pending > 0 then Poked(lib) else lib
    case Close => lib.(hooked := false, gone := true, pipe := 0)
    case Drain => lib.(pipe := 0)
    case _ => lib
  }

  /** A poke writes a byte, unless the notifier is gone or the pipe is full. */
  function Poked(lib: Library): Library
    requires lib.pending > 0
  {
    lib.(pending := lib.pending - 1,
         pipe := if lib.gone then lib.pipe else if lib.pipe < CAPACITY then lib.pipe + 1 else lib.pipe)
  }

  // ----- the view's steps

  function ProgressRead(b: Bridge, lib: Library): Bridge {
    b.(phase := GotProgress(lib.run.finished), missed := false, progressAt := lib.version)
  }

  function RowsRead(b: Bridge, lib: Library, ended: bool): Bridge
    requires Rowed(lib.run)
  {
    b.(phase := GotRows(ended), table := Taken(b.table, RowsSince(lib.run, b.rowSeq)), rowSeq := lib.run.num,
       rowsAt := Seen(lib.run, lib.version))
  }

  function DecisionsRead(b: Bridge, lib: Library, ended: bool): Bridge {
    b.(phase := GotDecisions(ended), heard := b.heard + DecisionsSince(lib.run, b.decisionSeq),
       decisionSeq := lib.run.num, decisionsAt := Seen(lib.run, lib.version))
  }

  /** A pull starts on a wake, on a tick or when queued; closing may come between reads, from a slot. */
  ghost predicate Due(s: Sys, a: Action) {
    match a
    case Drain => s.bridge.phase.Idle? && !s.bridge.closed && !s.bridge.stopped
    case ReadProgress => s.bridge.phase.Drained?
    case MissProgress => s.bridge.phase.Drained?
    case ReadRows => s.bridge.phase.GotProgress?
    case ReadDecisions => s.bridge.phase.GotRows?
    case EndPull => s.bridge.phase.GotDecisions?
    case Close => !s.bridge.phase.Drained? && !s.bridge.phase.GotProgress? && !s.bridge.closed
    case _ => true
  }

  ghost function BridgeStep(b: Bridge, lib: Library, a: Action): Bridge
    requires Honest(lib.run) && Due(Sys(lib, b), a)
  {
    match a
    case Drain => b.(phase := Drained)
    case ReadProgress => ProgressRead(b, lib)
    case MissProgress => b.(phase := Idle, missed := true)
    case ReadRows => RowsRead(b, lib, b.phase.ended)
    case ReadDecisions => DecisionsRead(b, lib, b.phase.ended)
    case EndPull => b.(phase := Idle, stopped := b.phase.ended)
    case Close => b.(phase := Idle, closed := true)
    case _ => b
  }

  ghost function Act(s: Sys, a: Action): Sys
    requires Honest(s.lib.run)
  {
    if Due(s, a) then Sys(LibraryStep(s.lib, a), BridgeStep(s.bridge, s.lib, a)) else s
  }

  // ----- what each side keeps

  ghost predicate Writes(lib: Library) {
    && Honest(lib.run) && WellNamed(lib.run.rows)
    && (lib.run.finished ==> lib.result != Running)
  }

  /** What was read is a run this run grew from, numbered and named so that the rest can be asked for. */
  ghost predicate Grown(was: Run, r: Run) {
    && Honest(was) && WellNamed(was.rows) && Moves(was, r, was.num) && Grew(was.notable, r.notable, was.num)
  }

  ghost predicate Recent(at: Seen, lib: Library) {
    && at.version <= lib.version && (at.version == lib.version ==> at.run == lib.run)
    && Grown(at.run, lib.run)
  }

  ghost predicate Follows(b: Bridge, lib: Library) {
    && Recent(b.rowsAt, lib) && Recent(b.decisionsAt, lib) && b.progressAt <= lib.version
    && b.rowSeq == b.rowsAt.run.num && Shows(b.table, b.rowsAt.run.rows)
    && b.decisionSeq == b.decisionsAt.run.num && b.heard == b.decisionsAt.run.notable
  }

  /** No wake is lost: a change no progress read has seen has a byte, a poke or a pull ahead of it. */
  ghost predicate Awake(s: Sys) {
    (!s.bridge.closed && s.bridge.progressAt < s.lib.version) ==>
      s.lib.pipe > 0 || s.lib.pending > 0 || s.bridge.phase.Drained? || s.bridge.missed
  }

  ghost predicate Hooked(s: Sys) {
    s.bridge.closed <==> s.lib.gone || !s.lib.hooked
  }

  /** Rows and decisions are read after the progress they go with. */
  ghost predicate InOrder(b: Bridge) {
    !b.closed ==>
      && (!b.phase.GotProgress? ==> b.progressAt <= b.rowsAt.version)
      && (!b.phase.GotProgress? && !b.phase.GotRows? ==> b.progressAt <= b.decisionsAt.version)
  }

  ghost predicate Ending(s: Sys) {
    var b := s.bridge;
    && (b.stopped ==> s.lib.run.finished && b.progressAt == s.lib.version
                      && b.rowsAt.version == s.lib.version && b.decisionsAt.version == s.lib.version)
    && (!b.closed && !b.phase.Idle? && !b.phase.Drained? ==>
          && (b.phase.ended ==> s.lib.run.finished)
          && (b.progressAt == s.lib.version ==> b.phase.ended == s.lib.run.finished)
          && (s.lib.run.finished && b.phase.ended ==> b.progressAt == s.lib.version))
    && (!b.closed && (b.phase.Idle? || b.phase.Drained?) && b.progressAt == s.lib.version ==>
          s.lib.run.finished ==> b.stopped)
    && (b.stopped || b.closed ==> b.phase.Idle?)
  }

  ghost predicate Good(s: Sys) {
    Writes(s.lib) && Follows(s.bridge, s.lib) && Awake(s) && Hooked(s) && InOrder(s.bridge) && Ending(s)
  }

  // ----- the run underneath

  lemma {:induction false} NextNamed(r: Run, m: Move)
    requires Honest(r) && WellNamed(r.rows) && (m.Emit? ==> '\n' !in m.event.typ)
    ensures WellNamed(Next(r, m).rows) && Next(r, m).finished == (m.End? || r.finished)
  {
    match m
    case Emit(ev) => ApplyOpens(r, ev);
    case End => FinishMoves(r);
  }

  lemma {:induction false} GrownNext(was: Run, r: Run, m: Move)
    requires Grown(was, r) && Honest(r)
    ensures Grown(was, Next(r, m))
  {
    NextMoves(r, m);
    MovesSince(r, Next(r, m), r.num, was.num);
    MovesTransitive(was, r, Next(r, m), was.num);
    NextGrew(r, m, was.notable, was.num);
  }

  lemma {:induction false} GrownSelf(r: Run)
    requires Honest(r) && WellNamed(r.rows)
    ensures Grown(r, r)
  {
  }

  lemma {:induction false} RecentChanged(at: Seen, lib: Library, m: Move)
    requires Writes(lib) && Recent(at, lib)
    ensures Recent(at, Changed(lib, Next(lib.run, m)))
  {
    GrownNext(at.run, lib.run, m);
  }

  lemma {:induction false} RecentSame(at: Seen, lib: Library, lib': Library)
    requires Recent(at, lib) && lib'.run == lib.run && lib'.version == lib.version
    ensures Recent(at, lib')
  {
  }

  /** What an action makes of the library: one change of its run, or none. */
  lemma {:induction false} StepChanges(lib: Library, a: Action)
    requires Writes(lib)
    ensures var lib' := LibraryStep(lib, a);
            || (lib'.run == lib.run && lib'.version == lib.version)
            || (a.Emit? && lib' == Changed(lib, Next(lib.run, Move.Emit(a.event))))
            || (a.EndRun? && lib' == Changed(lib, Next(lib.run, End)))
  {
  }

  lemma {:induction false} RecentStep(at: Seen, lib: Library, a: Action)
    requires Writes(lib) && Recent(at, lib)
    ensures Recent(at, LibraryStep(lib, a))
  {
    var lib' := LibraryStep(lib, a);
    StepChanges(lib, a);
    if lib'.run == lib.run && lib'.version == lib.version {
      RecentSame(at, lib, lib');
    } else if a.Emit? {
      RecentChanged(at, lib, Move.Emit(a.event));
    } else {
      RecentChanged(at, lib, End);
    }
  }

  lemma {:induction false} WritesStep(lib: Library, a: Action)
    requires Writes(lib)
    ensures Writes(LibraryStep(lib, a))
  {
    if a.Emit? {
      if '\n' !in a.event.typ {
        NextNamed(lib.run, Move.Emit(a.event));
      }
    } else if a.EndRun? {
      NextNamed(lib.run, End);
    }
  }

  // ----- reads catch up

  lemma {:induction false} ChangedNamed(r: Run, pairs: seq<Pair>, since: nat)
    requires WellNamed(r.rows) && forall p | p in pairs :: p in r.rows
    ensures forall i | 0 <= i < |ChangedIn(r, pairs, since)| :: '\n' !in ChangedIn(r, pairs, since)[i].pair.typ
    decreases |pairs|
  {
    if pairs != [] {
      ChangedNamed(r, pairs[1..], since);
    }
  }

  lemma {:induction false} TableCatchesUp(table: map<string, Row>, was: Run, r: Run)
    requires Grown(was, r) && Honest(r) && WellNamed(r.rows) && Shows(table, was.rows)
    ensures Shows(Taken(table, RowsSince(r, was.num)), r.rows)
  {
    ChangedNamed(r, r.order, was.num);
    RowsSinceCatchUp(was.rows, was, r, was.num);
    TakenShowsMerged(table, was.rows, RowsSince(r, was.num));
  }

  lemma {:induction false} HeardCatchesUp(was: Run, r: Run)
    requires Grown(was, r)
    ensures was.notable + DecisionsSince(r, was.num) == r.notable
  {
    DecisionsSinceCatchUp(was.notable, r, was.num);
  }

  lemma {:induction false} RowsReadFollows(b: Bridge, lib: Library, ended: bool)
    requires Writes(lib) && Follows(b, lib)
    ensures Follows(RowsRead(b, lib, ended), lib)
  {
    TableCatchesUp(b.table, b.rowsAt.run, lib.run);
    GrownSelf(lib.run);
  }

  lemma {:induction false} DecisionsReadFollows(b: Bridge, lib: Library, ended: bool)
    requires Writes(lib) && Follows(b, lib)
    ensures Follows(DecisionsRead(b, lib, ended), lib)
  {
    HeardCatchesUp(b.decisionsAt.run, lib.run);
    GrownSelf(lib.run);
  }

  // ----- every step keeps the invariant

  lemma {:induction false} BridgeFollows(s: Sys, a: Action)
    requires Writes(s.lib) && Follows(s.bridge, s.lib) && Due(s, a)
    ensures Follows(BridgeStep(s.bridge, s.lib, a), s.lib)
  {
    if a.ReadRows? {
      RowsReadFollows(s.bridge, s.lib, s.bridge.phase.ended);
    } else if a.ReadDecisions? {
      DecisionsReadFollows(s.bridge, s.lib, s.bridge.phase.ended);
    }
  }

  lemma {:induction false} LibraryFollows(b: Bridge, lib: Library, a: Action)
    requires Writes(lib) && Follows(b, lib)
    ensures Follows(b, LibraryStep(lib, a))
  {
    RecentStep(b.rowsAt, lib, a);
    RecentStep(b.decisionsAt, lib, a);
  }

  lemma {:induction false} FollowsStep(s: Sys, a: Action)
    requires Writes(s.lib) && Follows(s.bridge, s.lib) && Due(s, a)
    ensures Follows(Act(s, a).bridge, Act(s, a).lib)
  {
    BridgeFollows(s, a);
    LibraryFollows(BridgeStep(s.bridge, s.lib, a), s.lib, a);
  }

  lemma {:induction false} AwakeStep(s: Sys, a: Action)
    requires Good(s) && Due(s, a)
    ensures Awake(Act(s, a)) && Hooked(Act(s, a))
  {
  }

  lemma {:induction false} InOrderStep(s: Sys, a: Action)
    requires Good(s) && Due(s, a)
    ensures InOrder(Act(s, a).bridge)
  {
  }

  lemma {:induction false} EndingStep(s: Sys, a: Action)
    requires Good(s) && Due(s, a)
    ensures Ending(Act(s, a))
  {
    if a.Emit? && '\n' !in a.event.typ && s.lib.result == Running {
      NextNamed(s.lib.run, Move.Emit(a.event));
    } else if a.EndRun? {
      NextNamed(s.lib.run, End);
    }
  }

  lemma {:induction false} GoodStep(s: Sys, a: Action)
    requires Good(s)
    ensures Good(Act(s, a))
  {
    if Due(s, a) {
      WritesStep(s.lib, a);
      FollowsStep(s, a);
      AwakeStep(s, a);
      InOrderStep(s, a);
      EndingStep(s, a);
    }
  }

  // ----- every interleaving

  /** The system after any sequence of steps by either side. */
  ghost function Ran(actions: seq<Action>): (s: Sys)
    ensures Good(s)
    decreases |actions|
  {
    if actions == [] then
      GrownSelf(NEW_RUN); OPENED
    else
      var s := Ran(actions[..|actions| - 1]);
      GoodStep(s, actions[|actions| - 1]); Act(s, actions[|actions| - 1])
  }

  /** The view has what the run has, and has stopped exactly when the run has. */
  ghost predicate Current(s: Sys) {
    && Shows(s.bridge.table, s.lib.run.rows) && s.bridge.heard == s.lib.run.notable
    && (s.bridge.stopped <==> s.lib.run.finished)
  }

  /**
   A change the view has not taken in is announced: a byte waits or a poke is on
   its way. Only a pull that drained the pipe and then got no progress leaves it to
   the tick.
   */
  lemma {:induction false} NoLostWakeup(actions: seq<Action>)
    ensures var s := Ran(actions);
            (!s.bridge.closed && !s.bridge.stopped && s.bridge.phase.Idle? && !Current(s)) ==>
              s.lib.pipe > 0 || s.lib.pending > 0 || s.bridge.missed
  {
    var s := Ran(actions);
    if !s.bridge.closed && s.bridge.phase.Idle? && s.bridge.progressAt == s.lib.version {
      assert s.bridge.rowsAt.run == s.lib.run && s.bridge.decisionsAt.run == s.lib.run;
    }
  }

  ghost predicate SameEnd(lib: Library, lib': Library) {
    lib'.run == lib.run && lib'.result == lib.result
  }

  /** Once a run is finished no step of either side changes it or its result. */
  lemma {:induction false} FinalStep(s: Sys, a: Action)
    requires Good(s) && s.lib.run.finished
    ensures SameEnd(s.lib, Act(s, a).lib)
  {
  }

  /** The system after more steps by either side. */
  ghost function Onward(s: Sys, more: seq<Action>): Sys
    requires Good(s)
    decreases |more|
  {
    if more == [] then s else GoodStep(s, more[0]); Onward(Act(s, more[0]), more[1..])
  }

  lemma {:induction false} FinalStays(s: Sys, more: seq<Action>)
    requires Good(s) && s.lib.run.finished
    ensures SameEnd(s.lib, Onward(s, more).lib)
    decreases |more|
  {
    if more != [] {
      GoodStep(s, more[0]);
      FinalStep(s, more[0]);
      FinalStays(Act(s, more[0]), more[1..]);
    }
  }

  /**
   A view that stopped by itself is complete: the run has ended and nothing is
   missing, its result is there, and no later step of either side changes the run
   or the result.
   */
  lemma {:induction false} StoppedIsComplete(actions: seq<Action>, more: seq<Action>)
    requires Ran(actions).bridge.stopped
    ensures var s := Ran(actions);
            Current(s) && s.lib.run.finished && s.lib.result != Running && SameEnd(s.lib, Onward(s, more).lib)
  {
    var s := Ran(actions);
    assert s.bridge.rowsAt.run == s.lib.run && s.bridge.decisionsAt.run == s.lib.run;
    FinalStays(s, more);
  }

  lemma {:induction false} EndsPull(s: Sys)
    requires Honest(s.lib.run) && s.bridge.phase.GotDecisions?
    ensures Act(s, EndPull) == Sys(s.lib, s.bridge.(phase := Idle, stopped := s.bridge.phase.ended))
  {
  }

  lemma {:induction false} Undisturbed(s: Sys)
    requires Good(s) && s.bridge.phase.GotDecisions? && s.bridge.progressAt == s.lib.version
    ensures Shows(s.bridge.table, s.lib.run.rows) && s.bridge.heard == s.lib.run.notable
    ensures s.bridge.phase.ended == s.lib.run.finished
  {
    assert s.bridge.rowsAt.run == s.lib.run && s.bridge.decisionsAt.run == s.lib.run;
  }

  /**
   A pull that no change overtook since its progress read makes the view current,
   however many changes one byte stood for.
  */
  lemma {:induction false} UndisturbedPull(actions: seq<Action>)
    requires Ran(actions).bridge.phase.GotDecisions?
    requires Ran(actions).bridge.progressAt == Ran(actions).lib.version
    ensures Current(Act(Ran(actions), EndPull)) && Act(Ran(actions), EndPull).bridge.phase.Idle?
  {
    Undisturbed(Ran(actions));
    EndsPull(Ran(actions));
  }

  // The steps of one pull.
  const FROM_DECISIONS := [ReadDecisions] + [EndPull]
  const FROM_ROWS := [ReadRows] + FROM_DECISIONS
  const FROM_PROGRESS := [ReadProgress] + FROM_ROWS
  const PULL := [Drain] + FROM_PROGRESS

  lemma {:induction false} OnwardOne(s: Sys, a: Action, s1: Sys, more: seq<Action>)
    requires Good(s) && s1 == Act(s, a)
    ensures Good(s1) && Onward(s, [a] + more) == Onward(s1, more)
  {
    GoodStep(s, a);
    assert ([a] + more)[1..] == more;
  }

  /** These steps make the view current, with the run as it is. */
  ghost predicate Catches(s: Sys, steps: seq<Action>)
    requires Good(s)
  {
    var z := Onward(s, steps);
    Current(z) && z.bridge.phase.Idle? && z.lib.run == s.lib.run
  }

  lemma {:induction false} OneStepBefore(s: Sys, a: Action, s1: Sys, more: seq<Action>)
    requires Good(s) && Good(s1) && s1 == Act(s, a) && s1.lib.run == s.lib.run && Catches(s1, more)
    ensures Catches(s, [a] + more)
  {
    OnwardOne(s, a, s1, more);
  }

  lemma {:induction false} EndCatches(s: Sys)
    requires Good(s) && s.bridge.phase.GotDecisions? && s.bridge.progressAt == s.lib.version
    ensures Catches(s, [EndPull])
  {
    var z := Act(s, EndPull);
    Undisturbed(s);
    EndsPull(s);
    OnwardOne(s, EndPull, z, []);
    assert [EndPull] == [EndPull] + [];
  }

  lemma {:induction false} ReadsDecisions(s: Sys, s1: Sys)
    requires Good(s) && s.bridge.phase.GotRows? && s1 == Act(s, ReadDecisions)
    ensures s1.lib == s.lib && s1.bridge.phase.GotDecisions? && s1.bridge.progressAt == s.bridge.progressAt
  {
  }

  lemma {:induction false} ReadsRows(s: Sys, s1: Sys)
    requires Good(s) && s.bridge.phase.GotProgress? && s1 == Act(s, ReadRows)
    ensures s1.lib == s.lib && s1.bridge.phase.GotRows? && s1.bridge.progressAt == s.bridge.progressAt
  {
  }

  lemma {:induction false} ReadsProgress(s: Sys, s1: Sys)
    requires Good(s) && s.bridge.phase.Drained? && s1 == Act(s, ReadProgress)
    ensures s1.lib == s.lib && s1.bridge.phase.GotProgress? && s1.bridge.progressAt == s1.lib.version
  {
  }

  lemma {:induction false} Drains(s: Sys, s1: Sys)
    requires Good(s) && s.bridge.phase.Idle? && !s.bridge.closed && !s.bridge.stopped && s1 == Act(s, Drain)
    ensures s1.lib.run == s.lib.run && s1.bridge.phase.Drained?
  {
  }

  lemma {:induction false} DecisionsCatch(s: Sys)
    requires Good(s) && s.bridge.phase.GotRows? && s.bridge.progressAt == s.lib.version
    ensures Catches(s, FROM_DECISIONS)
  {
    var s1 := Act(s, ReadDecisions);
    GoodStep(s, ReadDecisions);
    ReadsDecisions(s, s1);
    EndCatches(s1);
    OneStepBefore(s, ReadDecisions, s1, [EndPull]);
  }

  lemma {:induction false} RowsCatch(s: Sys)
    requires Good(s) && s.bridge.phase.GotProgress? && s.bridge.progressAt == s.lib.version
    ensures Catches(s, FROM_ROWS)
  {
    var s1 := Act(s, ReadRows);
    GoodStep(s, ReadRows);
    ReadsRows(s, s1);
    DecisionsCatch(s1);
    OneStepBefore(s, ReadRows, s1, FROM_DECISIONS);
  }

  lemma {:induction false} ProgressCatches(s: Sys)
    requires Good(s) && s.bridge.phase.Drained?
    ensures Catches(s, FROM_PROGRESS)
  {
    var s1 := Act(s, ReadProgress);
    GoodStep(s, ReadProgress);
    ReadsProgress(s, s1);
    RowsCatch(s1);
    OneStepBefore(s, ReadProgress, s1, FROM_ROWS);
  }

  lemma {:induction false} PullCatches(s: Sys)
    requires Good(s) && s.bridge.phase.Idle? && !s.bridge.closed && !s.bridge.stopped
    ensures Catches(s, PULL)
  {
    var s1 := Act(s, Drain);
    GoodStep(s, Drain);
    Drains(s, s1);
    ProgressCatches(s1);
    OneStepBefore(s, Drain, s1, FROM_PROGRESS);
  }

  /**
   Wherever a run and its view stand, an idle view that is open and has not stopped
   can pull, and one pull that nothing overtakes makes it current.
  */
  lemma {:induction false} OnePullCatchesUp(actions: seq<Action>)
    requires var b := Ran(actions).bridge; b.phase.Idle? && !b.closed && !b.stopped
    ensures Catches(Ran(actions), PULL)
  {
    PullCatches(Ran(actions));
  }

  // ----- why progress is read first

  /** A pull that reads rows and decisions first and progress last. */
  function PullBackwards(b: Bridge, atRows: Library, atDecisions: Library, atProgress: Library): Bridge
    requires Rowed(atRows.run)
  {
    var ended := atProgress.run.finished;
    var read := DecisionsRead(RowsRead(b, atRows, false), atDecisions, false);
    ProgressRead(read, atProgress).(phase := Idle, stopped := ended)
  }

  /** A device's last row, the result and the end of the run, one after the other. */
  function LastSteps(ev: Event, outcome: ResultState): seq<Action> {
    [Action.Emit(ev), SetResult(outcome), EndRun]
  }

  ghost function LibraryAfter(lib: Library, steps: seq<Action>): (lib': Library)
    requires Writes(lib)
    ensures Writes(lib')
    decreases |steps|
  {
    if steps == [] then lib
    else
      WritesStep(lib, steps[0]); LibraryAfter(LibraryStep(lib, steps[0]), steps[1..])
  }

  lemma {:induction false} StartedRow(r: Run, ev: Event)
    requires Honest(r) && ev.kind == CaptureStart && ev.identity != "" && ev.typ != ""
    ensures Pair(ev.identity, ev.typ) in Apply(r, ev).rows
  {
  }

  lemma {:induction false} LibraryEnds(lib: Library, ev: Event, outcome: ResultState)
    requires Writes(lib) && lib.result == Running && outcome != Running && '\n' !in ev.typ
    ensures LibraryAfter(lib, LastSteps(ev, outcome)).run == Next(Next(lib.run, Move.Emit(ev)), End)
  {
    var steps := LastSteps(ev, outcome);
    assert steps[1..] == [SetResult(outcome), EndRun] && steps[1..][1..] == [EndRun] && steps[1..][1..][1..] == [];
    WritesStep(lib, steps[0]);
    NextNamed(lib.run, Move.Emit(ev));
    var lib1 := LibraryStep(lib, steps[0]);
    WritesStep(lib1, steps[1]);
    var lib2 := LibraryStep(lib1, steps[1]);
    assert lib2 == lib1.(result := outcome);
    WritesStep(lib2, EndRun);
    assert LibraryAfter(lib, steps) == LibraryAfter(lib1, steps[1..]);
    assert LibraryAfter(lib1, steps[1..]) == LibraryAfter(lib2, [EndRun]);
    assert LibraryAfter(lib2, [EndRun]) == LibraryStep(lib2, EndRun);
  }

  /**
   In any run still under way, a pull that reads rows before progress can stop
   for good without the row that was started last, when the run ends in between.
   */
  lemma {:induction false} RowsFirstLoses(actions: seq<Action>, ev: Event, outcome: ResultState)
    requires Ran(actions).lib.result == Running && outcome != Running
    requires ev.kind == CaptureStart && ev.identity != "" && ev.typ != "" && '\n' !in ev.typ
    requires Pair(ev.identity, ev.typ) !in Ran(actions).lib.run.rows
    ensures var s := Ran(actions);
            var last := LibraryAfter(s.lib, LastSteps(ev, outcome));
            var b := PullBackwards(s.bridge, s.lib, s.lib, last);
            b.stopped && Pair(ev.identity, ev.typ) in last.run.rows && !Shows(b.table, last.run.rows)
  {
    var s := Ran(actions);
    var p := Pair(ev.identity, ev.typ);
    LibraryEnds(s.lib, ev, outcome);
    StartedRow(s.lib.run, ev);
    FinishMoves(Apply(s.lib.run, ev));
    RowsReadFollows(s.bridge, s.lib, false);
    var table := RowsRead(s.bridge, s.lib, false).table;
    assert Shows(table, s.lib.run.rows);
    NotShown(table, s.lib.run.rows, p);
  }

  /** A table that shows rows has no entry for another pair. */
  lemma {:induction false} NotShown(table: map<string, Row>, rows: map<Pair, Row>, p: Pair)
    requires Shows(table, rows) && WellNamed(rows) && p !in rows && '\n' !in p.typ
    ensures Key(p) !in table
  {
    if Key(p) in table {
      var q := table[Key(p)].pair;
      KeyTellsPairs(p, q);
    }
  }
}
