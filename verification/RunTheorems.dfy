/**
 What holds of every run of events: its counters, its settled rows, and what a
 view that asks for the changes since its last visit ends up with.
 */
module RunTheorems {
  import opened RunModel

  // ----- the end of a run

  /** What ending does to a row: nothing, unless it was in flight; then it fails as a missing result. */
  predicate Ended(row: Row, row': Row) {
    row' == row || (row.state == InFlight && row' == row.(state := Failed, detail := MissingEmit, num := row'.num))
  }

  lemma {:induction false} EndInFlight(r: Run, r0: Run, p: Pair, since: nat)
    requires Rowed(r) && p in r.rows && since <= r.num && r0 == r.(num := r.num + 1)
    ensures Moves(r, Settle(r0, p, Failed, MissingEmit, NO_ARTIFACT), since)
    ensures Rowed(Settle(r0, p, Failed, MissingEmit, NO_ARTIFACT))
  {
    SettleMoves(r0, p, Failed, MissingEmit, NO_ARTIFACT, since);
    MovesFrom(r, r0, Settle(r0, p, Failed, MissingEmit, NO_ARTIFACT), since);
  }

  lemma {:induction false} EndRowMoves(r: Run, p: Pair, since: nat)
    requires Rowed(r) && p in r.rows && since <= r.num
    ensures Moves(r, EndRow(r, p), since) && Rowed(EndRow(r, p))
  {
    if r.rows[p].state == InFlight {
      var r0 := r.(num := r.num + 1);
      EndInFlight(r, r0, p, since);
      assert EndRow(r, p) == Settle(r0, p, Failed, MissingEmit, NO_ARTIFACT);
    } else {
      assert EndRow(r, p) == r;
    }
  }

  lemma {:induction false} SettleRestMoves(r: Run, pairs: seq<Pair>, since: nat)
    requires Rowed(r) && since <= r.num && forall p | p in pairs :: p in r.rows
    ensures Moves(r, SettleRest(r, pairs), since) && Rowed(SettleRest(r, pairs))
    ensures SettleRest(r, pairs).notable == r.notable && SettleRest(r, pairs).finished == r.finished
    decreases |pairs|
  {
    if pairs != [] {
      EndRowMoves(r, pairs[0], since);
      SettleRestMoves(EndRow(r, pairs[0]), pairs[1..], since);
      MovesTransitive(r, EndRow(r, pairs[0]), SettleRest(EndRow(r, pairs[0]), pairs[1..]), since);
    }
  }

  lemma {:induction false} SettleRestEnds(r: Run, pairs: seq<Pair>, p: Pair)
    requires p in r.rows && forall q | q in pairs :: q in r.rows
    ensures Ended(r.rows[p], SettleRest(r, pairs).rows[p])
    ensures p in pairs ==> SettleRest(r, pairs).rows[p].state != InFlight
    decreases |pairs|
  {
    if pairs != [] {
      SettleRestEnds(EndRow(r, pairs[0]), pairs[1..], p);
      Uncons(pairs);
    }
  }

  lemma {:induction false} Uncons(pairs: seq<Pair>)
    requires pairs != []
    ensures forall p | p in pairs :: p == pairs[0] || p in pairs[1..]
  {
    assert pairs == [pairs[0]] + pairs[1..];
  }

  /** Finishing moves rows under numbers of their own, so that a view will see them move. */
  lemma {:induction false} FinishMoves(r: Run)
    requires Rowed(r)
    ensures Moves(r, Finish(r), r.num) && Rowed(Finish(r))
    ensures Finish(r).finished && Finish(r).notable == r.notable
  {
    SettleRestMoves(r.(finished := true), r.order, r.num);
    MovesFrom(r, r.(finished := true), Finish(r), r.num);
  }

  /** Finish fails every row in flight as a missing result and leaves each settled row as it is. */
  lemma {:induction false} FinishSettles(r: Run, p: Pair)
    requires Rowed(r) && p in r.rows
    ensures r.rows[p].state != InFlight ==> Finish(r).rows[p] == r.rows[p]
    ensures r.rows[p].state == InFlight ==>
              Finish(r).rows[p] == r.rows[p].(state := Failed, detail := MissingEmit, num := Finish(r).rows[p].num)
  {
    SettleRestEnds(r.(finished := true), r.order, p);
  }

  // ----- counters

  lemma {:induction false} TotalSame(rows: map<Pair, Row>, rows': map<Pair, Row>, pairs: seq<Pair>, k: Counter)
    requires forall p | p in pairs :: p in rows && p in rows' && Share(rows'[p], k) == Share(rows[p], k)
    ensures Total(rows', pairs, k) == Total(rows, pairs, k)
    decreases |pairs|
  {
    if pairs != [] {
      TotalSame(rows, rows', pairs[1..], k);
    }
  }

  /** Replacing one row takes its share out of the total and puts the new one in. */
  lemma {:induction false} TotalReplaced(rows: map<Pair, Row>, pairs: seq<Pair>, p: Pair, row: Row, k: Counter)
    requires (forall q | q in pairs :: q in rows) && p in rows && p in pairs
    requires forall i, j | 0 <= i < j < |pairs| :: pairs[i] != pairs[j]
    ensures Total(rows[p := row], pairs, k) == Total(rows, pairs, k) - Share(rows[p], k) + Share(row, k)
    decreases |pairs|
  {
    if pairs[0] == p {
      TotalSame(rows, rows[p := row], pairs[1..], k);
    } else {
      TotalReplaced(rows, pairs[1..], p, row, k);
    }
  }

  lemma {:induction false} TotalAppended(rows: map<Pair, Row>, pairs: seq<Pair>, p: Pair, row: Row, k: Counter)
    requires (forall q | q in pairs :: q in rows) && p !in pairs
    ensures Total(rows[p := row], pairs + [p], k) == Total(rows, pairs, k) + Share(row, k)
    decreases |pairs|
  {
    if pairs == [] {
    } else {
      assert (pairs + [p])[1..] == pairs[1..] + [p];
      TotalAppended(rows, pairs[1..], p, row, k);
    }
  }

  /** Settling moves one count from in flight to the row's new state. */
  lemma {:induction false} MovedCounts(row: Row, row': Row, c: Counts, bytes: nat, k: Counter)
    requires row.state == InFlight && row'.state != InFlight
    requires row'.state == Stored ==> row'.artifact.bytes == bytes
    ensures Count(Moved(c, row'.state, bytes), k) == Count(c, k) - Share(row, k) + Share(row', k)
  {
  }

  lemma {:induction false} SettleCounts(r: Run, p: Pair, state: RowState, detail: Detail, artifact: Artifact)
    requires Rowed(r) && Counted(r) && p in r.rows && state != InFlight
    ensures Counted(Settle(r, p, state, detail, artifact))
  {
    if r.rows[p].state == InFlight {
      var row := SettledRow(r.rows[p], state, detail, artifact, r.num);
      forall k ensures Count(Moved(r.counts, state, artifact.bytes), k) == Total(r.rows[p := row], r.order, k) {
        MovedCounts(r.rows[p], row, r.counts, artifact.bytes, k);
        TotalReplaced(r.rows, r.order, p, row, k);
      }
    }
  }

  lemma {:induction false} OpenCounts(r: Run, ev: Event)
    requires Rowed(r) && Counted(r)
    ensures Counted(Open(r, ev))
  {
    var p := Pair(ev.identity, ev.typ);
    if p !in r.rows {
      var r' := Open(r, ev);
      forall k ensures Count(r'.counts, k) == Total(r'.rows, r'.order, k) {
        TotalAppended(r.rows, r.order, p, r'.rows[p], k);
      }
    }
  }

  /** A change of rows that keeps every state and artifact keeps the counters true. */
  lemma {:induction false} SameCounts(r: Run, r': Run)
    requires Rowed(r) && Counted(r) && r'.order == r.order && r'.counts == r.counts
    requires forall p | p in r.rows :: p in r'.rows && r'.rows[p].state == r.rows[p].state
                                       && r'.rows[p].artifact == r.rows[p].artifact
    ensures Counted(r')
  {
    forall k ensures Count(r'.counts, k) == Total(r'.rows, r'.order, k) {
      TotalSame(r.rows, r'.rows, r.order, k);
    }
  }

  lemma {:induction false} SettleDeviceCounts(r: Run, pairs: seq<Pair>, identity: string)
    requires Rowed(r) && Counted(r) && forall p | p in pairs :: p in r.rows
    ensures Counted(SettleDevice(r, pairs, identity))
    decreases |pairs|
  {
    if pairs == [] {
    } else if pairs[0].identity != identity {
      SettleDeviceCounts(r, pairs[1..], identity);
    } else {
      var why := KnownOf(r, identity).why;
      SettleRowed(r, pairs[0], Failed, why, NO_ARTIFACT);
      SettleCounts(r, pairs[0], Failed, why, NO_ARTIFACT);
      SettleDeviceCounts(Settle(r, pairs[0], Failed, why, NO_ARTIFACT), pairs[1..], identity);
    }
  }

  lemma {:induction false} ToRowCounts(r: Run, ev: Event)
    requires Rowed(r) && Counted(r) && Pair(ev.identity, ev.typ) in r.rows
    ensures Counted(ToRow(r, ev))
  {
    if ev.kind == CaptureStart {
      SameCounts(r, ToRow(r, ev));
    } else if SettlesAs(ev) != InFlight {
      SettleCounts(r, Pair(ev.identity, ev.typ), SettlesAs(ev), SettlesWith(ev), ev.artifact);
    }
  }

  lemma {:induction false} StampCounts(r: Run, identity: string, d: Known, naming: bool)
    requires Rowed(r) && Counted(r)
    ensures Counted(Stamp(r, identity, d, naming))
  {
    SameCounts(r, Stamp(r, identity, d, naming));
  }

  lemma {:induction false} CaptureCounts(r: Run, ev: Event)
    requires Rowed(r) && Counted(r)
    ensures Counted(ToRow(Open(r, ev), ev))
  {
    OpenCounts(r, ev);
    OpenRowed(r, ev);
    ToRowCounts(Open(r, ev), ev);
  }

  lemma {:induction false} FailCounts(r: Run, ev: Event)
    requires Rowed(r) && Counted(r)
    ensures Counted(SettleDevice(Fail(r, ev), r.order, ev.identity))
  {
    SameCounts(r, Fail(r, ev));
    SettleDeviceCounts(Fail(r, ev), r.order, ev.identity);
  }

  lemma {:induction false} ToRunCounts(r: Run, ev: Event)
    requires Rowed(r) && Counted(r)
    ensures Counted(ToRun(r, ev))
  {
    var d := KnownOf(r, ev.identity);
    if ev.kind == PlatformKnown {
      StampCounts(r, ev.identity, d.(platform := ev.platform), false);
    } else if ev.kind == Resolved || ev.kind == Named {
      StampCounts(r, ev.identity, d.(name := ev.name), true);
    } else if ev.kind == DeviceFail {
      FailCounts(r, ev);
    } else {
      CaptureCounts(r, ev);
    }
  }

  lemma {:induction false} SameRows(r: Run, r': Run)
    requires Rowed(r) && Counted(r)
    requires r'.rows == r.rows && r'.order == r.order && r'.counts == r.counts && r.num <= r'.num
    ensures Rowed(r') && Counted(r')
  {
  }

  lemma {:induction false} ToKnownCounts(r: Run, r0: Run, ev: Event)
    requires Rowed(r) && Counted(r) && r0 == r.(num := r.num + 1)
    ensures Counted(ToKnown(r0, ev))
  {
    SameRows(r, r0);
    SameRows(r, Meet(r0, ev.identity));
    ToRunCounts(Meet(r0, ev.identity), ev);
  }

  lemma {:induction false} ApplyCounts(r: Run, ev: Event)
    requires Rowed(r) && Counted(r)
    ensures Counted(Apply(r, ev))
  {
    ToKnownCounts(r, r.(num := r.num + 1), ev);
  }

  lemma {:induction false} EndInFlightCounts(r: Run, r0: Run, r1: Run, p: Pair)
    requires Rowed(r) && Counted(r) && p in r.rows && r0 == r.(num := r.num + 1)
    requires r1 == Settle(r0, p, Failed, MissingEmit, NO_ARTIFACT)
    ensures Rowed(r1) && Counted(r1)
  {
    SameRows(r, r0);
    SettleRowed(r0, p, Failed, MissingEmit, NO_ARTIFACT);
    SettleCounts(r0, p, Failed, MissingEmit, NO_ARTIFACT);
  }

  lemma {:induction false} EndRowCounts(r: Run, r1: Run, p: Pair)
    requires Rowed(r) && Counted(r) && p in r.rows && r1 == EndRow(r, p)
    ensures Rowed(r1) && Counted(r1)
  {
    if r.rows[p].state == InFlight {
      EndInFlightCounts(r, r.(num := r.num + 1), r1, p);
    }
  }

  lemma {:induction false} SettleRestCounts(r: Run, pairs: seq<Pair>)
    requires Rowed(r) && Counted(r) && forall p | p in pairs :: p in r.rows
    ensures Counted(SettleRest(r, pairs))
    decreases |pairs|
  {
    if pairs != [] {
      var r1 := EndRow(r, pairs[0]);
      EndRowCounts(r, r1, pairs[0]);
      SettleRestCounts(r1, pairs[1..]);
    }
  }

  // ----- whole runs

  datatype Move = Emit(event: Event) | End

  ghost predicate Honest(r: Run) {
    Rowed(r) && Listed(r.notable, r.num)
  }

  ghost function Next(r: Run, move: Move): (r': Run)
    requires Honest(r)
    ensures Honest(r')
  {
    match move
    case Emit(ev) => ApplyMoves(r, ev); ApplyLists(r, ev); Apply(r, ev)
    case End => FinishMoves(r); Finish(r)
  }

  /** A run after any events and ends, in any order: the engine may emit late, or twice. */
  ghost function Played(r: Run, moves: seq<Move>): (r': Run)
    requires Honest(r)
    ensures Honest(r')
    decreases |moves|
  {
    if moves == [] then r else Next(Played(r, moves[..|moves| - 1]), moves[|moves| - 1])
  }

  lemma {:induction false} NextCounts(r: Run, move: Move)
    requires Honest(r) && Counted(r)
    ensures Counted(Next(r, move))
  {
    match move
    case Emit(ev) => ApplyCounts(r, ev);
    case End => SettleRestCounts(r.(finished := true), r.order);
  }

  /** In every run each counter is the number of rows in its state, and bytes what the stored rows hold. */
  lemma {:induction false} EveryCountIsTrue(moves: seq<Move>)
    ensures Counted(Played(NEW_RUN, moves))
    decreases |moves|
  {
    if moves != [] {
      var r := Played(NEW_RUN, moves[..|moves| - 1]);
      EveryCountIsTrue(moves[..|moves| - 1]);
      NextCounts(r, moves[|moves| - 1]);
    }
  }

  lemma {:induction false} MovesSince(r: Run, r': Run, late: nat, since: nat)
    requires Moves(r, r', late) && since <= late
    ensures Moves(r, r', since)
  {
  }

  lemma {:induction false} NextMoves(r: Run, move: Move)
    requires Honest(r)
    ensures Moves(r, Next(r, move), r.num)
  {
    match move
    case Emit(ev) => ApplyMoves(r, ev);
    case End => FinishMoves(r);
  }

  /** Over any stretch of a run, what moved is numbered above where the stretch began. */
  lemma {:induction false} PlayedMoves(r: Run, moves: seq<Move>)
    requires Honest(r)
    ensures Moves(r, Played(r, moves), r.num)
    decreases |moves|
  {
    if moves != [] {
      var r1, move := Played(r, moves[..|moves| - 1]), moves[|moves| - 1];
      PlayedMoves(r, moves[..|moves| - 1]);
      NextMoves(r1, move);
      MovesSince(r1, Next(r1, move), r1.num, r.num);
      MovesTransitive(r, r1, Next(r1, move), r.num);
    }
  }

  /** Later gained only decisions numbered above since. */
  ghost predicate Grew(decisions: seq<Decision>, later: seq<Decision>, since: nat) {
    decisions <= later && forall i | |decisions| <= i < |later| :: since < later[i].num
  }

  lemma {:induction false} NextGrew(r: Run, move: Move, decisions: seq<Decision>, since: nat)
    requires Honest(r) && since <= r.num && Grew(decisions, r.notable, since)
    ensures Grew(decisions, Next(r, move).notable, since)
  {
    match move
    case Emit(ev) => ApplyLists(r, ev);
    case End => FinishMoves(r);
  }

  lemma {:induction false} PlayedGrew(r: Run, moves: seq<Move>)
    requires Honest(r)
    ensures Grew(r.notable, Played(r, moves).notable, r.num)
    decreases |moves|
  {
    if moves != [] {
      var r1 := Played(r, moves[..|moves| - 1]);
      PlayedGrew(r, moves[..|moves| - 1]);
      PlayedMoves(r, moves[..|moves| - 1]);
      NextGrew(r1, moves[|moves| - 1], r.notable, r.num);
    }
  }

  /** A row settles once: whatever is emitted later, its state, detail and artifact stay. */
  lemma {:induction false} SettledOnce(r: Run, moves: seq<Move>, p: Pair)
    requires Honest(r) && p in r.rows && r.rows[p].state != InFlight
    ensures p in Played(r, moves).rows && Played(r, moves).rows[p].state == r.rows[p].state
    ensures Played(r, moves).rows[p].artifact == r.rows[p].artifact
    ensures Played(r, moves).rows[p].detail == r.rows[p].detail
  {
    PlayedMoves(r, moves);
  }

  // ----- a view that asks for changes

  /** Where a pair stands in an order. */
  function Place(order: seq<Pair>, p: Pair): nat
    requires p in order
    decreases |order|
  {
    if order[0] == p then 0 else 1 + Place(order[1..], p)
  }

  ghost predicate InOrderOf(rows: seq<Row>, order: seq<Pair>) {
    && (forall i | 0 <= i < |rows| :: rows[i].pair in order)
    && (forall i, j | 0 <= i < j < |rows| :: Place(order, rows[i].pair) < Place(order, rows[j].pair))
  }

  lemma {:induction false} OrderOneMore(rows: seq<Row>, first: seq<Row>, order: seq<Pair>)
    requires order != [] && order[0] !in order[1..] && InOrderOf(rows, order[1..])
    requires first == [] || (|first| == 1 && first[0].pair == order[0])
    ensures InOrderOf(first + rows, order)
  {
    var all := first + rows;
    forall i | |first| <= i < |all|
      ensures all[i].pair in order && Place(order, all[i].pair) == 1 + Place(order[1..], all[i].pair)
    {
      assert all[i] == rows[i - |first|];
    }
  }

  lemma {:induction false} ChangedExactly(r: Run, pairs: seq<Pair>, since: nat)
    requires Rowed(r) && (forall p | p in pairs :: p in r.rows)
    requires forall i, j | 0 <= i < j < |pairs| :: pairs[i] != pairs[j]
    ensures forall p | p in r.rows :: r.rows[p] in ChangedIn(r, pairs, since) <==> p in pairs && r.rows[p].num > since
    ensures forall row | row in ChangedIn(r, pairs, since) :: row.pair in r.rows && row == r.rows[row.pair]
    ensures InOrderOf(ChangedIn(r, pairs, since), pairs)
    decreases |pairs|
  {
    if pairs != [] {
      Uncons(pairs);
      ChangedExactly(r, pairs[1..], since);
      OrderOneMore(ChangedIn(r, pairs[1..], since),
                   if r.rows[pairs[0]].num > since then [r.rows[pairs[0]]] else [], pairs);
    }
  }

  /** A view is given exactly the rows numbered above what it has seen, each once, in the order they appeared. */
  lemma {:induction false} RowsSinceExactly(r: Run, since: nat)
    requires Rowed(r)
    ensures forall p | p in r.rows :: r.rows[p] in RowsSince(r, since) <==> r.rows[p].num > since
    ensures forall row | row in RowsSince(r, since) :: row.pair in r.rows && row == r.rows[row.pair]
    ensures InOrderOf(RowsSince(r, since), r.order)
  {
    ChangedExactly(r, r.order, since);
  }

  /** The view's table after taking rows in, one at a time. */
  function Merged(view: map<Pair, Row>, rows: seq<Row>): map<Pair, Row>
    decreases |rows|
  {
    if rows == [] then view else Merged(view[rows[0].pair := rows[0]], rows[1..])
  }

  /** Every row but those still to come is already right. */
  ghost predicate RightBut(view: map<Pair, Row>, r: Run, pairs: seq<Pair>, since: nat) {
    && (forall p | p in view :: p in r.rows)
    && (forall p | p in r.rows :: (p in view && view[p] == r.rows[p]) || (p in pairs && since < r.rows[p].num))
  }

  lemma {:induction false} MergedChanges(view: map<Pair, Row>, r: Run, pairs: seq<Pair>, since: nat)
    requires Rowed(r) && (forall p | p in pairs :: p in r.rows) && RightBut(view, r, pairs, since)
    ensures Merged(view, ChangedIn(r, pairs, since)) == r.rows
    decreases |pairs|
  {
    if pairs == [] {
      assert view == r.rows;
    } else {
      var row := r.rows[pairs[0]];
      Uncons(pairs);
      if row.num > since {
        assert ChangedIn(r, pairs, since)[1..] == ChangedIn(r, pairs[1..], since);
        MergedChanges(view[row.pair := row], r, pairs[1..], since);
      } else {
        assert ChangedIn(r, pairs, since) == ChangedIn(r, pairs[1..], since);
        MergedChanges(view, r, pairs[1..], since);
      }
    }
  }

  /** Merging what moved since a view was right makes it right again. */
  lemma {:induction false} RowsSinceCatchUp(view: map<Pair, Row>, r: Run, r': Run, since: nat)
    requires view == r.rows && Rowed(r') && Moves(r, r', since)
    ensures Merged(view, RowsSince(r', since)) == r'.rows
  {
    MergedChanges(view, r', r'.order, since);
  }

  lemma {:induction false} DecisionsAllNewer(newer: seq<Decision>, since: nat)
    requires forall i | 0 <= i < |newer| :: since < newer[i].num
    ensures DecisionsAfter(newer, since) == newer
  {
    if newer != [] {
      DecisionsAllNewer(newer[1..], since);
      assert newer == [newer[0]] + newer[1..];
    }
  }

  lemma {:induction false} DecisionsAfterSkip(older: seq<Decision>, newer: seq<Decision>, since: nat)
    requires (forall i | 0 <= i < |older| :: older[i].num <= since)
    requires (forall i | 0 <= i < |newer| :: since < newer[i].num)
    ensures DecisionsAfter(older + newer, since) == newer
    decreases |older|
  {
    if older == [] {
      assert older + newer == newer;
      DecisionsAllNewer(newer, since);
    } else {
      assert (older + newer)[1..] == older[1..] + newer;
      DecisionsAfterSkip(older[1..], newer, since);
    }
  }

  /** What is returned is exactly the decisions the view has not had, in order. */
  lemma {:induction false} DecisionsSinceCatchUp(decisions: seq<Decision>, r': Run, since: nat)
    requires Listed(decisions, since) && Grew(decisions, r'.notable, since)
    ensures decisions + DecisionsSince(r', since) == r'.notable
  {
    DecisionsAfterSkip(decisions, r'.notable[|decisions|..], since);
    assert decisions + r'.notable[|decisions|..] == r'.notable;
  }

  /** One pull, from any point of a run to any later one, leaves out nothing and repeats nothing. */
  lemma {:induction false} PullCatchesUp(r: Run, moves: seq<Move>)
    requires Honest(r)
    ensures var r' := Played(r, moves);
            && Merged(r.rows, RowsSince(r', r.num)) == r'.rows
            && r.notable + DecisionsSince(r', r.num) == r'.notable
  {
    PlayedMoves(r, moves);
    PlayedGrew(r, moves);
    RowsSinceCatchUp(r.rows, r, Played(r, moves), r.num);
    DecisionsSinceCatchUp(r.notable, Played(r, moves), r.num);
  }

  // ----- what an event says is what its row shows

  /** A reason, or that none was given. */
  function Why(ev: Event): Detail {
    if ev.detail != "" then Said(ev.detail) else NoReasonGiven
  }

  /** Why there is no command: what the event says, or for which platform. */
  function WhyNot(ev: Event): Detail {
    if ev.detail != "" then Said(ev.detail)
    else if ev.platform != "" then NoCommandFor(ev.platform)
    else NoCommand
  }

  /** The row's word, as its event has it; a failure and a missing command always come with a reason. */
  ghost predicate Shown(row: Row, ev: Event, num: nat) {
    && row.num == num
    && (ev.kind == CaptureStored ==> row.state == Stored && row.artifact == ev.artifact)
    && (ev.kind == CaptureUnchanged ==> row.state == Unchanged && row.artifact == ev.artifact)
    && (ev.kind == NotApplic ==> row.state == NotApplicable && row.detail == WhyNot(ev))
    && (ev.kind == CaptureFail ==> row.state == Failed && row.detail == Why(ev))
    && (ev.kind == CaptureStart ==> row.state == InFlight && row.command == ev.command)
  }

  predicate OfCapture(ev: Event) {
    ev.kind == CaptureStored || ev.kind == CaptureUnchanged || ev.kind == NotApplic ||
    ev.kind == CaptureFail || ev.kind == CaptureStart
  }

  lemma {:induction false} ToRowTells(r: Run, ev: Event)
    requires OfCapture(ev) && Pair(ev.identity, ev.typ) in r.rows && r.rows[Pair(ev.identity, ev.typ)].state == InFlight
    ensures Shown(ToRow(r, ev).rows[Pair(ev.identity, ev.typ)], ev, r.num)
  {
  }

  lemma {:induction false} OpenInFlight(r: Run, ev: Event)
    requires Pair(ev.identity, ev.typ) in r.rows ==> r.rows[Pair(ev.identity, ev.typ)].state == InFlight
    ensures Pair(ev.identity, ev.typ) in Open(r, ev).rows && Open(r, ev).num == r.num
    ensures Open(r, ev).rows[Pair(ev.identity, ev.typ)].state == InFlight
  {
  }

  lemma {:induction false} CaptureIsToRow(r: Run, ev: Event)
    requires OfCapture(ev) && ev.identity != "" && ev.typ != "" && forall p | p in r.order :: p in r.rows
    ensures Pair(ev.identity, ev.typ) in Open(Meet(r, ev.identity), ev).rows
    ensures ToKnown(r, ev) == ToRow(Open(Meet(r, ev.identity), ev), ev)
  {
  }

  lemma {:induction false} ToKnownTells(r: Run, r0: Run, ev: Event)
    requires Rowed(r) && OfCapture(ev) && ev.identity != "" && ev.typ != "" && r0 == r.(num := r.num + 1)
    requires Pair(ev.identity, ev.typ) in r.rows ==> r.rows[Pair(ev.identity, ev.typ)].state == InFlight
    ensures Pair(ev.identity, ev.typ) in ToKnown(r0, ev).rows
    ensures Shown(ToKnown(r0, ev).rows[Pair(ev.identity, ev.typ)], ev, r.num + 1)
  {
    var met := Meet(r0, ev.identity);
    OpenInFlight(met, ev);
    ToRowTells(Open(met, ev), ev);
    CaptureIsToRow(r0, ev);
  }

  /** An event about a capture shows in its row, opened if need be, unless the row was settled before. */
  lemma {:induction false} EventShows(r: Run, ev: Event)
    requires Rowed(r) && OfCapture(ev) && ev.identity != "" && ev.typ != ""
    requires Pair(ev.identity, ev.typ) in r.rows ==> r.rows[Pair(ev.identity, ev.typ)].state == InFlight
    ensures Pair(ev.identity, ev.typ) in Apply(r, ev).rows
    ensures Shown(Apply(r, ev).rows[Pair(ev.identity, ev.typ)], ev, r.num + 1)
  {
    var r0 := r.(num := r.num + 1);
    ApplyShape(r, r0, ev);
    ToKnownTells(r, r0, ev);
  }

  lemma {:induction false} DeviceSettles(r: Run, pairs: seq<Pair>, identity: string, p: Pair)
    requires (forall q | q in pairs :: q in r.rows) && p in r.rows
    ensures var row, row' := r.rows[p], SettleDevice(r, pairs, identity).rows[p];
            if p.identity == identity && p in pairs && row.state == InFlight
            then
              && row'.state == Failed
              && (KnownOf(r, identity).why != SILENT ==> row'.detail == KnownOf(r, identity).why)
            else row' == row
    decreases |pairs|
  {
    if pairs != [] {
      Uncons(pairs);
      if pairs[0].identity != identity {
        DeviceSettles(r, pairs[1..], identity, p);
      } else {
        DeviceSettles(Settle(r, pairs[0], Failed, KnownOf(r, identity).why, NO_ARTIFACT), pairs[1..], identity, p);
      }
    }
  }

  /**
   A device that fails takes each of its rows in flight with it, for the reason
   of its first failure, and no other row.
  */
  lemma {:induction false} DeviceFailShows(r: Run, ev: Event, p: Pair)
    requires Rowed(r) && ev.kind == DeviceFail && p in r.rows
    ensures var known, row' := Fail(r, ev).devices[ev.identity], ToRun(r, ev).rows[p];
            if p.identity == ev.identity && r.rows[p].state == InFlight
            then row'.state == Failed && (known.why != SILENT ==> row'.detail == known.why)
            else row' == r.rows[p]
    ensures !KnownOf(r, ev.identity).failed ==> Fail(r, ev).devices[ev.identity].why == Why(ev)
    ensures KnownOf(r, ev.identity).failed ==> Fail(r, ev).devices[ev.identity].why == KnownOf(r, ev.identity).why
  {
    DeviceSettles(Fail(r, ev), r.order, ev.identity, p);
  }

  // ----- every row carries what is known of its device

  ghost predicate Carried(r: Run) {
    forall p | p in r.rows ::
      && p.identity in r.devices
      && r.rows[p].name == r.devices[p.identity].name && r.rows[p].platform == r.devices[p.identity].platform
  }

  lemma {:induction false} SettleDeviceCarries(r: Run, pairs: seq<Pair>, identity: string)
    requires Carried(r) && forall q | q in pairs :: q in r.rows
    ensures Carried(SettleDevice(r, pairs, identity))
    decreases |pairs|
  {
    if pairs == [] {
    } else if pairs[0].identity != identity {
      SettleDeviceCarries(r, pairs[1..], identity);
    } else {
      SettleDeviceCarries(Settle(r, pairs[0], Failed, KnownOf(r, identity).why, NO_ARTIFACT), pairs[1..], identity);
    }
  }

  lemma {:induction false} FailCarries(r: Run, ev: Event)
    requires Rowed(r) && Carried(r)
    ensures Carried(SettleDevice(Fail(r, ev), r.order, ev.identity))
  {
    SettleDeviceCarries(Fail(r, ev), r.order, ev.identity);
  }

  lemma {:induction false} OpenCarries(r: Run, ev: Event)
    requires Carried(r) && ev.identity in r.devices
    ensures Carried(Open(r, ev))
  {
  }

  lemma {:induction false} ToRowCarries(r: Run, ev: Event)
    requires Carried(r) && Pair(ev.identity, ev.typ) in r.rows
    ensures Carried(ToRow(r, ev))
  {
  }

  lemma {:induction false} CaptureCarries(r: Run, ev: Event)
    requires Carried(r) && ev.identity in r.devices
    ensures Carried(ToRow(Open(r, ev), ev))
  {
    OpenCarries(r, ev);
    ToRowCarries(Open(r, ev), ev);
  }

  lemma {:induction false} StampCarries(r: Run, identity: string, d: Known, naming: bool)
    requires Carried(r) && identity in r.devices
    requires if naming then d.platform == r.devices[identity].platform else d.name == r.devices[identity].name
    ensures Carried(Stamp(r, identity, d, naming))
  {
  }

  lemma {:induction false} ToRunCarries(r: Run, ev: Event)
    requires Rowed(r) && Carried(r) && ev.identity in r.devices
    ensures Carried(ToRun(r, ev))
  {
    var d := r.devices[ev.identity];
    if ev.kind == PlatformKnown {
      StampCarries(r, ev.identity, d.(platform := ev.platform), false);
    } else if ev.kind == Resolved || ev.kind == Named {
      StampCarries(r, ev.identity, d.(name := ev.name), true);
    } else if ev.kind == DeviceFail {
      FailCarries(r, ev);
      assert ToRun(r, ev) == SettleDevice(Fail(r, ev), r.order, ev.identity);
    } else if ev.kind != Queued && ev.typ != "" {
      CaptureCarries(r, ev);
      assert ToRun(r, ev) == ToRow(Open(r, ev), ev);
    }
  }

  lemma {:induction false} ToKnownCarries(r: Run, r0: Run, ev: Event)
    requires Rowed(r) && Carried(r) && r0 == r.(num := r.num + 1)
    ensures Carried(ToKnown(r0, ev))
  {
    ToRunCarries(Meet(r0, ev.identity), ev);
  }

  lemma {:induction false} SameCarries(r: Run, r': Run)
    requires Carried(r) && r'.rows == r.rows && r'.devices == r.devices
    ensures Carried(r')
  {
  }

  lemma {:induction false} ApplyCarries(r: Run, ev: Event)
    requires Rowed(r) && Carried(r)
    ensures Carried(Apply(r, ev))
  {
    var r0 := r.(num := r.num + 1);
    ToKnownCarries(r, r0, ev);
    ApplyShape(r, r0, ev);
    SameCarries(ToKnown(r0, ev), Apply(r, ev));
  }

  lemma {:induction false} SettleRestCarries(r: Run, pairs: seq<Pair>)
    requires Carried(r) && forall p | p in pairs :: p in r.rows
    ensures Carried(SettleRest(r, pairs))
    decreases |pairs|
  {
    if pairs != [] {
      SettleRestCarries(EndRow(r, pairs[0]), pairs[1..]);
    }
  }

  /** In every run each row shows its device's name and platform, whichever came first, the row or the news. */
  lemma {:induction false} RowsCarryTheirDevice(moves: seq<Move>)
    ensures Carried(Played(NEW_RUN, moves))
    decreases |moves|
  {
    if moves != [] {
      var r := Played(NEW_RUN, moves[..|moves| - 1]);
      RowsCarryTheirDevice(moves[..|moves| - 1]);
      match moves[|moves| - 1]
      case Emit(ev) => ApplyCarries(r, ev);
      case End => SettleRestCarries(r.(finished := true), r.order);
    }
  }
}
