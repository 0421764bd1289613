/**
 What a run shows (internal/capturerun/run.go), by the list of what happened in
 it: which rows there are, what each of them says and why, what is known of a
 device, and which decisions are listed. Nothing here mentions the state in
 between.
 */
module RunHistory {
  import opened RowWords
  import opened RunModel
  import opened RunTheorems
  import opened Wrappers

  // ----- what the moves of a run tell

  predicate OfDevice(move: Move, id: string) {
    move.Emit? && move.event.identity == id
  }

  predicate TellsPlatform(move: Move, id: string) {
    OfDevice(move, id) && move.event.kind == PlatformKnown
  }

  predicate TellsName(move: Move, id: string) {
    OfDevice(move, id) && (move.event.kind == Resolved || move.event.kind == Named) && move.event.name != ""
  }

  predicate TellsFailure(move: Move, id: string) {
    OfDevice(move, id) && move.event.kind == DeviceFail
  }

  /** The last platform told of a device. */
  function LastPlatform(moves: seq<Move>, id: string): string {
    if moves == [] then ""
    else if TellsPlatform(moves[|moves| - 1], id) then moves[|moves| - 1].event.platform
    else LastPlatform(moves[..|moves| - 1], id)
  }

  /** The last name told of a device that is not empty. */
  function LastName(moves: seq<Move>, id: string): string {
    if moves == [] then ""
    else if TellsName(moves[|moves| - 1], id) then moves[|moves| - 1].event.name
    else LastName(moves[..|moves| - 1], id)
  }

  /** The words a device first failed with. */
  function FirstFailure(moves: seq<Move>, id: string): Option<Detail> {
    if moves == [] then None
    else if FirstFailure(moves[..|moves| - 1], id).Some? then FirstFailure(moves[..|moves| - 1], id)
    else if TellsFailure(moves[|moves| - 1], id) then Some(Why(moves[|moves| - 1].event))
    else None
  }

  // ----- what is known of a device

  lemma {:induction false} SettleDeviceDevices(r: Run, pairs: seq<Pair>, identity: string)
    requires forall q | q in pairs :: q in r.rows
    ensures SettleDevice(r, pairs, identity).devices == r.devices
    decreases |pairs|
  {
    if pairs == [] {
    } else if pairs[0].identity != identity {
      SettleDeviceDevices(r, pairs[1..], identity);
    } else {
      SettleDeviceDevices(Settle(r, pairs[0], Failed, KnownOf(r, identity).why, NO_ARTIFACT), pairs[1..], identity);
    }
  }

  lemma {:induction false} SettleRestDevices(r: Run, pairs: seq<Pair>)
    requires forall p | p in pairs :: p in r.rows
    ensures SettleRest(r, pairs).devices == r.devices
    decreases |pairs|
  {
    if pairs != [] {
      SettleRestDevices(EndRow(r, pairs[0]), pairs[1..]);
    }
  }

  /** What an event tells of a device is what is known of it from then on; the reason of its first failure stays. */
  ghost predicate Learns(k: Known, k': Known, move: Move, id: string) {
    && k'.platform == (if TellsPlatform(move, id) then move.event.platform else k.platform)
    && k'.name == (if TellsName(move, id) then move.event.name else k.name)
    && (k'.failed <==> k.failed || TellsFailure(move, id))
    && k'.why == (if TellsFailure(move, id) && !k.failed then Why(move.event) else k.why)
  }

  lemma {:induction false} FailLearns(r: Run, ev: Event, id: string)
    requires Rowed(r) && ev.kind == DeviceFail && id != ""
    ensures Learns(KnownOf(r, id), KnownOf(SettleDevice(Fail(r, ev), r.order, ev.identity), id), Emit(ev), id)
  {
    SettleDeviceDevices(Fail(r, ev), r.order, ev.identity);
  }

  lemma {:induction false} StampLearns(r: Run, ev: Event, id: string)
    requires ev.kind == PlatformKnown || ev.kind == Resolved || ev.kind == Named
    requires forall p | p in r.order :: p in r.rows
    ensures Learns(KnownOf(r, id), KnownOf(ToRun(r, ev), id), Emit(ev), id)
  {
  }

  lemma {:induction false} OthersLearn(r: Run, ev: Event, id: string)
    requires forall p | p in r.order :: p in r.rows
    requires ev.kind == Queued || OfRow(ev)
    ensures Learns(KnownOf(r, id), KnownOf(ToRun(r, ev), id), Emit(ev), id)
  {
    assert ToRun(r, ev).devices == r.devices;
  }

  lemma {:induction false} ToRunLearns(r: Run, ev: Event, id: string)
    requires Rowed(r) && id != "" && ev.kind != HostKeyNew && ev.kind != AuthReject
    ensures Learns(KnownOf(r, id), KnownOf(ToRun(r, ev), id), Emit(ev), id)
  {
    if ev.kind == DeviceFail {
      FailLearns(r, ev, id);
      assert ToRun(r, ev) == SettleDevice(Fail(r, ev), r.order, ev.identity);
    } else if ev.kind == PlatformKnown || ev.kind == Resolved || ev.kind == Named {
      StampLearns(r, ev, id);
    } else {
      OthersLearn(r, ev, id);
    }
  }

  lemma {:induction false} ApplyLearns(r: Run, ev: Event, id: string)
    requires Rowed(r) && id != ""
    ensures Learns(KnownOf(r, id), KnownOf(Apply(r, ev), id), Emit(ev), id)
  {
    var r0 := r.(num := r.num + 1);
    ApplyShape(r, r0, ev);
    if ev.kind != HostKeyNew && ev.kind != AuthReject && ev.identity != "" {
      ToRunLearns(Meet(r0, ev.identity), ev, id);
    }
  }

  lemma {:induction false} NextLearns(r: Run, move: Move, id: string)
    requires Honest(r) && id != ""
    ensures Learns(KnownOf(r, id), KnownOf(Next(r, move), id), move, id)
  {
    match move
    case Emit(ev) => ApplyLearns(r, ev, id);
    case End => SettleRestDevices(r.(finished := true), r.order);
  }

  /** In every run what is known of a device is what was last told of it, and why it first failed. */
  lemma {:induction false} KnownIsTold(moves: seq<Move>, id: string)
    requires id != ""
    ensures var k := KnownOf(Played(NEW_RUN, moves), id);
            && k.platform == LastPlatform(moves, id) && k.name == LastName(moves, id)
            && (k.failed <==> FirstFailure(moves, id).Some?)
            && k.why == if FirstFailure(moves, id).Some? then FirstFailure(moves, id).value else SILENT
  {
    if moves != [] {
      var n := |moves| - 1;
      KnownIsTold(moves[..n], id);
      NextLearns(Played(NEW_RUN, moves[..n]), moves[n], id);
    }
  }

  // ----- which rows there are

  /** The kinds of events that are about a capture, or open its row all the same. */
  predicate OpensRows(kind: Kind) {
    || kind == CaptureStart || kind == CaptureStored || kind == CaptureUnchanged || kind == NotApplic
    || kind == CaptureFail || kind == Connected || kind == DeviceDone || kind == AuthOk || kind == CredParked
  }

  /** Whether a move is about a row of its own: it opens it if need be. */
  predicate Opens(move: Move, p: Pair) {
    OfDevice(move, p.identity) && OpensRows(move.event.kind) && move.event.typ == p.typ
  }

  predicate Addresses(p: Pair) {
    p.identity != "" && p.typ != ""
  }

  ghost predicate Opened(moves: seq<Move>, p: Pair) {
    Addresses(p) && exists i | 0 <= i < |moves| :: Opens(moves[i], p)
  }

  lemma {:induction false} OpenedOneMore(moves: seq<Move>, p: Pair)
    requires moves != []
    ensures var n := |moves| - 1;
            Opened(moves, p) <==> Opened(moves[..n], p) || (Addresses(p) && Opens(moves[n], p))
  {
    var n := |moves| - 1;
    assert forall i | 0 <= i < n :: moves[..n][i] == moves[i];
  }

  lemma {:induction false} WordOpens(w: Word, ev: Event, typ: string)
    ensures NextWord(w, ev, typ).NoRow? <==> w.NoRow? && !(OpensRows(ev.kind) && ev.typ == typ)
  {
  }

  lemma {:induction false} ApplyOpensExactly(r: Run, r': Run, ev: Event, p: Pair)
    requires Rowed(r) && Addresses(p) && r' == Apply(r, ev)
    ensures p in r'.rows <==> p in r.rows || Opens(Emit(ev), p)
  {
    ApplyWord(r, ev, p);
    WordOpens(WordIn(r, p), ev, p.typ);
    assert WordIn(r', p).NoRow? <==> p !in r'.rows;
  }

  lemma {:induction false} NextOpens(r: Run, move: Move, p: Pair)
    requires Honest(r)
    ensures p in Next(r, move).rows <==> p in r.rows || (Addresses(p) && Opens(move, p))
  {
    match move
    case Emit(ev) =>
      if Addresses(p) {
        ApplyOpensExactly(r, Apply(r, ev), ev, p);
      } else {
        ApplyOpens(r, ev);
        ApplyMoves(r, ev);
      }
    case End =>
  }

  /** In every run there is a row for each device and type that some event was about, and no other. */
  lemma {:induction false} RowsAreOpened(moves: seq<Move>, p: Pair)
    ensures p in Played(NEW_RUN, moves).rows <==> Opened(moves, p)
  {
    if moves != [] {
      var n := |moves| - 1;
      RowsAreOpened(moves[..n], p);
      OpenedOneMore(moves, p);
      NextOpens(Played(NEW_RUN, moves[..n]), moves[n], p);
    }
  }

  /**
   In every run each row shows the last platform and the last name told of its
   device, whichever came first, the row or the news.
  */
  lemma {:induction false} RowsShowTheNews(moves: seq<Move>, p: Pair)
    requires p in Played(NEW_RUN, moves).rows
    ensures Played(NEW_RUN, moves).rows[p].platform == LastPlatform(moves, p.identity)
    ensures Played(NEW_RUN, moves).rows[p].name == LastName(moves, p.identity)
  {
    RowsAreOpened(moves, p);
    RowsCarryTheirDevice(moves);
    KnownIsTold(moves, p.identity);
  }

  // ----- what a row says

  // How a row ended, and why.
  datatype Verdict = Verdict(state: RowState, detail: Detail, artifact: Artifact)

  /** The verdict an event about a capture gives. */
  function VerdictIn(ev: Event): Option<Verdict> {
    if ev.kind == CaptureStored then Some(Verdict(Stored, Said(ev.detail), ev.artifact))
    else if ev.kind == CaptureUnchanged then Some(Verdict(Unchanged, Said(ev.detail), ev.artifact))
    else if ev.kind == NotApplic then Some(Verdict(NotApplicable, WhyNot(ev), NO_ARTIFACT))
    else if ev.kind == CaptureFail then Some(Verdict(Failed, Why(ev), NO_ARTIFACT))
    else None
  }

  /** The verdict the last move of a run gives a row that has none yet. */
  ghost function VerdictAt(moves: seq<Move>, p: Pair): Option<Verdict>
    requires moves != []
  {
    var before, move := moves[..|moves| - 1], moves[|moves| - 1];
    if Opens(move, p) then VerdictIn(move.event)
    else if Opened(before, p) && TellsFailure(move, p.identity) then
      Some(Verdict(Failed, FirstFailure(moves, p.identity).value, NO_ARTIFACT))
    else if Opened(before, p) && move == End then Some(Verdict(Failed, MissingEmit, NO_ARTIFACT))
    else None
  }

  /** The first verdict a row is given. */
  ghost function FirstVerdict(moves: seq<Move>, p: Pair): Option<Verdict> {
    if moves == [] then None
    else if FirstVerdict(moves[..|moves| - 1], p).Some? then FirstVerdict(moves[..|moves| - 1], p)
    else VerdictAt(moves, p)
  }

  /** The last command sent for a row. */
  function LastCommand(moves: seq<Move>, p: Pair): string {
    if moves == [] then ""
    else if Opens(moves[|moves| - 1], p) && moves[|moves| - 1].event.kind == CaptureStart then
      moves[|moves| - 1].event.command
    else LastCommand(moves[..|moves| - 1], p)
  }

  /** A row has the verdict, or none yet and nothing to say. */
  ghost predicate Has(row: Row, verdict: Option<Verdict>) {
    if verdict.Some? then Verdict(row.state, row.detail, row.artifact) == verdict.value
    else row.state == InFlight && row.detail == SILENT && row.artifact == NO_ARTIFACT
  }

  /** A row that is there and in flight has nothing to say. */
  ghost predicate Blank(r: Run, p: Pair) {
    p in r.rows ==> Has(r.rows[p], None)
  }

  lemma {:induction false} OpenIsBlank(r: Run, r1: Run, ev: Event, p: Pair)
    requires Blank(r, p) && r1 == Open(r, ev)
    ensures Blank(r1, p) && Pair(ev.identity, ev.typ) in r1.rows
  {
  }

  lemma {:induction false} ToRowVerdict(r: Run, ev: Event, p: Pair)
    requires Pair(ev.identity, ev.typ) in r.rows && p in r.rows && Has(r.rows[p], None)
    requires OpensRows(ev.kind)
    ensures Has(ToRow(r, ev).rows[p], if Opens(Emit(ev), p) then VerdictIn(ev) else None)
  {
  }

  lemma {:induction false} CaptureVerdict(r: Run, ev: Event, p: Pair)
    requires Blank(r, p) && OpensRows(ev.kind) && p in ToRow(Open(r, ev), ev).rows
    ensures Has(ToRow(Open(r, ev), ev).rows[p], if Opens(Emit(ev), p) then VerdictIn(ev) else None)
  {
    OpenIsBlank(r, Open(r, ev), ev, p);
    ToRowVerdict(Open(r, ev), ev, p);
  }

  lemma {:induction false} SettleDeviceVerdict(r: Run, pairs: seq<Pair>, identity: string, p: Pair)
    requires (forall q | q in pairs :: q in r.rows) && p in pairs && Has(r.rows[p], None)
    requires p.identity == identity && KnownOf(r, identity).why != SILENT
    ensures Has(SettleDevice(r, pairs, identity).rows[p], Some(Verdict(Failed, KnownOf(r, identity).why, NO_ARTIFACT)))
    decreases |pairs|
  {
    DeviceSettles(r, pairs, identity, p);
    DeviceFailWord(r, pairs, identity, p);
  }

  /** The verdict an event gives a row without one; why is what is known of the device's failure after it. */
  ghost function VerdictBy(r: Run, ev: Event, p: Pair, why: Detail): Option<Verdict> {
    if Opens(Emit(ev), p) then VerdictIn(ev)
    else if p in r.rows && TellsFailure(Emit(ev), p.identity) then Some(Verdict(Failed, why, NO_ARTIFACT))
    else None
  }

  lemma {:induction false} FailIsNotSilent(r: Run, r1: Run, ev: Event)
    requires r1 == Fail(r, ev) && (KnownOf(r, ev.identity).failed ==> KnownOf(r, ev.identity).why != SILENT)
    ensures KnownOf(r1, ev.identity).why != SILENT
  {
  }

  lemma {:induction false} StampVerdict(r: Run, identity: string, d: Known, naming: bool, p: Pair)
    requires p in r.rows && Has(r.rows[p], None)
    ensures Has(Stamp(r, identity, d, naming).rows[p], None)
  {
  }

  lemma {:induction false} ToRunVerdict(r: Run, ev: Event, p: Pair)
    requires Rowed(r) && Blank(r, p) && ev.kind != HostKeyNew && ev.kind != AuthReject && ev.kind != DeviceFail
    requires p in ToRun(r, ev).rows && Addresses(p)
    ensures Has(ToRun(r, ev).rows[p], if Opens(Emit(ev), p) then VerdictIn(ev) else None)
  {
    var d := KnownOf(r, ev.identity);
    if ev.kind == Queued {
    } else if ev.kind == PlatformKnown {
      StampVerdict(r, ev.identity, d.(platform := ev.platform), false, p);
    } else if ev.kind == Resolved || ev.kind == Named {
      if ev.name != "" {
        StampVerdict(r, ev.identity, d.(name := ev.name), true, p);
      }
    } else if ev.typ != "" {
      CaptureVerdict(r, ev, p);
    }
  }

  lemma {:induction false} FailGivesRow(r1: Run, r2: Run, id: string, p: Pair)
    requires Rowed(r1) && p in r1.rows && Has(r1.rows[p], None) && r2 == SettleDevice(r1, r1.order, id)
    requires p.identity == id ==> KnownOf(r1, id).why != SILENT
    ensures p in r2.rows && KnownOf(r2, p.identity) == KnownOf(r1, p.identity)
    ensures Has(r2.rows[p],
                if p.identity == id then Some(Verdict(Failed, KnownOf(r1, id).why, NO_ARTIFACT)) else None)
  {
    SettleDeviceDevices(r1, r1.order, id);
    if p.identity == id {
      SettleDeviceVerdict(r1, r1.order, id, p);
    } else {
      DeviceSettles(r1, r1.order, id, p);
    }
  }

  lemma {:induction false} ToRunFails(r: Run, r1: Run, ev: Event)
    requires Rowed(r) && ev.kind == DeviceFail && r1 == Fail(r, ev)
    ensures Rowed(r1) && r1.rows == r.rows && ToRun(r, ev) == SettleDevice(r1, r1.order, ev.identity)
  {
  }

  lemma {:induction false} VerdictOfFail(r: Run, ev: Event, p: Pair, why: Detail)
    requires ev.kind == DeviceFail && p in r.rows
    ensures VerdictBy(r, ev, p, why)
            == if p.identity == ev.identity then Some(Verdict(Failed, why, NO_ARTIFACT)) else None
  {
  }

  lemma {:induction false} SameRowsKeep(r: Run, r1: Run, p: Pair)
    requires Blank(r, p) && r1.rows == r.rows && p in r1.rows
    ensures p in r.rows && Has(r1.rows[p], None)
  {
  }

  /** A device that fails gives its rows the reason known of it from then on. */
  lemma {:induction false} FailGives(r: Run, r1: Run, r2: Run, ev: Event, p: Pair, verdict: Option<Verdict>)
    requires Rowed(r1) && p in r.rows && p in r1.rows && Has(r1.rows[p], None) && ev.kind == DeviceFail
    requires r2 == SettleDevice(r1, r1.order, ev.identity)
    requires p.identity == ev.identity ==> KnownOf(r1, ev.identity).why != SILENT
    requires verdict == VerdictBy(r, ev, p, KnownOf(r2, p.identity).why)
    ensures p in r2.rows && Has(r2.rows[p], verdict)
  {
    FailGivesRow(r1, r2, ev.identity, p);
    VerdictOfFail(r, ev, p, KnownOf(r2, p.identity).why);
  }

  lemma {:induction false} ToKnownVerdict(r: Run, met: Run, ev: Event, p: Pair)
    requires Rowed(met) && Blank(r, p) && Addresses(p) && met.rows == r.rows && p in ToRun(met, ev).rows
    requires KnownOf(met, p.identity).failed ==> KnownOf(met, p.identity).why != SILENT
    requires ev.kind != HostKeyNew && ev.kind != AuthReject
    ensures Has(ToRun(met, ev).rows[p], VerdictBy(r, ev, p, KnownOf(ToRun(met, ev), p.identity).why))
  {
    if ev.kind == DeviceFail {
      var r1 := Fail(met, ev);
      ToRunFails(met, r1, ev);
      if p.identity == ev.identity {
        FailIsNotSilent(met, r1, ev);
      }
      SameRowsKeep(r, r1, p);
      FailGives(r, r1, ToRun(met, ev), ev, p, VerdictBy(r, ev, p, KnownOf(ToRun(met, ev), p.identity).why));
    } else {
      ToRunVerdict(met, ev, p);
    }
  }

  /** An event about the run, or about no device, gives no verdict. */
  lemma {:induction false} ElsewhereVerdict(r: Run, r': Run, ev: Event, p: Pair, why: Detail)
    requires Blank(r, p) && Addresses(p) && p in r'.rows && r'.rows == r.rows
    requires ev.kind == HostKeyNew || ev.kind == AuthReject || ev.identity == ""
    ensures Has(r'.rows[p], VerdictBy(r, ev, p, why))
  {
  }

  /** What an event gives a row that has no verdict yet. */
  lemma {:induction false} ApplyVerdict(r: Run, ev: Event, p: Pair)
    requires Rowed(r) && Blank(r, p) && Addresses(p) && p in Apply(r, ev).rows
    requires KnownOf(r, p.identity).failed ==> KnownOf(r, p.identity).why != SILENT
    ensures Has(Apply(r, ev).rows[p], VerdictBy(r, ev, p, KnownOf(Apply(r, ev), p.identity).why))
  {
    var r0 := r.(num := r.num + 1);
    ApplyShape(r, r0, ev);
    if ev.kind == HostKeyNew || ev.kind == AuthReject || ev.identity == "" {
      ElsewhereVerdict(r, Apply(r, ev), ev, p, KnownOf(Apply(r, ev), p.identity).why);
    } else {
      ToKnownVerdict(r, Meet(r0, ev.identity), ev, p);
    }
  }

  /** A row says what its first verdict was; without a row there is none. */
  ghost predicate Stands(r: Run, moves: seq<Move>, p: Pair) {
    if p in r.rows then Has(r.rows[p], FirstVerdict(moves, p)) else FirstVerdict(moves, p) == None
  }

  lemma {:induction false} VerdictsSettle(moves: seq<Move>, p: Pair)
    ensures FirstVerdict(moves, p).Some? ==> FirstVerdict(moves, p).value.state != InFlight
  {
    if moves != [] {
      VerdictsSettle(moves[..|moves| - 1], p);
    }
  }

  lemma {:induction false} FirstFailureSays(moves: seq<Move>, id: string)
    ensures FirstFailure(moves, id).Some? ==> FirstFailure(moves, id).value != SILENT
  {
    if moves != [] {
      FirstFailureSays(moves[..|moves| - 1], id);
    }
  }

  lemma {:induction false} OpensNone(p: Pair, moves: seq<Move>)
    requires moves != [] && Addresses(p) && !Opened(moves, p)
    ensures VerdictAt(moves, p) == None
  {
    OpenedOneMore(moves, p);
  }

  lemma {:induction false} FailedForSome(moves: seq<Move>, id: string)
    ensures var k := KnownOf(Played(NEW_RUN, moves), id);
            id != "" && k.failed ==> k.why != SILENT
  {
    if id != "" {
      KnownIsTold(moves, id);
      FirstFailureSays(moves, id);
    }
  }

  /** The verdict an event gives, told by the moves. */
  lemma {:induction false} VerdictToldBy(moves: seq<Move>, ev: Event, r: Run, p: Pair, why: Detail)
    requires moves != [] && moves[|moves| - 1] == Emit(ev) && r == Played(NEW_RUN, moves[..|moves| - 1])
    requires Addresses(p) && why == KnownOf(Played(NEW_RUN, moves), p.identity).why
    ensures VerdictBy(r, ev, p, why) == VerdictAt(moves, p)
  {
    RowsAreOpened(moves[..|moves| - 1], p);
    KnownIsTold(moves, p.identity);
  }

  lemma {:induction false} EmitStands(moves: seq<Move>, ev: Event, r: Run, p: Pair)
    requires moves != [] && moves[|moves| - 1] == Emit(ev) && r == Played(NEW_RUN, moves[..|moves| - 1])
    requires Addresses(p) && Blank(r, p) && p in Apply(r, ev).rows
    ensures Has(Apply(r, ev).rows[p], VerdictAt(moves, p))
  {
    FailedForSome(moves[..|moves| - 1], p.identity);
    ApplyVerdict(r, ev, p);
    VerdictToldBy(moves, ev, r, p, KnownOf(Apply(r, ev), p.identity).why);
  }

  lemma {:induction false} EndGives(r: Run, r': Run, p: Pair)
    requires Rowed(r) && p in r.rows && Has(r.rows[p], None) && r' == Finish(r)
    ensures p in r'.rows && Has(r'.rows[p], Some(Verdict(Failed, MissingEmit, NO_ARTIFACT)))
  {
    FinishSettles(r, p);
  }

  lemma {:induction false} VerdictOfEnd(moves: seq<Move>, r: Run, p: Pair)
    requires moves != [] && moves[|moves| - 1] == End && r == Played(NEW_RUN, moves[..|moves| - 1])
    requires p in r.rows
    ensures VerdictAt(moves, p) == Some(Verdict(Failed, MissingEmit, NO_ARTIFACT))
  {
    RowsAreOpened(moves[..|moves| - 1], p);
  }

  lemma {:induction false} EndStands(moves: seq<Move>, r: Run, r': Run, p: Pair)
    requires moves != [] && moves[|moves| - 1] == End && r == Played(NEW_RUN, moves[..|moves| - 1])
    requires p in r.rows && Has(r.rows[p], None) && r' == Finish(r)
    ensures p in r'.rows && Has(r'.rows[p], VerdictAt(moves, p))
  {
    EndGives(r, r', p);
    VerdictOfEnd(moves, r, p);
  }

  lemma {:induction false} SettledStands(r: Run, moves: seq<Move>, move: Move, p: Pair)
    requires Honest(r) && p in r.rows && FirstVerdict(moves, p).Some? && Has(r.rows[p], FirstVerdict(moves, p))
    ensures p in Next(r, move).rows && Has(Next(r, move).rows[p], FirstVerdict(moves, p))
  {
    VerdictsSettle(moves, p);
    NextMoves(r, move);
  }

  lemma {:induction false} NextStands(moves: seq<Move>, r: Run, p: Pair)
    requires moves != [] && r == Played(NEW_RUN, moves[..|moves| - 1])
    requires Addresses(p) && Stands(r, moves[..|moves| - 1], p)
    ensures Stands(Next(r, moves[|moves| - 1]), moves, p)
  {
    var n := |moves| - 1;
    RowsAreOpened(moves, p);
    if FirstVerdict(moves[..n], p).Some? {
      SettledStands(r, moves[..n], moves[n], p);
    } else if p !in Next(r, moves[n]).rows {
      OpensNone(p, moves);
    } else if moves[n].Emit? {
      EmitStands(moves, moves[n].event, r, p);
    } else {
      NextOpens(r, moves[n], p);
      EndStands(moves, r, Finish(r), p);
    }
  }

  /**
   In every run each row says what the first verdict on it was: the capture's own
   event, the first failure of its device, or the end of the run, whichever came
   first once there was a row; before that it is in flight and says nothing.
  */
  lemma {:induction false} RowsSayTheirVerdict(moves: seq<Move>, p: Pair)
    requires Addresses(p)
    ensures Stands(Played(NEW_RUN, moves), moves, p)
  {
    if moves != [] {
      RowsSayTheirVerdict(moves[..|moves| - 1], p);
      NextStands(moves, Played(NEW_RUN, moves[..|moves| - 1]), p);
    }
  }

  // ----- the command

  function CommandSaid(w: Word): string {
    if w.Says? then w.command else ""
  }

  function CommandIn(r: Run, p: Pair): string {
    CommandSaid(WordIn(r, p))
  }

  lemma {:induction false} WordSends(w: Word, ev: Event, typ: string)
    ensures CommandSaid(NextWord(w, ev, typ))
            == if ev.kind == CaptureStart && ev.typ == typ then ev.command else CommandSaid(w)
  {
  }

  lemma {:induction false} NextCommand(r: Run, move: Move, p: Pair)
    requires Honest(r) && Addresses(p)
    ensures CommandIn(Next(r, move), p)
            == if Opens(move, p) && move.event.kind == CaptureStart then move.event.command else CommandIn(r, p)
  {
    if move.Emit? {
      ApplyWord(r, move.event, p);
      WordSends(WordIn(r, p), move.event, p.typ);
    } else if p in r.rows {
      FinishSettles(r, p);
    }
  }

  /** In every run each row shows the last command sent for it. */
  lemma {:induction false} RowsShowTheirCommand(moves: seq<Move>, p: Pair)
    requires Addresses(p)
    ensures CommandIn(Played(NEW_RUN, moves), p) == LastCommand(moves, p)
    ensures p in Played(NEW_RUN, moves).rows ==> Played(NEW_RUN, moves).rows[p].command == LastCommand(moves, p)
  {
    if moves != [] {
      var n := |moves| - 1;
      RowsShowTheirCommand(moves[..n], p);
      NextCommand(Played(NEW_RUN, moves[..n]), moves[n], p);
    }
  }

  // ----- the decisions

  /**
   Whether an event belongs among the decisions, given what happened before it: the
   kinds worth reading, but a capture that fails only if its device has not failed
   before, and a platform only with a note.
  */
  predicate WorthReading(before: seq<Move>, ev: Event) {
    || ev.kind == DeviceFail || ev.kind == NotApplic || ev.kind == Named
    || ev.kind == AuthReject || ev.kind == CredParked || ev.kind == HostKeyNew
    || (ev.kind == PlatformKnown && ev.detail != "")
    || (ev.kind == CaptureFail && (ev.identity == "" || FirstFailure(before, ev.identity) == None))
  }

  /** The events worth reading, in the order they came. */
  function EventsWorthReading(moves: seq<Move>): seq<Event> {
    if moves == [] then []
    else
      var before, move := moves[..|moves| - 1], moves[|moves| - 1];
      EventsWorthReading(before) + if move.Emit? && WorthReading(before, move.event) then [move.event] else []
  }

  function EventsIn(decisions: seq<Decision>): seq<Event> {
    if decisions == [] then []
    else EventsIn(decisions[..|decisions| - 1]) + [decisions[|decisions| - 1].event]
  }

  lemma {:induction false} SaidIfFailed(r: Run, ev: Event)
    ensures AlreadySaid(r, ev) <==> ev.kind == CaptureFail && ev.identity != "" && KnownOf(r, ev.identity).failed
  {
  }

  lemma {:induction false} FailedIfTold(before: seq<Move>, r: Run, id: string)
    requires r == Played(NEW_RUN, before) && id != ""
    ensures KnownOf(r, id).failed <==> FirstFailure(before, id).Some?
  {
    KnownIsTold(before, id);
  }

  lemma {:induction false} WorthUnlessSaid(before: seq<Move>, ev: Event, said: bool)
    requires said <==> ev.kind == CaptureFail && ev.identity != "" && FirstFailure(before, ev.identity).Some?
    ensures Notable(ev) && !said <==> WorthReading(before, ev)
  {
  }

  /** A decision is only repeated by a capture that fails for its device's failure. */
  lemma {:induction false} SaidBefore(before: seq<Move>, r: Run, ev: Event)
    requires r == Played(NEW_RUN, before)
    ensures Notable(ev) && !AlreadySaid(r, ev) <==> WorthReading(before, ev)
  {
    SaidIfFailed(r, ev);
    if ev.identity != "" {
      FailedIfTold(before, r, ev.identity);
    }
    WorthUnlessSaid(before, ev, AlreadySaid(r, ev));
  }

  lemma {:induction false} NextDecisions(before: seq<Move>, r: Run, move: Move)
    requires r == Played(NEW_RUN, before)
    ensures EventsIn(Next(r, move).notable)
            == EventsIn(r.notable) + if move.Emit? && WorthReading(before, move.event) then [move.event] else []
  {
    if move.Emit? {
      SaidBefore(before, r, move.event);
      ApplyShape(r, r.(num := r.num + 1), move.event);
      NotedEvents(r.(num := r.num + 1), move.event);
    } else {
      FinishMoves(r);
    }
  }

  lemma {:induction false} NotedEvents(r: Run, ev: Event)
    ensures EventsIn(Noted(r, ev)) == EventsIn(r.notable) + if Notable(ev) && !AlreadySaid(r, ev) then [ev] else []
  {
    if Notable(ev) && !AlreadySaid(r, ev) {
      assert Noted(r, ev)[..|r.notable|] == r.notable;
    }
  }

  /** In every run the decisions are the events worth reading, all of them, in the order they came. */
  lemma {:induction false} DecisionsAreWorthReading(moves: seq<Move>)
    ensures EventsIn(Played(NEW_RUN, moves).notable) == EventsWorthReading(moves)
  {
    if moves != [] {
      var n := |moves| - 1;
      DecisionsAreWorthReading(moves[..n]);
      NextDecisions(moves[..n], Played(NEW_RUN, moves[..n]), moves[n]);
    }
  }
}
