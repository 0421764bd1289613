/**
 The run model (internal/capturerun/run.go): events in, one row a (device,
 capture type) pair out, every change numbered so that a view can ask for what
 moved since it last asked.
 */
module RunModel {

  datatype RowState = InFlight | Stored | Unchanged | NotApplicable | Failed

  datatype Pair = Pair(identity: string, typ: string)

  datatype Kind =
    | Queued | Connected | PlatformKnown | DeviceDone | DeviceFail
    | CaptureStart | CaptureStored | CaptureUnchanged | NotApplic | CaptureFail
    | Resolved | Named | AuthOk | AuthReject | CredParked | HostKeyNew

  // What was stored, on a stored or unchanged event.
  datatype Artifact = Artifact(bytes: nat, sha: string, path: string)

  // detail stands for the event's error text when it has an error.
  datatype Event = Event(kind: Kind, identity: string, typ: string, name: string, platform: string,
                         command: string, artifact: Artifact, detail: string)

  // A row's detail: words that came with an event, or one of the run model's own sentences.
  datatype Detail = Said(text: string) | NoReasonGiven | NoCommandFor(platform: string) | NoCommand | MissingEmit

  datatype Row = Row(pair: Pair, name: string, platform: string, state: RowState, command: string,
                     artifact: Artifact, detail: Detail, num: nat)

  // What is known of a device; why is its first failure.
  datatype Known = Known(name: string, platform: string, failed: bool, why: Detail)

  // A decision worth reading, with the number of the change it came with.
  datatype Decision = Decision(num: nat, event: Event)

  datatype Counts = Counts(inFlight: int, stored: int, notChanged: int, notApplicable: int, failed: int, bytes: int)

  datatype Run = Run(rows: map<Pair, Row>, order: seq<Pair>, devices: map<string, Known>,
                     counts: Counts, notable: seq<Decision>, finished: bool, num: nat)

  const NO_ARTIFACT := Artifact(0, "", "")
  const SILENT := Said("")
  const NEW_RUN := Run(map[], [], map[], Counts(0, 0, 0, 0, 0, 0), [], false, 0)

  predicate Notable(ev: Event) {
    match ev.kind
    case DeviceFail | CaptureFail | NotApplic | Named | AuthReject | CredParked | HostKeyNew => true
    case PlatformKnown => ev.detail != ""
    case _ => false
  }

  /** Whether an event would only repeat that its device failed. */
  predicate AlreadySaid(r: Run, ev: Event) {
    ev.kind == CaptureFail && ev.identity != "" && ev.identity in r.devices && r.devices[ev.identity].failed
  }

  function KnownOf(r: Run, identity: string): Known {
    if identity in r.devices then r.devices[identity] else Known("", "", false, SILENT)
  }

  function Reason(ev: Event): Detail {
    if ev.detail != "" then Said(ev.detail) else NoReasonGiven
  }

  function ApplicDetail(ev: Event): Detail {
    if ev.detail != "" then Said(ev.detail)
    else if ev.platform != "" then NoCommandFor(ev.platform)
    else NoCommand
  }

  /** The state an event settles its row in; InFlight when it settles none. */
  function SettlesAs(ev: Event): RowState {
    match ev.kind
    case CaptureStored => Stored
    case CaptureUnchanged => Unchanged
    case NotApplic => NotApplicable
    case CaptureFail => Failed
    case _ => InFlight
  }

  function SettlesWith(ev: Event): Detail {
    match ev.kind
    case NotApplic => ApplicDetail(ev)
    case CaptureFail => Reason(ev)
    case _ => Said(ev.detail)
  }

  // ----- one row

  function Moved(c: Counts, state: RowState, bytes: nat): Counts {
    var c := c.(inFlight := c.inFlight - 1);
    match state
    case InFlight => c
    case Stored => c.(stored := c.stored + 1, bytes := c.bytes + bytes)
    case Unchanged => c.(notChanged := c.notChanged + 1)
    case NotApplicable => c.(notApplicable := c.notApplicable + 1)
    case Failed => c.(failed := c.failed + 1)
  }

  function SettledRow(row: Row, state: RowState, detail: Detail, artifact: Artifact, num: nat): Row {
    row.(state := state, num := num,
         detail := if detail == SILENT then row.detail else detail,
         artifact := if state == Stored || state == Unchanged then artifact else row.artifact)
  }

  /** Moves a row out of flight, once. */
  function Settle(r: Run, p: Pair, state: RowState, detail: Detail, artifact: Artifact): Run
    requires p in r.rows
  {
    if r.rows[p].state != InFlight then r
    else r.(rows := r.rows[p := SettledRow(r.rows[p], state, detail, artifact, r.num)],
            counts := Moved(r.counts, state, artifact.bytes))
  }

  /** A row for the event's pair, opened when there is none. */
  function Open(r: Run, ev: Event): Run {
    var p := Pair(ev.identity, ev.typ);
    if p in r.rows then r
    else
      var d := KnownOf(r, ev.identity);
      r.(rows := r.rows[p := Row(p, d.name, d.platform, InFlight, "", NO_ARTIFACT, SILENT, r.num)],
         order := r.order + [p],
         counts := r.counts.(inFlight := r.counts.inFlight + 1))
  }

  function ToRow(r: Run, ev: Event): Run
    requires Pair(ev.identity, ev.typ) in r.rows
  {
    var p := Pair(ev.identity, ev.typ);
    if ev.kind == CaptureStart then r.(rows := r.rows[p := r.rows[p].(command := ev.command, num := r.num)])
    else if SettlesAs(ev) == InFlight then r
    else Settle(r, p, SettlesAs(ev), SettlesWith(ev), ev.artifact)
  }

  // ----- every row of a device

  /** Settles as failed every row of the device that is in flight. */
  function SettleDevice(r: Run, pairs: seq<Pair>, identity: string): (r': Run)
    requires forall p | p in pairs :: p in r.rows
    ensures r'.rows.Keys == r.rows.Keys && r'.finished == r.finished
    decreases |pairs|
  {
    if pairs == [] then r
    else if pairs[0].identity != identity then SettleDevice(r, pairs[1..], identity)
    else SettleDevice(Settle(r, pairs[0], Failed, KnownOf(r, identity).why, NO_ARTIFACT), pairs[1..], identity)
  }

  function Renamed(row: Row, d: Known, naming: bool, num: nat): Row {
    if naming then row.(name := d.name, num := num) else row.(platform := d.platform, num := num)
  }

  /** Copies what is now known of a device to its rows. */
  function Stamp(r: Run, identity: string, d: Known, naming: bool): Run {
    r.(devices := r.devices[identity := d],
       rows := map p | p in r.rows ::
         if p.identity == identity then Renamed(r.rows[p], d, naming, r.num) else r.rows[p])
  }

  function Fail(r: Run, ev: Event): Run {
    var d := KnownOf(r, ev.identity);
    r.(devices := r.devices[ev.identity := if d.failed then d else d.(failed := true, why := Reason(ev))])
  }

  // ----- an event

  /** The decisions with this event among them, judged by what was known before it. */
  function Noted(r: Run, ev: Event): seq<Decision> {
    if Notable(ev) && !AlreadySaid(r, ev) then r.notable + [Decision(r.num, ev)] else r.notable
  }

  function Meet(r: Run, identity: string): Run {
    r.(devices := r.devices[identity := KnownOf(r, identity)])
  }

  /** What a numbered event does to a run that knows its device. */
  function ToRun(r: Run, ev: Event): Run
    requires forall p | p in r.order :: p in r.rows
  {
    var d := KnownOf(r, ev.identity);
    if ev.kind == Queued then r
    else if ev.kind == PlatformKnown then Stamp(r, ev.identity, d.(platform := ev.platform), false)
    else if ev.kind == Resolved || ev.kind == Named then
      if ev.name == "" then r else Stamp(r, ev.identity, d.(name := ev.name), true)
    else if ev.kind == DeviceFail then SettleDevice(Fail(r, ev), r.order, ev.identity)
    else if ev.typ == "" then r
    else ToRow(Open(r, ev), ev)
  }

  /** An event about the run itself, or about no device, stops at the decisions. */
  function ToKnown(r: Run, ev: Event): Run
    requires forall p | p in r.order :: p in r.rows
  {
    if ev.kind == HostKeyNew || ev.kind == AuthReject || ev.identity == "" then r
    else ToRun(Meet(r, ev.identity), ev)
  }

  function Apply(r: Run, ev: Event): Run
    requires forall p | p in r.order :: p in r.rows
  {
    var r' := r.(num := r.num + 1);
    ToKnown(r', ev).(notable := Noted(r', ev))
  }

  /** Settles one row at the end of the run, under a number of its own when it was in flight. */
  function EndRow(r: Run, p: Pair): Run
    requires p in r.rows
  {
    if r.rows[p].state != InFlight then r
    else Settle(r.(num := r.num + 1), p, Failed, MissingEmit, NO_ARTIFACT)
  }

  function SettleRest(r: Run, pairs: seq<Pair>): (r': Run)
    requires forall p | p in pairs :: p in r.rows
    ensures r'.rows.Keys == r.rows.Keys
    decreases |pairs|
  {
    if pairs == [] then r else SettleRest(EndRow(r, pairs[0]), pairs[1..])
  }

  function Finish(r: Run): Run
    requires forall p | p in r.order :: p in r.rows
  {
    SettleRest(r.(finished := true), r.order)
  }

  // ----- what a view asks for

  function ChangedIn(r: Run, pairs: seq<Pair>, since: nat): seq<Row>
    requires forall p | p in pairs :: p in r.rows
    decreases |pairs|
  {
    if pairs == [] then []
    else (if r.rows[pairs[0]].num > since then [r.rows[pairs[0]]] else []) + ChangedIn(r, pairs[1..], since)
  }

  /** The rows changed after since, in order of appearance; r.num is what to pass next. */
  function RowsSince(r: Run, since: nat): seq<Row>
    requires forall p | p in r.order :: p in r.rows
  {
    ChangedIn(r, r.order, since)
  }

  function DecisionsAfter(decisions: seq<Decision>, since: nat): seq<Decision> {
    if decisions == [] then []
    else (if decisions[0].num > since then [decisions[0]] else []) + DecisionsAfter(decisions[1..], since)
  }

  function DecisionsSince(r: Run, since: nat): seq<Decision> {
    DecisionsAfter(r.notable, since)
  }

  // ----- the invariant

  /** One place in the order a row, and no row numbered ahead of the run. */
  ghost predicate Rowed(r: Run) {
    && (forall p | p in r.order :: p in r.rows)
    && (forall p | p in r.rows :: p in r.order && r.rows[p].pair == p && r.rows[p].num <= r.num)
    && (forall i, j | 0 <= i < j < |r.order| :: r.order[i] != r.order[j])
  }

  /** Decisions stand in the order of their numbers, none ahead of the run. */
  ghost predicate Listed(decisions: seq<Decision>, num: nat) {
    && (forall i | 0 <= i < |decisions| :: decisions[i].num <= num)
    && (forall i, j | 0 <= i < j < |decisions| :: decisions[i].num < decisions[j].num)
  }

  datatype Counter = RowsIn(state: RowState) | BytesStored

  function Count(c: Counts, k: Counter): int {
    match k
    case RowsIn(InFlight) => c.inFlight
    case RowsIn(Stored) => c.stored
    case RowsIn(Unchanged) => c.notChanged
    case RowsIn(NotApplicable) => c.notApplicable
    case RowsIn(Failed) => c.failed
    case BytesStored => c.bytes
  }

  /** What one row adds to a counter: one in its state, its bytes when they were stored. */
  function Share(row: Row, k: Counter): int {
    match k
    case RowsIn(state) => if row.state == state then 1 else 0
    case BytesStored => if row.state == Stored then row.artifact.bytes else 0
  }

  function Total(rows: map<Pair, Row>, pairs: seq<Pair>, k: Counter): int
    decreases |pairs|
  {
    if pairs == [] then 0
    else (if pairs[0] in rows then Share(rows[pairs[0]], k) else 0) + Total(rows, pairs[1..], k)
  }

  /** Every counter is the sum of the rows' shares. */
  ghost predicate Counted(r: Run) {
    forall k :: Count(r.counts, k) == Total(r.rows, r.order, k)
  }

  // ----- moves: what may happen to a run between two numbers

  /** A row that is out of flight has its last word. */
  predicate KeepsWord(row: Row, row': Row) {
    row.state != InFlight ==> row'.state == row.state && row'.artifact == row.artifact && row'.detail == row.detail
  }

  /**
   What moved from r to r' has a number above since, the rest is as it was, no
   settled row changed its word, and no row or decision went away.
   */
  ghost predicate Moves(r: Run, r': Run, since: nat) {
    && r.num <= r'.num
    && (forall p | p in r.rows :: p in r'.rows && KeepsWord(r.rows[p], r'.rows[p])
                                  && (r'.rows[p] == r.rows[p] || since < r'.rows[p].num))
    && (forall p | p in r'.rows && p !in r.rows :: since < r'.rows[p].num)
    && r.order <= r'.order
  }

  lemma {:induction false} MovesTransitive(r: Run, r1: Run, r2: Run, since: nat)
    requires Moves(r, r1, since) && Moves(r1, r2, since)
    ensures Moves(r, r2, since)
  {
    forall p | p in r.rows
      ensures p in r2.rows && KeepsWord(r.rows[p], r2.rows[p]) && (r2.rows[p] == r.rows[p] || since < r2.rows[p].num)
    {
      assert p in r1.rows;
    }
  }

  lemma {:induction false} SettleRowed(r: Run, p: Pair, state: RowState, detail: Detail, artifact: Artifact)
    requires Rowed(r) && p in r.rows
    ensures Rowed(Settle(r, p, state, detail, artifact))
  {
  }

  /** One row, in flight before, taken to a number above since. */
  lemma {:induction false} RowMoves(r: Run, r': Run, p: Pair, row: Row, since: nat)
    requires p in r.rows && r.rows[p].state == InFlight && since < row.num
    requires r'.rows == r.rows[p := row] && r'.order == r.order && r'.num == r.num
    ensures Moves(r, r', since)
  {
  }

  lemma {:induction false} SettleMoves(r: Run, p: Pair, state: RowState, detail: Detail, artifact: Artifact, since: nat)
    requires Rowed(r) && p in r.rows && since < r.num
    ensures Moves(r, Settle(r, p, state, detail, artifact), since) && Rowed(Settle(r, p, state, detail, artifact))
  {
    SettleRowed(r, p, state, detail, artifact);
    if r.rows[p].state == InFlight {
      RowMoves(r, Settle(r, p, state, detail, artifact), p,
               SettledRow(r.rows[p], state, detail, artifact, r.num), since);
    }
  }

  lemma {:induction false} SettleDeviceMoves(r: Run, pairs: seq<Pair>, identity: string, since: nat)
    requires Rowed(r) && since < r.num && forall p | p in pairs :: p in r.rows
    ensures Moves(r, SettleDevice(r, pairs, identity), since) && Rowed(SettleDevice(r, pairs, identity))
    ensures SettleDevice(r, pairs, identity).num == r.num
    decreases |pairs|
  {
    if pairs == [] {
    } else if pairs[0].identity != identity {
      SettleDeviceMoves(r, pairs[1..], identity, since);
    } else {
      var why := KnownOf(r, identity).why;
      var r1 := Settle(r, pairs[0], Failed, why, NO_ARTIFACT);
      SettleMoves(r, pairs[0], Failed, why, NO_ARTIFACT, since);
      SettleDeviceMoves(r1, pairs[1..], identity, since);
      MovesTransitive(r, r1, SettleDevice(r, pairs, identity), since);
    }
  }

  lemma {:induction false} OpenRowed(r: Run, ev: Event)
    requires Rowed(r)
    ensures Rowed(Open(r, ev))
  {
    var p, r' := Pair(ev.identity, ev.typ), Open(r, ev);
    if p !in r.rows {
      assert r'.order == r.order + [p];
      assert forall q :: q in r'.order <==> q in r.order || q == p;
    }
  }

  lemma {:induction false} OpenMoves(r: Run, ev: Event, since: nat)
    requires Rowed(r) && since < r.num
    ensures Moves(r, Open(r, ev), since) && Rowed(Open(r, ev))
  {
    OpenRowed(r, ev);
  }

  lemma {:induction false} StartMoves(r: Run, ev: Event, since: nat)
    requires Rowed(r) && Pair(ev.identity, ev.typ) in r.rows && since < r.num && ev.kind == CaptureStart
    ensures Moves(r, ToRow(r, ev), since) && Rowed(ToRow(r, ev))
  {
  }

  lemma {:induction false} ToRowMoves(r: Run, ev: Event, since: nat)
    requires Rowed(r) && Pair(ev.identity, ev.typ) in r.rows && since < r.num
    ensures Moves(r, ToRow(r, ev), since) && Rowed(ToRow(r, ev))
    ensures ToRow(r, ev).num == r.num
  {
    if ev.kind == CaptureStart {
      StartMoves(r, ev, since);
    } else if ToRow(r, ev) != r {
      var p, state, detail := Pair(ev.identity, ev.typ), SettlesAs(ev), SettlesWith(ev);
      assert ToRow(r, ev) == Settle(r, p, state, detail, ev.artifact);
      SettleMoves(r, p, state, detail, ev.artifact, since);
    }
  }

  lemma {:induction false} StampMoves(r: Run, identity: string, d: Known, naming: bool, since: nat)
    requires Rowed(r) && since < r.num
    ensures Moves(r, Stamp(r, identity, d, naming), since) && Rowed(Stamp(r, identity, d, naming))
  {
  }

  /** A run that differs in number, decisions and devices alone has the same rows to move. */
  lemma {:induction false} MovesFrom(r: Run, r1: Run, r2: Run, since: nat)
    requires r1.rows == r.rows && r1.order == r.order && r.num <= r1.num && Moves(r1, r2, since)
    ensures Moves(r, r2, since)
  {
  }

  lemma {:induction false} CaptureMoves(r: Run, ev: Event, since: nat)
    requires Rowed(r) && since < r.num
    ensures Moves(r, ToRow(Open(r, ev), ev), since) && Rowed(ToRow(Open(r, ev), ev))
    ensures ToRow(Open(r, ev), ev).num == r.num
  {
    OpenMoves(r, ev, since);
    ToRowMoves(Open(r, ev), ev, since);
    MovesTransitive(r, Open(r, ev), ToRow(Open(r, ev), ev), since);
  }

  lemma {:induction false} FailMoves(r: Run, ev: Event, since: nat)
    requires Rowed(r) && since < r.num
    ensures var r' := SettleDevice(Fail(r, ev), r.order, ev.identity);
            Moves(r, r', since) && Rowed(r') && r'.num == r.num
  {
    SettleDeviceMoves(Fail(r, ev), r.order, ev.identity, since);
    MovesFrom(r, Fail(r, ev), SettleDevice(Fail(r, ev), r.order, ev.identity), since);
  }

  lemma {:induction false} ToRunMoves(r: Run, ev: Event, since: nat)
    requires Rowed(r) && since < r.num
    ensures Moves(r, ToRun(r, ev), since) && Rowed(ToRun(r, ev))
    ensures ToRun(r, ev).num == r.num
  {
    var d := KnownOf(r, ev.identity);
    if ev.kind == PlatformKnown {
      assert ToRun(r, ev) == Stamp(r, ev.identity, d.(platform := ev.platform), false);
      StampMoves(r, ev.identity, d.(platform := ev.platform), false, since);
    } else if ev.kind == DeviceFail {
      assert ToRun(r, ev) == SettleDevice(Fail(r, ev), r.order, ev.identity);
      FailMoves(r, ev, since);
    } else if ToRun(r, ev) != r {
      NamedOrCapture(r, ev, since);
    }
  }

  lemma {:induction false} NamedOrCapture(r: Run, ev: Event, since: nat)
    requires Rowed(r) && since < r.num
    requires ev.kind != PlatformKnown && ev.kind != DeviceFail && ToRun(r, ev) != r
    ensures Moves(r, ToRun(r, ev), since) && Rowed(ToRun(r, ev))
    ensures ToRun(r, ev).num == r.num
  {
    var d := KnownOf(r, ev.identity);
    if ev.kind == Resolved || ev.kind == Named {
      assert ToRun(r, ev) == Stamp(r, ev.identity, d.(name := ev.name), true);
      StampMoves(r, ev.identity, d.(name := ev.name), true, since);
    } else {
      assert ToRun(r, ev) == ToRow(Open(r, ev), ev);
      CaptureMoves(r, ev, since);
    }
  }

  lemma {:induction false} ToKnownMoves(r: Run, r0: Run, ev: Event)
    requires Rowed(r) && r0 == r.(num := r.num + 1)
    ensures Moves(r, ToKnown(r0, ev), r.num) && Rowed(ToKnown(r0, ev)) && ToKnown(r0, ev).num == r.num + 1
  {
    if ev.kind != HostKeyNew && ev.kind != AuthReject && ev.identity != "" {
      var met := Meet(r0, ev.identity);
      ToRunMoves(met, ev, r.num);
      MovesFrom(r, met, ToRun(met, ev), r.num);
    }
  }

  /** Applying an event numbers everything it moves, and moves nothing else. */
  lemma {:induction false} ApplyMoves(r: Run, ev: Event)
    requires Rowed(r)
    ensures Moves(r, Apply(r, ev), r.num) && Rowed(Apply(r, ev)) && Apply(r, ev).num == r.num + 1
  {
    ToKnownMoves(r, r.(num := r.num + 1), ev);
  }

  lemma {:induction false} NotedLists(r: Run, r0: Run, ev: Event)
    requires Listed(r.notable, r.num) && r0 == r.(num := r.num + 1)
    ensures Listed(Noted(r0, ev), r.num + 1) && r.notable <= Noted(r0, ev)
    ensures forall i | |r.notable| <= i < |Noted(r0, ev)| :: r.num < Noted(r0, ev)[i].num
  {
  }

  /** An event adds at most one decision, at the end, numbered above all others. */
  lemma {:induction false} ApplyLists(r: Run, ev: Event)
    requires Rowed(r) && Listed(r.notable, r.num)
    ensures Listed(Apply(r, ev).notable, r.num + 1) && r.notable <= Apply(r, ev).notable
    ensures forall i | |r.notable| <= i < |Apply(r, ev).notable| :: r.num < Apply(r, ev).notable[i].num
  {
    NotedLists(r, r.(num := r.num + 1), ev);
  }

  /** At most the row of this pair is new, if it names a device and a type, and the run did not end. */
  ghost predicate OpensOnly(r: Run, r': Run, p: Pair) {
    r'.finished == r.finished && forall q | q in r'.rows :: q in r.rows || (q == p && p.identity != "" && p.typ != "")
  }

  lemma {:induction false} CaptureOpens(r: Run, ev: Event)
    requires Rowed(r) && ev.identity != "" && ev.typ != ""
    ensures OpensOnly(r, ToRow(Open(r, ev), ev), Pair(ev.identity, ev.typ))
  {
  }

  lemma {:induction false} StampOpens(r: Run, identity: string, d: Known, naming: bool, p: Pair)
    ensures OpensOnly(r, Stamp(r, identity, d, naming), p)
  {
  }

  lemma {:induction false} ToRunOpens(r: Run, ev: Event)
    requires Rowed(r) && ev.identity != ""
    ensures OpensOnly(r, ToRun(r, ev), Pair(ev.identity, ev.typ))
  {
    var d := KnownOf(r, ev.identity);
    if ev.kind == DeviceFail {
      assert ToRun(r, ev) == SettleDevice(Fail(r, ev), r.order, ev.identity);
    } else if ev.kind == PlatformKnown {
      StampOpens(r, ev.identity, d.(platform := ev.platform), false, Pair(ev.identity, ev.typ));
    } else if ev.kind == Resolved || ev.kind == Named {
      StampOpens(r, ev.identity, d.(name := ev.name), true, Pair(ev.identity, ev.typ));
    } else if ev.typ != "" {
      CaptureOpens(r, ev);
    }
  }

  lemma {:induction false} ToKnownOpens(r: Run, r0: Run, ev: Event)
    requires Rowed(r) && r0 == r.(num := r.num + 1)
    ensures OpensOnly(r, ToKnown(r0, ev), Pair(ev.identity, ev.typ))
  {
    if ev.identity != "" {
      ToRunOpens(Meet(r0, ev.identity), ev);
    }
  }

  lemma {:induction false} ApplyShape(r: Run, r0: Run, ev: Event)
    requires Rowed(r) && r0 == r.(num := r.num + 1)
    ensures Apply(r, ev) == ToKnown(r0, ev).(notable := Noted(r0, ev))
  {
    assert r0 == r.(num := r.num + 1);
  }

  lemma {:induction false} SameOpens(r: Run, r1: Run, r2: Run, p: Pair)
    requires OpensOnly(r, r1, p) && r2.rows == r1.rows && r2.finished == r1.finished
    ensures OpensOnly(r, r2, p)
  {
  }

  /** An event opens at most the row of its own pair, and ends nothing. */
  lemma {:induction false} ApplyOpens(r: Run, ev: Event)
    requires Rowed(r)
    ensures OpensOnly(r, Apply(r, ev), Pair(ev.identity, ev.typ))
  {
    var r0 := r.(num := r.num + 1);
    ToKnownOpens(r, r0, ev);
    ApplyShape(r, r0, ev);
    SameOpens(r, ToKnown(r0, ev), Apply(r, ev), Pair(ev.identity, ev.typ));
  }
}
