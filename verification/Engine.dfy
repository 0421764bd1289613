/**
 The capture engine as a protocol (internal/capture/capture.go): one worker a
 device, a semaphore of device slots, a narrow lane for expensive commands, and
 a cancel that may come at any moment. Every interleaving of the workers'
 steps is a run.
 */
module Engine {
  import opened RunModel
  import opened Wrappers

  datatype Cost = Cheap | Expensive

  // gated: the command has a model pattern, which a device may not match.
  datatype Command = Command(text: string, cost: Cost, gated: bool)

  datatype Spec = Spec(typ: string, commands: map<string, Command>)

  // order is what ordered() gives on every visit.
  datatype Config = Config(specs: seq<Spec>, order: seq<Spec>, identities: seq<string>,
                           concurrency: int, expensive: int)

  // ----- specs and their order

  /** The highest cost any platform's command declares. */
  predicate CostsDear(s: Spec) {
    exists p | p in s.commands :: s.commands[p].cost == Expensive
  }

  function Lane(specs: seq<Spec>, dear: bool): seq<Spec> {
    if specs == [] then []
    else (if CostsDear(specs[0]) == dear then [specs[0]] else []) + Lane(specs[1..], dear)
  }

  /** The specs in a stable order, cheap ones first. */
  function Ordered(specs: seq<Spec>): seq<Spec> {
    Lane(specs, false) + Lane(specs, true)
  }

  function Types(specs: seq<Spec>): (types: seq<string>)
    ensures |types| == |specs| && forall i | 0 <= i < |specs| :: types[i] == specs[i].typ
  {
    if specs == [] then [] else [specs[0].typ] + Types(specs[1..])
  }

  predicate TwiceSelected(specs: seq<Spec>) {
    exists i, j | 0 <= i < j < |specs| :: specs[i].typ == specs[j].typ
  }

  /** New: refuses no type and the same type twice; limits that are not positive take their defaults. */
  function New(specs: seq<Spec>, identities: seq<string>, concurrency: int, expensive: int): (cfg: Option<Config>) {
    if specs == [] || TwiceSelected(specs) then None
    else
      Some(Config(specs, Ordered(specs), identities,
                  if concurrency <= 0 then 5 else concurrency, if expensive <= 0 then 1 else expensive))
  }

  // ----- the state

  // Where a worker stands. lane: it holds the expensive lane; slot: it holds a device slot; why:
  // what failed its device.
  datatype Pc =
    | AtSem | Checking | Dialing | Opening | Fingerprinting | Identifying
    | AtSpec(i: nat) | AtLane(i: nat) | Sending(i: nat, lane: bool)
    | Storing(i: nat, lane: bool) | Leaving(i: nat, lane: bool)
    | Failing(k: nat, slot: bool, why: string) | Appending(slot: bool) | Releasing | Returned

  // One result, as the engine fills it in on the way; same and artifact are what the store gave.
  datatype Result = Result(typ: string, platform: string, command: string, notApplicable: bool, err: Option<string>,
                           same: bool, artifact: Artifact)

  // What a result comes to, or a settling event says: how the type ended, what was sent, why it
  // failed, what was stored.
  datatype Mark = Mark(typ: string, state: RowState, command: string, why: string, artifact: Artifact)

  // results is the worker's own list, not yet in the shared one.
  datatype Worker = Worker(pc: Pc, platform: string, results: seq<Result>)

  datatype Logged = Logged(entry: nat, event: Event)

  datatype Found = Found(entry: nat, result: Result)

  datatype Sys = Sys(workers: seq<Worker>, slots: int, lanes: int, cancelled: bool,
                     events: seq<Logged>, out: seq<Found>)

  // What a worker meets: a call that returns, with a platform and what is worth noting of it, or a
  // name, new or known before; an answer; or a cancel.
  datatype Choice =
    | Proceed | NoticeCancel(why: string)
    | Succeed(name: string, note: string) | Resolve(name: string) | Fail(why: string) | Decline(why: string)
    | Put(same: bool, artifact: Artifact)

  // A worker's step: where it is then, what it emitted, what it took, and whether it handed in its results.
  datatype Turn = Turn(worker: Worker, emitted: seq<Event>, slots: int, lanes: int, handsIn: bool)

  function Start(cfg: Config): Sys {
    Sys(seq(|cfg.identities|, _ => Worker(AtSem, "", [])), 0, 0, false, [], [])
  }

  // ----- one worker's step

  function Says(kind: Kind, id: string, typ: string, platform: string, command: string, artifact: Artifact,
                detail: string): Event {
    Event(kind, id, typ, "", platform, command, artifact, detail)
  }

  function Moves(w: Worker, pc: Pc): Option<Turn> {
    Some(Turn(w.(pc := pc), [], 0, 0, false))
  }

  function Telling(w: Worker, pc: Pc, ev: Event): Option<Turn> {
    Some(Turn(w.(pc := pc), [ev], 0, 0, false))
  }

  /** One way out for a type: a result is kept and an event emitted, each made on its own. */
  function Settling(w: Worker, pc: Pc, found: Result, ev: Event): Option<Turn> {
    Some(Turn(w.(pc := pc, results := w.results + [found]), [ev], 0, 0, false))
  }

  /** A result before anything came of it. */
  function Tried(typ: string, platform: string): Result {
    Result(typ, platform, "", false, None, false, NO_ARTIFACT)
  }

  /** How a result says its type ended. */
  function Outcome(r: Result): RowState {
    if r.err.Some? then RowState.Failed
    else if r.notApplicable then NotApplicable
    else if r.same then Unchanged
    else Stored
  }

  function MarkOf(r: Result): Mark {
    Mark(r.typ, Outcome(r), r.command, if r.err.Some? then r.err.value else "", r.artifact)
  }

  function MarkIn(ev: Event): Mark {
    Mark(ev.typ, SettlesAs(ev), ev.command, if SettlesAs(ev) == RowState.Failed then ev.detail else "", ev.artifact)
  }

  /** deviceFailed, its first event: the device failed. */
  function Failed(w: Worker, id: string, slot: bool, why: string): Option<Turn> {
    Telling(w, Failing(0, slot, why), Says(DeviceFail, id, "", "", "", NO_ARTIFACT, why))
  }

  function Fails(id: string, typ: string, command: string, why: string): Event {
    Says(CaptureFail, id, typ, "", command, NO_ARTIFACT, why)
  }

  function Inapplicable(id: string, typ: string, platform: string, command: string, why: string): Event {
    Says(NotApplic, id, typ, platform, command, NO_ARTIFACT, why)
  }

  /** The worker waits for a device slot, or gives up when the run is cancelled first. */
  function TurnAtSem(cfg: Config, w: Worker, id: string, c: Choice, cancelled: bool, slots: int): Option<Turn> {
    match c
    case Proceed => if slots < cfg.concurrency then Some(Turn(w.(pc := Checking), [], 1, 0, false)) else None
    case NoticeCancel(why) => if cancelled then Failed(w, id, false, why) else None
    case _ => None
  }

  /** Dial, session and fingerprint: each call returns, or fails the device. */
  function TurnCalling(w: Worker, id: string, c: Choice): Option<Turn> {
    match c
    case Fail(why) => Failed(w, id, true, why)
    case Succeed(platform, note) =>
      (match w.pc
       case Dialing => Telling(w, Opening, Says(Connected, id, "", "", "", NO_ARTIFACT, ""))
       case Opening => Moves(w, Fingerprinting)
       case _ => Telling(w.(platform := platform), Identifying,
                         Says(PlatformKnown, id, "", platform, "", NO_ARTIFACT, note)))
    case _ => None
  }

  /** The top of the loop, with a spec that has a command for the platform and a run that goes on. */
  function TurnBegin(s: Spec, w: Worker, id: string, c: Choice): Option<Turn>
    requires w.pc.AtSpec? && w.platform in s.commands
  {
    var i, command := w.pc.i, s.commands[w.platform];
    match c
    case Decline(why) =>
      if command.gated then
        Settling(w, AtSpec(i + 1), Tried(s.typ, w.platform).(notApplicable := true),
                 Inapplicable(id, s.typ, w.platform, "", ""))
      else None
    case Proceed =>
      if command.cost == Expensive then Moves(w, AtLane(i))
      else Telling(w, Sending(i, false), Says(CaptureStart, id, s.typ, w.platform, command.text, NO_ARTIFACT, ""))
    case _ => None
  }

  /** The top of the loop over the ordered specs. */
  function TurnAtSpec(specs: seq<Spec>, w: Worker, id: string, c: Choice, cancelled: bool): Option<Turn>
    requires w.pc.AtSpec?
  {
    var i := w.pc.i;
    if i >= |specs| then
      if c == Proceed then Telling(w, Appending(true), Says(DeviceDone, id, "", w.platform, "", NO_ARTIFACT, ""))
      else None
    else if cancelled then
      if c.NoticeCancel? then
        Settling(w, AtSpec(i + 1), Tried(specs[i].typ, w.platform).(err := Some(c.why)),
                 Fails(id, specs[i].typ, "", c.why))
      else None
    else if w.platform !in specs[i].commands then
      if c == Proceed then
        Settling(w, AtSpec(i + 1), Tried(specs[i].typ, w.platform).(notApplicable := true),
                 Inapplicable(id, specs[i].typ, w.platform, "", ""))
      else None
    else TurnBegin(specs[i], w, id, c)
  }

  /** The wait for the expensive lane. */
  function TurnAtLane(cfg: Config, s: Spec, w: Worker, id: string, c: Choice, cancelled: bool, lanes: int): Option<Turn>
    requires w.pc.AtLane? && w.platform in s.commands
  {
    var i, text := w.pc.i, s.commands[w.platform].text;
    match c
    case Proceed =>
      if lanes < cfg.expensive then
        Some(Turn(w.(pc := Sending(i, true)),
                  [Says(CaptureStart, id, s.typ, w.platform, text, NO_ARTIFACT, "")], 0, 1, false))
      else None
    case NoticeCancel(why) =>
      if cancelled then
        Settling(w, AtSpec(i + 1), Tried(s.typ, w.platform).(command := text, err := Some(why)),
                 Fails(id, s.typ, text, why))
      else None
    case _ => None
  }

  /** The command was sent, or its output is being stored. */
  function TurnRunning(s: Spec, w: Worker, id: string, c: Choice): Option<Turn>
    requires (w.pc.Sending? || w.pc.Storing?) && w.platform in s.commands
  {
    var text := s.commands[w.platform].text;
    var sent, next := Tried(s.typ, w.platform).(command := text), Leaving(w.pc.i, w.pc.lane);
    match c
    case Fail(why) => Settling(w, next, sent.(err := Some(why)), Fails(id, s.typ, text, why))
    case Succeed(_, _) => if w.pc.Sending? then Moves(w, Storing(w.pc.i, w.pc.lane)) else None
    case Decline(why) =>
      if w.pc.Sending? then
        Settling(w, next, sent.(notApplicable := true), Inapplicable(id, s.typ, w.platform, text, why))
      else None
    case Put(same, artifact) =>
      if w.pc.Storing? then
        Settling(w, next, sent.(artifact := artifact, same := same),
                 Says(if same then CaptureUnchanged else CaptureStored, id, s.typ, "", text, artifact, ""))
      else None
    case _ => None
  }

  /** The way out: failed types one by one, the results handed in, the slot given back. */
  function TurnLeaving(cfg: Config, w: Worker, id: string, c: Choice): Option<Turn>
    requires w.pc.Leaving? || w.pc.Failing? || w.pc.Appending? || w.pc.Releasing?
  {
    match w.pc
    case Leaving(i, lane) =>
      if c == Proceed then Some(Turn(w.(pc := AtSpec(i + 1)), [], 0, if lane then -1 else 0, false)) else None
    case Failing(k, slot, why) =>
      if c != Proceed then None
      else if k >= |cfg.specs| then Moves(w, Appending(slot))
      else
        Settling(w, Failing(k + 1, slot, why), Tried(cfg.specs[k].typ, "").(err := Some(why)),
                 Fails(id, cfg.specs[k].typ, "", why))
    case Appending(slot) =>
      if c == Proceed then Some(Turn(w.(pc := if slot then Releasing else Returned), [], 0, 0, true)) else None
    case Releasing =>
      if c == Proceed then Some(Turn(w.(pc := Returned), [], -1, 0, false)) else None
  }

  /** Where the loop over specs is when the worker has a command in hand. */
  predicate InSpec(specs: seq<Spec>, w: Worker, i: nat) {
    i < |specs| && w.platform in specs[i].commands
  }

  predicate Placed(cfg: Config, w: Worker) {
    match w.pc
    case AtLane(i) => InSpec(cfg.order, w, i) && cfg.order[i].commands[w.platform].cost == Expensive
    case Sending(i, lane) =>
      InSpec(cfg.order, w, i) && lane == (cfg.order[i].commands[w.platform].cost == Expensive)
    case Storing(i, lane) =>
      InSpec(cfg.order, w, i) && lane == (cfg.order[i].commands[w.platform].cost == Expensive)
    case Leaving(i, lane) => i < |cfg.order|
    case AtSpec(i) => i <= |cfg.order|
    case Failing(k, _, _) => k <= |cfg.specs|
    case _ => true
  }

  function TurnOf(cfg: Config, w: Worker, id: string, c: Choice, cancelled: bool, slots: int, lanes: int): Option<Turn>
    requires Placed(cfg, w)
  {
    match w.pc
    case AtSem => TurnAtSem(cfg, w, id, c, cancelled, slots)
    case Checking =>
      (match c
       case NoticeCancel(why) => if cancelled then Failed(w, id, true, why) else None
       case Proceed => if cancelled then None else Moves(w, Dialing)
       case _ => None)
    case Dialing | Opening | Fingerprinting => TurnCalling(w, id, c)
    case Identifying =>
      (match c
       case Proceed => Moves(w, AtSpec(0))
       case Succeed(name, _) => Telling(w, AtSpec(0), Event(Named, id, "", name, "", "", NO_ARTIFACT, ""))
       case Resolve(name) => Telling(w, AtSpec(0), Event(Resolved, id, "", name, "", "", NO_ARTIFACT, ""))
       case _ => None)
    case AtSpec(_) => TurnAtSpec(cfg.order, w, id, c, cancelled)
    case AtLane(i) => TurnAtLane(cfg, cfg.order[i], w, id, c, cancelled, lanes)
    case Sending(i, _) => TurnRunning(cfg.order[i], w, id, c)
    case Storing(i, _) => TurnRunning(cfg.order[i], w, id, c)
    case Returned => None
    case _ => TurnLeaving(cfg, w, id, c)
  }

  // ----- the whole engine's step

  datatype Step = Work(entry: nat, choice: Choice) | Cancel

  function Log(entry: nat, emitted: seq<Event>): seq<Logged> {
    if emitted == [] then [] else [Logged(entry, emitted[0])] + Log(entry, emitted[1..])
  }

  function HandIn(entry: nat, results: seq<Result>): seq<Found> {
    if results == [] then [] else [Found(entry, results[0])] + HandIn(entry, results[1..])
  }

  predicate Shaped(cfg: Config, s: Sys) {
    |s.workers| == |cfg.identities| && forall e | 0 <= e < |s.workers| :: Placed(cfg, s.workers[e])
  }

  function Turned(cfg: Config, s: Sys, e: nat, c: Choice): Option<Turn>
    requires Shaped(cfg, s) && e < |s.workers|
  {
    TurnOf(cfg, s.workers[e], cfg.identities[e], c, s.cancelled, s.slots, s.lanes)
  }

  predicate Enabled(cfg: Config, s: Sys, step: Step)
    requires Shaped(cfg, s)
  {
    match step
    case Cancel => !s.cancelled
    case Work(e, c) => e < |s.workers| && Turned(cfg, s, e, c).Some?
  }

  function Taken(s: Sys, e: nat, t: Turn): Sys
    requires e < |s.workers|
  {
    Sys(s.workers[e := t.worker], s.slots + t.slots, s.lanes + t.lanes, s.cancelled,
        s.events + Log(e, t.emitted), if t.handsIn then s.out + HandIn(e, t.worker.results) else s.out)
  }

  function Act(cfg: Config, s: Sys, step: Step): Sys
    requires Shaped(cfg, s) && Enabled(cfg, s, step)
  {
    match step
    case Cancel => s.(cancelled := true)
    case Work(e, c) => Taken(s, e, Turned(cfg, s, e, c).value)
  }

  // ----- the order of specs

  function TimesIn(types: seq<string>, typ: string): nat {
    if types == [] then 0 else (if types[0] == typ then 1 else 0) + TimesIn(types[1..], typ)
  }

  lemma {:induction false} TimesInAppend(a: seq<string>, b: seq<string>, typ: string)
    ensures TimesIn(a + b, typ) == TimesIn(a, typ) + TimesIn(b, typ)
  {
    if a == [] {
      assert a + b == b;
    } else {
      assert (a + b)[1..] == a[1..] + b;
      TimesInAppend(a[1..], b, typ);
    }
  }

  lemma {:induction false} TypesAppend(a: seq<Spec>, b: seq<Spec>)
    ensures Types(a + b) == Types(a) + Types(b)
  {
  }

  lemma {:induction false} LanesSplit(specs: seq<Spec>, typ: string)
    ensures |Lane(specs, false)| + |Lane(specs, true)| == |specs|
    ensures TimesIn(Types(Lane(specs, false)), typ) + TimesIn(Types(Lane(specs, true)), typ)
            == TimesIn(Types(specs), typ)
  {
    if specs != [] {
      LanesSplit(specs[1..], typ);
      var dear := CostsDear(specs[0]);
      assert Lane(specs, dear) == [specs[0]] + Lane(specs[1..], dear);
      assert Lane(specs, !dear) == Lane(specs[1..], !dear);
      assert Types(Lane(specs, dear)) == [specs[0].typ] + Types(Lane(specs[1..], dear));
      assert Types(specs) == [specs[0].typ] + Types(specs[1..]);
    }
  }

  /** Ordering loses no type and adds none. */
  lemma {:induction false} OrderedKeepsTypes(specs: seq<Spec>, typ: string)
    ensures |Ordered(specs)| == |specs| && TimesIn(Types(Ordered(specs)), typ) == TimesIn(Types(specs), typ)
  {
    LanesSplit(specs, typ);
    TypesAppend(Lane(specs, false), Lane(specs, true));
    TimesInAppend(Types(Lane(specs, false)), Types(Lane(specs, true)), typ);
  }

  lemma {:induction false} LanePlaces(specs: seq<Spec>, i: nat, j: nat) returns (x: nat, y: nat)
    requires i < j < |specs| && CostsDear(specs[i]) == CostsDear(specs[j])
    ensures x < y < |Lane(specs, CostsDear(specs[i]))|
    ensures Lane(specs, CostsDear(specs[i]))[x] == specs[i] && Lane(specs, CostsDear(specs[i]))[y] == specs[j]
  {
    if i == 0 {
      y := LanePlace(specs[1..], j - 1);
      x, y := 0, y + 1;
    } else {
      x, y := LanePlaces(specs[1..], i - 1, j - 1);
      if CostsDear(specs[0]) == CostsDear(specs[i]) {
        x, y := x + 1, y + 1;
      }
    }
  }

  lemma {:induction false} LanePlace(specs: seq<Spec>, k: nat) returns (x: nat)
    requires k < |specs|
    ensures x < |Lane(specs, CostsDear(specs[k]))| && Lane(specs, CostsDear(specs[k]))[x] == specs[k]
  {
    if k == 0 {
      x := 0;
    } else {
      x := LanePlace(specs[1..], k - 1);
      if CostsDear(specs[0]) == CostsDear(specs[k]) {
        x := x + 1;
      }
    }
  }

  /** Ordering is stable: of two specs the cheaper comes first, and of two of one cost the one selected first. */
  lemma {:induction false} OrderedIsStable(specs: seq<Spec>, i: nat, j: nat) returns (x: nat, y: nat)
    requires i < |specs| && j < |specs| && i != j
    requires CostsDear(specs[i]) == CostsDear(specs[j]) ==> i < j
    requires CostsDear(specs[i]) ==> CostsDear(specs[j])
    ensures x < y < |Ordered(specs)| && Ordered(specs)[x] == specs[i] && Ordered(specs)[y] == specs[j]
  {
    if CostsDear(specs[i]) == CostsDear(specs[j]) {
      x, y := LanePlaces(specs, i, j);
      if CostsDear(specs[i]) {
        x, y := |Lane(specs, false)| + x, |Lane(specs, false)| + y;
      }
    } else {
      x := LanePlace(specs, i);
      y := LanePlace(specs, j);
      y := |Lane(specs, false)| + y;
    }
  }

  // ----- what a worker keeps

  function TypesOf(results: seq<Result>): (types: seq<string>)
    ensures |types| == |results| && forall i | 0 <= i < |results| :: types[i] == results[i].typ
  {
    if results == [] then [] else [results[0].typ] + TypesOf(results[1..])
  }

  /** What the results come to. */
  function MarksFor(results: seq<Result>): (marks: seq<Mark>)
    ensures |marks| == |results| && forall i | 0 <= i < |results| :: marks[i] == MarkOf(results[i])
  {
    if results == [] then [] else [MarkOf(results[0])] + MarksFor(results[1..])
  }

  /** What the events that settle a type say. */
  function MarksIn(events: seq<Event>): seq<Mark> {
    if events == [] then []
    else (if SettlesAs(events[0]) != InFlight then [MarkIn(events[0])] else []) + MarksIn(events[1..])
  }

  function SlotOf(w: Worker): int {
    match w.pc
    case AtSem | Returned => 0
    case Failing(_, slot, _) => if slot then 1 else 0
    case Appending(slot) => if slot then 1 else 0
    case _ => 1
  }

  function LaneOf(w: Worker): int {
    match w.pc
    case Sending(_, lane) => if lane then 1 else 0
    case Storing(_, lane) => if lane then 1 else 0
    case Leaving(_, lane) => if lane then 1 else 0
    case _ => 0
  }

  /** The types a worker has a result for: those of the specs it has been through, in the order it takes them. */
  ghost predicate Through(cfg: Config, w: Worker)
    requires Placed(cfg, w)
  {
    var types := TypesOf(w.results);
    match w.pc
    case AtSpec(i) => types == Types(cfg.order)[..i]
    case AtLane(i) => types == Types(cfg.order)[..i]
    case Sending(i, _) => types == Types(cfg.order)[..i]
    case Storing(i, _) => types == Types(cfg.order)[..i]
    case Leaving(i, _) => types == Types(cfg.order)[..i + 1]
    case Failing(k, _, _) => types == Types(cfg.specs)[..k]
    case Appending(_) | Releasing | Returned => types == Types(cfg.order) || types == Types(cfg.specs)
    case _ => types == []
  }

  /** How much a worker still has to do, at most. */
  function Rank(cfg: Config, w: Worker): int {
    var n := |cfg.order|;
    match w.pc
    case Returned => 0
    case Releasing => 1
    case Appending(_) => 2
    case Failing(k, _, _) => 3 + (|cfg.specs| - k)
    case Leaving(i, _) => 5 * (n - i) - 1
    case Storing(i, _) => 5 * (n - i)
    case Sending(i, _) => 5 * (n - i) + 1
    case AtLane(i) => 5 * (n - i) + 2
    case AtSpec(i) => 5 * (n - i) + 3
    case Identifying => 5 * n + 4
    case Fingerprinting => 5 * n + 5
    case Opening => 5 * n + 6
    case Dialing => 5 * n + 7
    case Checking => 5 * n + 8
    case AtSem => 5 * n + 9
  }

  predicate HandedIn(w: Worker) {
    w.pc.Releasing? || w.pc.Returned?
  }

  /** What every step of a worker does to its own books. */
  ghost predicate Advances(cfg: Config, w: Worker, t: Turn, slots: int, lanes: int) {
    && Placed(cfg, t.worker) && Through(cfg, t.worker)
    && t.slots == SlotOf(t.worker) - SlotOf(w) && (t.slots > 0 ==> slots < cfg.concurrency)
    && t.lanes == LaneOf(t.worker) - LaneOf(w) && (t.lanes > 0 ==> lanes < cfg.expensive)
    && MarksFor(t.worker.results) == MarksFor(w.results) + MarksIn(t.emitted)
    && t.handsIn == (HandedIn(t.worker) && !HandedIn(w))
    && (HandedIn(w) ==> HandedIn(t.worker) && t.emitted == [] && t.worker.results == w.results)
    && Rank(cfg, t.worker) < Rank(cfg, w)
  }

  lemma {:induction false} OneMore(results: seq<Result>, r: Result, specs: seq<Spec>, i: nat)
    requires i < |specs| && TypesOf(results) == Types(specs)[..i] && r.typ == specs[i].typ
    ensures TypesOf(results + [r]) == Types(specs)[..i + 1]
  {
    assert |results| == i;
  }

  lemma {:induction false} MarksOfOne(ev: Event)
    ensures MarksIn([ev]) == if SettlesAs(ev) != InFlight then [MarkIn(ev)] else []
  {
    assert [ev][1..] == [];
  }

  lemma {:induction false} NoMarks(w: Worker)
    ensures MarksFor(w.results) + MarksIn([]) == MarksFor(w.results)
  {
  }

  /** A result and an event that say the same. */
  lemma {:induction false} SameMark(results: seq<Result>, r: Result, ev: Event)
    requires SettlesAs(ev) != InFlight && MarkOf(r) == MarkIn(ev)
    ensures MarksFor(results + [r]) == MarksFor(results) + MarksIn([ev])
  {
    MarksOfOne(ev);
  }

  lemma {:induction false} AtSemAdvances(cfg: Config, w: Worker, id: string, c: Choice, cancelled: bool, slots: int,
                                         lanes: int, t: Turn)
    requires w.pc.AtSem? && Through(cfg, w) && |cfg.order| == |cfg.specs|
    requires TurnAtSem(cfg, w, id, c, cancelled, slots) == Some(t)
    ensures Advances(cfg, w, t, slots, lanes)
  {
    if c.NoticeCancel? {
      MarksOfOne(t.emitted[0]);
    }
  }

  /** A turn that settles nothing and keeps its results. */
  lemma {:induction false} QuietMarks(w: Worker, t: Turn)
    requires t.worker.results == w.results
    requires t.emitted == [] || (|t.emitted| == 1 && SettlesAs(t.emitted[0]) == InFlight)
    ensures MarksFor(t.worker.results) == MarksFor(w.results) + MarksIn(t.emitted)
  {
    if t.emitted == [] {
      NoMarks(w);
    } else {
      assert t.emitted == [t.emitted[0]];
      MarksOfOne(t.emitted[0]);
    }
  }

  lemma {:induction false} CallingAdvances(cfg: Config, w: Worker, id: string, c: Choice, slots: int, lanes: int,
                                           t: Turn)
    requires (w.pc.Dialing? || w.pc.Opening? || w.pc.Fingerprinting?) && Through(cfg, w) && |cfg.order| == |cfg.specs|
    requires TurnCalling(w, id, c) == Some(t)
    ensures Advances(cfg, w, t, slots, lanes)
  {
    QuietMarks(w, t);
  }

  /** The result a turn leaves last. */
  function Last(t: Turn): Result {
    if t.worker.results == [] then Tried("", "") else t.worker.results[|t.worker.results| - 1]
  }

  /** A type settled before its command was sent. */
  lemma {:induction false} SettledUnsent(cfg: Config, w: Worker, i: nat, r: Result, ev: Event, slots: int, lanes: int,
                                         t: Turn)
    requires w.pc == AtSpec(i) || w.pc == AtLane(i)
    requires Placed(cfg, w) && Through(cfg, w) && i < |cfg.order|
    requires r.typ == cfg.order[i].typ && SettlesAs(ev) != InFlight && MarkOf(r) == MarkIn(ev)
    requires Settling(w, AtSpec(i + 1), r, ev) == Some(t)
    ensures Advances(cfg, w, t, slots, lanes)
  {
    SameMark(w.results, r, ev);
    OneMore(w.results, r, cfg.order, i);
  }

  /** A type settled by what its command came to. */
  lemma {:induction false} SettledSent(cfg: Config, w: Worker, i: nat, lane: bool, r: Result, ev: Event, slots: int,
                                       lanes: int, t: Turn)
    requires w.pc == Sending(i, lane) || w.pc == Storing(i, lane)
    requires Placed(cfg, w) && Through(cfg, w)
    requires r.typ == cfg.order[i].typ && SettlesAs(ev) != InFlight && MarkOf(r) == MarkIn(ev)
    requires Settling(w, Leaving(i, lane), r, ev) == Some(t)
    ensures Advances(cfg, w, t, slots, lanes)
  {
    SameMark(w.results, r, ev);
    OneMore(w.results, r, cfg.order, i);
  }

  lemma {:induction false} FailsOne(cfg: Config, w: Worker, k: nat, slot: bool, r: Result, ev: Event, slots: int,
                                    lanes: int, t: Turn)
    requires w.pc.Failing? && w.pc.k == k && w.pc.slot == slot && Placed(cfg, w) && Through(cfg, w) && k < |cfg.specs|
    requires r.typ == cfg.specs[k].typ && SettlesAs(ev) != InFlight && MarkOf(r) == MarkIn(ev)
    requires Settling(w, Failing(k + 1, slot, w.pc.why), r, ev) == Some(t)
    ensures Advances(cfg, w, t, slots, lanes)
  {
    SameMark(w.results, r, ev);
    OneMore(w.results, r, cfg.specs, k);
  }

  lemma {:induction false} Whole<T>(s: seq<T>, k: nat)
    requires k == |s|
    ensures s[..k] == s
  {
  }

  lemma {:induction false} LoopEnds(cfg: Config, w: Worker, ev: Event, slots: int, lanes: int, t: Turn)
    requires w.pc == AtSpec(|cfg.order|) && Placed(cfg, w) && Through(cfg, w)
    requires SettlesAs(ev) == InFlight && Telling(w, Appending(true), ev) == Some(t)
    ensures Advances(cfg, w, t, slots, lanes)
  {
    Whole(Types(cfg.order), |cfg.order|);
    MarksOfOne(ev);
  }

  lemma {:induction false} Sends(cfg: Config, w: Worker, i: nat, ev: Event, slots: int, lanes: int, t: Turn)
    requires w.pc == AtSpec(i) && Placed(cfg, w) && Through(cfg, w) && InSpec(cfg.order, w, i)
    requires cfg.order[i].commands[w.platform].cost != Expensive
    requires SettlesAs(ev) == InFlight && Telling(w, Sending(i, false), ev) == Some(t)
    ensures Advances(cfg, w, t, slots, lanes)
  {
    MarksOfOne(ev);
  }

  lemma {:induction false} BeginAdvances(cfg: Config, w: Worker, id: string, c: Choice, slots: int, lanes: int, t: Turn)
    requires w.pc.AtSpec? && Placed(cfg, w) && Through(cfg, w) && InSpec(cfg.order, w, w.pc.i)
    requires TurnBegin(cfg.order[w.pc.i], w, id, c) == Some(t)
    ensures Advances(cfg, w, t, slots, lanes)
  {
    if c.Decline? {
      var spec := cfg.order[w.pc.i];
      SettledUnsent(cfg, w, w.pc.i, Tried(spec.typ, w.platform).(notApplicable := true),
                    Inapplicable(id, spec.typ, w.platform, "", ""), slots, lanes, t);
    } else if t.emitted == [] {
      QuietMarks(w, t);
    } else {
      Sends(cfg, w, w.pc.i, t.emitted[0], slots, lanes, t);
    }
  }

  lemma {:induction false} AtSpecAdvances(cfg: Config, w: Worker, id: string, c: Choice, cancelled: bool, slots: int,
                                          lanes: int, t: Turn)
    requires w.pc.AtSpec? && Placed(cfg, w) && Through(cfg, w)
    requires TurnAtSpec(cfg.order, w, id, c, cancelled) == Some(t)
    ensures Advances(cfg, w, t, slots, lanes)
  {
    var i := w.pc.i;
    if i >= |cfg.order| {
      LoopEnds(cfg, w, t.emitted[0], slots, lanes, t);
    } else if !cancelled && w.platform in cfg.order[i].commands {
      BeginAdvances(cfg, w, id, c, slots, lanes, t);
    } else {
      SettledUnsent(cfg, w, i, Last(t), t.emitted[0], slots, lanes, t);
    }
  }

  lemma {:induction false} AtLaneAdvances(cfg: Config, w: Worker, id: string, c: Choice, cancelled: bool, slots: int,
                                          lanes: int, t: Turn)
    requires w.pc.AtLane? && Placed(cfg, w) && Through(cfg, w)
    requires TurnAtLane(cfg, cfg.order[w.pc.i], w, id, c, cancelled, lanes) == Some(t)
    ensures Advances(cfg, w, t, slots, lanes)
  {
    if c == Proceed {
      MarksOfOne(t.emitted[0]);
    } else {
      SettledUnsent(cfg, w, w.pc.i, Last(t), t.emitted[0], slots, lanes, t);
    }
  }

  /** However a command comes out, the result that is kept and the event that is emitted say the same. */
  lemma {:induction false} RunningSays(s: Spec, w: Worker, id: string, c: Choice, t: Turn)
    requires (w.pc.Sending? || w.pc.Storing?) && w.platform in s.commands
    requires TurnRunning(s, w, id, c) == Some(t) && t.emitted != []
    ensures Settling(w, Leaving(w.pc.i, w.pc.lane), Last(t), t.emitted[0]) == Some(t)
    ensures Last(t).typ == s.typ && SettlesAs(t.emitted[0]) != InFlight && MarkOf(Last(t)) == MarkIn(t.emitted[0])
  {
  }

  lemma {:induction false} RunningAdvances(cfg: Config, w: Worker, id: string, c: Choice, slots: int, lanes: int,
                                           t: Turn)
    requires (w.pc.Sending? || w.pc.Storing?) && Placed(cfg, w) && Through(cfg, w)
    requires TurnRunning(cfg.order[w.pc.i], w, id, c) == Some(t)
    ensures Advances(cfg, w, t, slots, lanes)
  {
    if t.emitted != [] {
      RunningSays(cfg.order[w.pc.i], w, id, c, t);
      SettledSent(cfg, w, w.pc.i, w.pc.lane, Last(t), t.emitted[0], slots, lanes, t);
    }
  }

  lemma {:induction false} FailingAdvances(cfg: Config, w: Worker, id: string, c: Choice, slots: int, lanes: int,
                                           t: Turn)
    requires w.pc.Failing? && Placed(cfg, w) && Through(cfg, w)
    requires TurnLeaving(cfg, w, id, c) == Some(t)
    ensures Advances(cfg, w, t, slots, lanes)
  {
    if w.pc.k < |cfg.specs| {
      FailsOne(cfg, w, w.pc.k, w.pc.slot, Last(t), t.emitted[0], slots, lanes, t);
    } else {
      Whole(Types(cfg.specs), w.pc.k);
      QuietMarks(w, t);
    }
  }

  lemma {:induction false} LeavingAdvances(cfg: Config, w: Worker, id: string, c: Choice, slots: int, lanes: int,
                                           t: Turn)
    requires w.pc.Leaving? || w.pc.Appending? || w.pc.Releasing?
    requires Placed(cfg, w) && Through(cfg, w)
    requires TurnLeaving(cfg, w, id, c) == Some(t)
    ensures Advances(cfg, w, t, slots, lanes)
  {
    assert t.emitted == [];
  }

  /** Every step a worker can take keeps its books: its slot, its lane, its results and what it emitted agree. */
  lemma {:induction false} WorkerAdvances(cfg: Config, w: Worker, id: string, c: Choice, cancelled: bool, slots: int,
                                          lanes: int, t: Turn)
    requires Placed(cfg, w) && Through(cfg, w) && |cfg.order| == |cfg.specs|
    requires TurnOf(cfg, w, id, c, cancelled, slots, lanes) == Some(t)
    ensures Advances(cfg, w, t, slots, lanes)
  {
    if w.pc.AtSem? {
      AtSemAdvances(cfg, w, id, c, cancelled, slots, lanes, t);
    } else if w.pc.Dialing? || w.pc.Opening? || w.pc.Fingerprinting? {
      CallingAdvances(cfg, w, id, c, slots, lanes, t);
    } else if w.pc.AtSpec? {
      AtSpecAdvances(cfg, w, id, c, cancelled, slots, lanes, t);
    } else if w.pc.AtLane? {
      AtLaneAdvances(cfg, w, id, c, cancelled, slots, lanes, t);
    } else if w.pc.Sending? || w.pc.Storing? {
      RunningAdvances(cfg, w, id, c, slots, lanes, t);
    } else if w.pc.Checking? || w.pc.Identifying? {
      if t.emitted != [] {
        MarksOfOne(t.emitted[0]);
      }
    } else if w.pc.Failing? {
      FailingAdvances(cfg, w, id, c, slots, lanes, t);
    } else {
      LeavingAdvances(cfg, w, id, c, slots, lanes, t);
    }
  }
}
