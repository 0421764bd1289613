/**
 What holds of every run of the capture engine: its limits, its accounts, its
 end, and what a cancel stops.
 */
module EngineTheorems {
  import opened RunModel
  import opened Engine
  import opened Sequences
  import opened Wrappers

  // ----- sums over workers

  function Sum(ws: seq<Worker>, f: Worker -> int): int {
    if ws == [] then 0 else f(ws[0]) + Sum(ws[1..], f)
  }

  lemma {:induction false} SumUpdated(ws: seq<Worker>, e: nat, w: Worker, f: Worker -> int)
    requires e < |ws|
    ensures Sum(ws[e := w], f) == Sum(ws, f) - f(ws[e]) + f(w)
    decreases |ws|
  {
    if e == 0 {
      assert ws[e := w][1..] == ws[1..];
    } else {
      assert ws[e := w][1..] == ws[1..][e - 1 := w];
      SumUpdated(ws[1..], e - 1, w, f);
    }
  }

  lemma {:induction false} SumBelow(ws: seq<Worker>, f: Worker -> int, g: Worker -> int)
    requires forall e | 0 <= e < |ws| :: f(ws[e]) <= g(ws[e])
    ensures Sum(ws, f) <= Sum(ws, g)
    decreases |ws|
  {
    if ws != [] {
      SumBelow(ws[1..], f, g);
    }
  }

  lemma {:induction false} SumOfNothing(ws: seq<Worker>, f: Worker -> int)
    requires forall e | 0 <= e < |ws| :: f(ws[e]) == 0
    ensures Sum(ws, f) == 0
    decreases |ws|
  {
    if ws != [] {
      SumOfNothing(ws[1..], f);
    }
  }

  // ----- what the log and the results say of one device

  /** A device's events, in the order they were emitted. */
  function EventsOf(events: seq<Logged>, e: nat): seq<Event>
    decreases |events|
  {
    if events == [] then [] else (if events[0].entry == e then [events[0].event] else []) + EventsOf(events[1..], e)
  }

  function MarksOf(events: seq<Logged>, e: nat): seq<Mark> {
    MarksIn(EventsOf(events, e))
  }

  function FoundOf(out: seq<Found>, e: nat): seq<Result>
    decreases |out|
  {
    if out == [] then [] else (if out[0].entry == e then [out[0].result] else []) + FoundOf(out[1..], e)
  }

  lemma {:induction false} EventsOfAppend(a: seq<Logged>, b: seq<Logged>, e: nat)
    ensures EventsOf(a + b, e) == EventsOf(a, e) + EventsOf(b, e)
    decreases |a|
  {
    if a == [] {
      assert a + b == b;
    } else {
      assert (a + b)[1..] == a[1..] + b;
      EventsOfAppend(a[1..], b, e);
      Regroup(if a[0].entry == e then [a[0].event] else [], EventsOf(a[1..], e), EventsOf(b, e));
    }
  }

  lemma {:induction false} MarksInAppend(a: seq<Event>, b: seq<Event>)
    ensures MarksIn(a + b) == MarksIn(a) + MarksIn(b)
    decreases |a|
  {
    if a == [] {
      assert a + b == b;
    } else {
      assert (a + b)[1..] == a[1..] + b;
      MarksInAppend(a[1..], b);
      Regroup(if SettlesAs(a[0]) != InFlight then [MarkIn(a[0])] else [], MarksIn(a[1..]), MarksIn(b));
    }
  }

  lemma {:induction false} FoundOfAppend(a: seq<Found>, b: seq<Found>, e: nat)
    ensures FoundOf(a + b, e) == FoundOf(a, e) + FoundOf(b, e)
    decreases |a|
  {
    if a == [] {
      assert a + b == b;
    } else {
      assert (a + b)[1..] == a[1..] + b;
      FoundOfAppend(a[1..], b, e);
      Regroup(if a[0].entry == e then [a[0].result] else [], FoundOf(a[1..], e), FoundOf(b, e));
    }
  }

  lemma {:induction false} EventsOfLog(who: nat, emitted: seq<Event>, e: nat)
    ensures EventsOf(Log(who, emitted), e) == if who == e then emitted else []
    decreases |emitted|
  {
    if emitted != [] {
      EventsOfLog(who, emitted[1..], e);
    }
  }

  /** A turn adds what it emitted to its own device's events, and nothing to another's. */
  lemma {:induction false} TakenEvents(s: Sys, who: nat, t: Turn, e: nat)
    requires who < |s.workers|
    ensures EventsOf(Taken(s, who, t).events, e) == EventsOf(s.events, e) + if who == e then t.emitted else []
  {
    EventsOfAppend(s.events, Log(who, t.emitted), e);
    EventsOfLog(who, t.emitted, e);
  }

  lemma {:induction false} LogOne(who: nat, ev: Event)
    ensures Log(who, [ev]) == [Logged(who, ev)]
  {
    assert [ev][1..] == [];
  }

  lemma {:induction false} FoundOfHandIn(who: nat, results: seq<Result>, e: nat)
    ensures FoundOf(HandIn(who, results), e) == if who == e then results else []
    decreases |results|
  {
    if results != [] {
      FoundOfHandIn(who, results[1..], e);
    }
  }

  // ----- the invariant

  predicate Ready(cfg: Config) {
    |cfg.order| == |cfg.specs| && cfg.concurrency > 0 && cfg.expensive > 0
  }

  /** Slots and lanes taken are those the workers hold, and never more than there are. */
  ghost predicate Limited(cfg: Config, s: Sys) {
    && s.slots == Sum(s.workers, SlotOf) && s.slots <= cfg.concurrency
    && s.lanes == Sum(s.workers, LaneOf) && s.lanes <= cfg.expensive
  }

  /**
   A device's events say what its worker's results come to; once handed in, these
   are what the shared list has of it.
  */
  ghost predicate Accounted(s: Sys, e: nat)
    requires e < |s.workers|
  {
    && MarksOf(s.events, e) == MarksFor(s.workers[e].results)
    && FoundOf(s.out, e) == if HandedIn(s.workers[e]) then s.workers[e].results else []
  }

  /** How many results a worker has put in the shared list. */
  function Given(w: Worker): int {
    if HandedIn(w) then |w.results| else 0
  }

  ghost predicate Good(cfg: Config, s: Sys) {
    && Ready(cfg) && Shaped(cfg, s) && Limited(cfg, s) && |s.out| == Sum(s.workers, Given)
    && (forall e | 0 <= e < |s.workers| :: Through(cfg, s.workers[e]))
    && (forall e | 0 <= e < |s.workers| :: Accounted(s, e))
  }

  lemma {:induction false} StartGood(cfg: Config)
    requires Ready(cfg)
    ensures Good(cfg, Start(cfg))
  {
    SumOfNothing(Start(cfg).workers, SlotOf);
    SumOfNothing(Start(cfg).workers, LaneOf);
    SumOfNothing(Start(cfg).workers, Given);
  }

  lemma {:induction false} HandInLength(who: nat, results: seq<Result>)
    ensures |HandIn(who, results)| == |results|
    decreases |results|
  {
    if results != [] {
      HandInLength(who, results[1..]);
    }
  }

  lemma {:induction false} TakenGiven(cfg: Config, s: Sys, e: nat, t: Turn)
    requires Shaped(cfg, s) && e < |s.workers| && |s.out| == Sum(s.workers, Given)
    requires Advances(cfg, s.workers[e], t, s.slots, s.lanes)
    ensures |Taken(s, e, t).out| == Sum(Taken(s, e, t).workers, Given)
  {
    SumUpdated(s.workers, e, t.worker, Given);
    HandInLength(e, t.worker.results);
    NoMarks(s.workers[e]);
  }

  lemma {:induction false} TakenLimited(cfg: Config, s: Sys, e: nat, t: Turn)
    requires Limited(cfg, s) && e < |s.workers| && Ready(cfg) && Shaped(cfg, s)
    requires Advances(cfg, s.workers[e], t, s.slots, s.lanes)
    ensures Limited(cfg, Taken(s, e, t))
  {
    SumUpdated(s.workers, e, t.worker, SlotOf);
    SumUpdated(s.workers, e, t.worker, LaneOf);
  }

  lemma {:induction false} TakenMarks(s: Sys, who: nat, t: Turn, e: nat)
    requires who < |s.workers| && e < |s.workers| && MarksOf(s.events, e) == MarksFor(s.workers[e].results)
    requires MarksFor(t.worker.results) == MarksFor(s.workers[who].results) + MarksIn(t.emitted)
    ensures MarksOf(Taken(s, who, t).events, e) == MarksFor(Taken(s, who, t).workers[e].results)
  {
    TakenEvents(s, who, t, e);
    MarksInAppend(EventsOf(s.events, e), t.emitted);
    MarksInAppend(EventsOf(s.events, e), []);
  }

  lemma {:induction false} HandedFound(out: seq<Found>, who: nat, results: seq<Result>, e: nat)
    ensures FoundOf(out + HandIn(who, results), e) == FoundOf(out, e) + if who == e then results else []
  {
    FoundOfAppend(out, HandIn(who, results), e);
    FoundOfHandIn(who, results, e);
  }

  lemma {:induction false} TakenFound(s: Sys, who: nat, t: Turn, e: nat)
    requires who < |s.workers| && e < |s.workers|
    requires FoundOf(s.out, e) == if HandedIn(s.workers[e]) then s.workers[e].results else []
    requires t.handsIn == (HandedIn(t.worker) && !HandedIn(s.workers[who]))
    requires HandedIn(s.workers[who]) ==> HandedIn(t.worker) && t.worker.results == s.workers[who].results
    ensures var w := Taken(s, who, t).workers[e];
            FoundOf(Taken(s, who, t).out, e) == if HandedIn(w) then w.results else []
  {
    HandedFound(s.out, who, t.worker.results, e);
  }

  lemma {:induction false} TakenAccounted(cfg: Config, s: Sys, who: nat, t: Turn, e: nat)
    requires who < |s.workers| && e < |s.workers| && Accounted(s, e)
    requires Shaped(cfg, s) && Advances(cfg, s.workers[who], t, s.slots, s.lanes)
    ensures Accounted(Taken(s, who, t), e)
  {
    TakenMarks(s, who, t, e);
    NoMarks(s.workers[who]);
    TakenFound(s, who, t, e);
  }

  /** Every step by anyone, and a cancel at any moment, keeps limits and accounts. */
  lemma {:induction false} ActGood(cfg: Config, s: Sys, step: Step)
    requires Good(cfg, s) && Enabled(cfg, s, step)
    ensures Good(cfg, Act(cfg, s, step))
  {
    match step
    case Cancel =>
      forall e | 0 <= e < |s.workers| ensures Accounted(Act(cfg, s, step), e) {
        assert Accounted(s, e);
      }
    case Work(e, c) => WorkGood(cfg, s, e, Turned(cfg, s, e, c).value, c);
  }

  lemma {:induction false} WorkGood(cfg: Config, s: Sys, e: nat, t: Turn, c: Choice)
    requires Good(cfg, s) && e < |s.workers| && Turned(cfg, s, e, c) == Some(t)
    ensures Good(cfg, Taken(s, e, t))
  {
    WorkerAdvances(cfg, s.workers[e], cfg.identities[e], c, s.cancelled, s.slots, s.lanes, t);
    TakenLimited(cfg, s, e, t);
    TakenGiven(cfg, s, e, t);
    forall d | 0 <= d < |s.workers| ensures Accounted(Taken(s, e, t), d) {
      TakenAccounted(cfg, s, e, t, d);
    }
  }

  // ----- limits

  /** One for a device being visited: from the dial to the last of its captures. */
  function Visiting(w: Worker): int {
    match w.pc
    case Dialing | Opening | Fingerprinting | Identifying => 1
    case AtSpec(_) => 1
    case AtLane(_) => 1
    case Sending(_, _) => 1
    case Storing(_, _) => 1
    case Leaving(_, _) => 1
    case _ => 0
  }

  /** One for an expensive command sent and not yet done with. */
  function RunningDear(cfg: Config): Worker -> int {
    (w: Worker) =>
      if (w.pc.Sending? || w.pc.Storing?) && InSpec(cfg.order, w, w.pc.i)
         && cfg.order[w.pc.i].commands[w.platform].cost == Expensive
      then 1 else 0
  }

  /** Never more devices visited at once than Concurrency, nor expensive commands than ExpensiveConcurrency. */
  lemma {:induction false} LimitsHold(cfg: Config, s: Sys)
    requires Good(cfg, s)
    ensures Sum(s.workers, Visiting) <= cfg.concurrency
    ensures Sum(s.workers, RunningDear(cfg)) <= cfg.expensive
  {
    SumBelow(s.workers, Visiting, SlotOf);
    SumBelow(s.workers, RunningDear(cfg), LaneOf);
  }

  /** The limits are those New was given, or five devices and one expensive command where it was given none. */
  lemma {:induction false} LimitsAsGiven(specs: seq<Spec>, identities: seq<string>, concurrency: int, expensive: int,
                                         cfg: Config, s: Sys)
    requires New(specs, identities, concurrency, expensive) == Some(cfg) && Good(cfg, s)
    ensures Sum(s.workers, Visiting) <= if concurrency > 0 then concurrency else 5
    ensures Sum(s.workers, RunningDear(cfg)) <= if expensive > 0 then expensive else 1
  {
    LimitsHold(cfg, s);
  }

  /** New refuses exactly a selection of no type and one that has a type twice. */
  lemma {:induction false} NewRefuses(specs: seq<Spec>, identities: seq<string>, concurrency: int, expensive: int)
    ensures New(specs, identities, concurrency, expensive) == None
            <==> specs == [] || exists i, j :: 0 <= i < j < |specs| && specs[i].typ == specs[j].typ
  {
  }

  // ----- progress

  /** Something a worker that does not wait can always do. */
  function MoveOf(cfg: Config, w: Worker, cancelled: bool): Choice {
    match w.pc
    case Checking => if cancelled then NoticeCancel("") else Proceed
    case Dialing | Opening | Fingerprinting => Succeed("", "")
    case AtSpec(i) => if i < |cfg.order| && cancelled then NoticeCancel("") else Proceed
    case Sending(_, _) => Succeed("", "")
    case Storing(_, _) => Put(true, NO_ARTIFACT)
    case _ => Proceed
  }

  lemma {:induction false} WorkerCanMove(cfg: Config, w: Worker, id: string, cancelled: bool, slots: int, lanes: int)
    requires Placed(cfg, w) && !w.pc.Returned?
    requires w.pc.AtSem? ==> slots < cfg.concurrency
    requires w.pc.AtLane? ==> lanes < cfg.expensive
    ensures TurnOf(cfg, w, id, MoveOf(cfg, w, cancelled), cancelled, slots, lanes).Some?
  {
  }

  predicate Waits(w: Worker) {
    w.pc.AtSem? || w.pc.AtLane? || w.pc.Returned?
  }

  lemma {:induction false} FreeLane(cfg: Config, s: Sys)
    requires Good(cfg, s) && forall e | 0 <= e < |s.workers| :: Waits(s.workers[e])
    ensures s.lanes < cfg.expensive
  {
    SumOfNothing(s.workers, LaneOf);
  }

  lemma {:induction false} FreeSlot(cfg: Config, s: Sys)
    requires Good(cfg, s) && forall e | 0 <= e < |s.workers| :: s.workers[e].pc.AtSem? || s.workers[e].pc.Returned?
    ensures s.slots < cfg.concurrency
  {
    SumOfNothing(s.workers, SlotOf);
  }

  ghost predicate CanMove(cfg: Config, s: Sys, e: nat)
    requires Shaped(cfg, s)
  {
    e < |s.workers| && Enabled(cfg, s, Work(e, MoveOf(cfg, s.workers[e], s.cancelled)))
  }

  /** No deadlock: while a worker is not done, some worker can take a step. */
  lemma {:induction false} SomeoneCanMove(cfg: Config, s: Sys, waiting: nat)
    requires Good(cfg, s) && waiting < |s.workers| && !s.workers[waiting].pc.Returned?
    ensures exists e: nat :: CanMove(cfg, s, e)
  {
    if e :| 0 <= e < |s.workers| && !Waits(s.workers[e]) {
      WorkerCanMove(cfg, s.workers[e], cfg.identities[e], s.cancelled, s.slots, s.lanes);
      assert CanMove(cfg, s, e);
    } else if e :| 0 <= e < |s.workers| && s.workers[e].pc.AtLane? {
      FreeLane(cfg, s);
      WorkerCanMove(cfg, s.workers[e], cfg.identities[e], s.cancelled, s.slots, s.lanes);
      assert CanMove(cfg, s, e);
    } else {
      FreeSlot(cfg, s);
      WorkerCanMove(cfg, s.workers[waiting], cfg.identities[waiting], s.cancelled, s.slots, s.lanes);
      assert CanMove(cfg, s, waiting);
    }
  }

  // ----- the end

  function RankOf(cfg: Config): Worker -> int {
    (w: Worker) => Rank(cfg, w)
  }

  /** The steps still possible, at most: what the workers have to do, and one cancel. */
  function Budget(cfg: Config, s: Sys): int {
    Sum(s.workers, RankOf(cfg)) + if s.cancelled then 0 else 1
  }

  lemma {:induction false} SumPositive(ws: seq<Worker>, f: Worker -> int)
    requires forall e | 0 <= e < |ws| :: f(ws[e]) >= 0
    ensures Sum(ws, f) >= 0
  {
    if ws != [] {
      SumPositive(ws[1..], f);
    }
  }

  lemma {:induction false} EveryStepSpends(cfg: Config, s: Sys, step: Step)
    requires Good(cfg, s) && Enabled(cfg, s, step)
    ensures Budget(cfg, Act(cfg, s, step)) < Budget(cfg, s)
  {
    if step.Work? {
      var e, t := step.entry, Turned(cfg, s, step.entry, step.choice).value;
      WorkerAdvances(cfg, s.workers[e], cfg.identities[e], step.choice, s.cancelled, s.slots, s.lanes, t);
      SumUpdated(s.workers, e, t.worker, RankOf(cfg));
    }
  }

  ghost predicate CanRun(cfg: Config, s: Sys, steps: seq<Step>)
    requires Good(cfg, s)
    decreases |steps|
  {
    || steps == []
    || (Enabled(cfg, s, steps[0]) && (ActGood(cfg, s, steps[0]); CanRun(cfg, Act(cfg, s, steps[0]), steps[1..])))
  }

  ghost function Ran(cfg: Config, s: Sys, steps: seq<Step>): (s': Sys)
    requires Good(cfg, s) && CanRun(cfg, s, steps)
    ensures Good(cfg, s')
    decreases |steps|
  {
    if steps == [] then s else ActGood(cfg, s, steps[0]); Ran(cfg, Act(cfg, s, steps[0]), steps[1..])
  }

  lemma {:induction false} RunSpends(cfg: Config, s: Sys, steps: seq<Step>)
    requires Good(cfg, s) && CanRun(cfg, s, steps)
    ensures |steps| <= Budget(cfg, s)
    decreases |steps|
  {
    if steps == [] {
      SumPositive(s.workers, RankOf(cfg));
    } else {
      EveryStepSpends(cfg, s, steps[0]);
      ActGood(cfg, s, steps[0]);
      RunSpends(cfg, Act(cfg, s, steps[0]), steps[1..]);
    }
  }

  lemma {:induction false} SumOfSame(ws: seq<Worker>, f: Worker -> int, each: int)
    requires forall e | 0 <= e < |ws| :: f(ws[e]) == each
    ensures Sum(ws, f) == |ws| * each
  {
    if ws != [] {
      SumOfSame(ws[1..], f, each);
    }
  }

  /** Every run ends: however steps interleave, there are at most so many. */
  lemma {:induction false} EveryRunEnds(cfg: Config, steps: seq<Step>)
    requires Ready(cfg) && (StartGood(cfg); CanRun(cfg, Start(cfg), steps))
    ensures |steps| <= |cfg.identities| * (5 * |cfg.specs| + 9) + 1
  {
    StartGood(cfg);
    RunSpends(cfg, Start(cfg), steps);
    SumOfSame(Start(cfg).workers, RankOf(cfg), 5 * |cfg.specs| + 9);
  }

  // ----- accounts

  lemma {:induction false} TimesAbsent(types: seq<string>, typ: string)
    requires typ !in types
    ensures TimesIn(types, typ) == 0
  {
    if types != [] {
      TimesAbsent(types[1..], typ);
    }
  }

  lemma {:induction false} TimesOnce(types: seq<string>, typ: string)
    requires forall i, j | 0 <= i < j < |types| :: types[i] != types[j]
    ensures TimesIn(types, typ) == if typ in types then 1 else 0
  {
    if types != [] {
      TimesOnce(types[1..], typ);
      if types[0] == typ {
        TimesAbsent(types[1..], typ);
      }
    }
  }

  /** A configuration New accepts is fit to run, and each of its types is selected once. */
  lemma {:induction false} NewIsReady(specs: seq<Spec>, identities: seq<string>, concurrency: int, expensive: int,
                                      cfg: Config, typ: string)
    requires New(specs, identities, concurrency, expensive) == Some(cfg)
    ensures Ready(cfg) && cfg.specs == specs && cfg.identities == identities
    ensures TimesIn(Types(cfg.specs), typ) == if typ in Types(specs) then 1 else 0
    ensures TimesIn(Types(cfg.order), typ) == TimesIn(Types(cfg.specs), typ)
  {
    OrderedKeepsTypes(specs, typ);
    TimesOnce(Types(specs), typ);
  }

  lemma {:induction false} ThroughAll(cfg: Config, w: Worker, typ: string)
    requires Placed(cfg, w) && Through(cfg, w) && w.pc.Returned?
    requires TimesIn(Types(cfg.order), typ) == TimesIn(Types(cfg.specs), typ)
    ensures TimesIn(TypesOf(w.results), typ) == TimesIn(Types(cfg.specs), typ)
  {
  }

  /**
   When a device's worker is done there is one result for every selected type and
   none for another, whatever was refused, failed or cancelled on the way, and as
   many settling events, in the same order; what each result's fields come to, how
   the type ended, what was sent, why it failed and what was stored, is what its
   event says.
   */
  lemma {:induction false} ExactlyOneEach(specs: seq<Spec>, identities: seq<string>, concurrency: int, expensive: int,
                                          cfg: Config, s: Sys, e: nat, typ: string)
    requires New(specs, identities, concurrency, expensive) == Some(cfg)
    requires Good(cfg, s) && e < |s.workers| && s.workers[e].pc.Returned?
    ensures MarksFor(FoundOf(s.out, e)) == MarksOf(s.events, e)
    ensures TimesIn(TypesOf(FoundOf(s.out, e)), typ) == if typ in Types(specs) then 1 else 0
  {
    NewIsReady(specs, identities, concurrency, expensive, cfg, typ);
    ThroughAll(cfg, s.workers[e], typ);
    assert Accounted(s, e);
  }

  // ----- one reason for a device that failed

  /** Why a device failed, each time it was said to have. */
  function FailsIn(events: seq<Event>): seq<string> {
    if events == [] then []
    else
      var last := events[|events| - 1];
      FailsIn(events[..|events| - 1]) + if last.kind == DeviceFail then [last.detail] else []
  }

  predicate AllFailed(results: seq<Result>, why: string) {
    forall i | 0 <= i < |results| :: results[i].err == Some(why)
  }

  /** A device fails at most once, and then every one of its results carries the error of that one failure. */
  ghost predicate OneReason(w: Worker, whys: seq<string>) {
    match w.pc
    case Failing(_, _, why) => whys == [why] && AllFailed(w.results, why)
    case Appending(_) | Releasing | Returned => |whys| <= 1 && (whys != [] ==> AllFailed(w.results, whys[0]))
    case _ => whys == []
  }

  lemma {:induction false} FailsInOne(events: seq<Event>, emitted: seq<Event>)
    requires |emitted| <= 1
    ensures FailsIn(events + emitted)
            == FailsIn(events) + if emitted != [] && emitted[0].kind == DeviceFail then [emitted[0].detail] else []
  {
    if emitted != [] {
      assert (events + emitted)[..|events + emitted| - 1] == events;
    } else {
      assert events + emitted == events;
    }
  }

  /**
   A worker's turn emits at most one event, and what it says of its device's
   failure is what all its results will say.
  */
  ghost predicate ReasonKept(w: Worker, t: Turn, whys: seq<string>) {
    && |t.emitted| <= 1
    && var more := if t.emitted != [] && t.emitted[0].kind == DeviceFail then [t.emitted[0].detail] else [];
       OneReason(t.worker, whys + more)
  }

  lemma {:induction false} LoopReason(cfg: Config, w: Worker, id: string, c: Choice, cancelled: bool, slots: int,
                                      lanes: int,
                                      t: Turn, whys: seq<string>)
    requires w.pc.AtSpec? || w.pc.AtLane? || w.pc.Sending? || w.pc.Storing? || w.pc.Leaving?
    requires Placed(cfg, w) && TurnOf(cfg, w, id, c, cancelled, slots, lanes) == Some(t) && OneReason(w, whys)
    ensures ReasonKept(w, t, whys)
  {
  }

  lemma {:induction false} LeavingReason(cfg: Config, w: Worker, id: string, c: Choice, t: Turn, whys: seq<string>)
    requires w.pc.Failing? || w.pc.Appending? || w.pc.Releasing?
    requires Placed(cfg, w) && TurnLeaving(cfg, w, id, c) == Some(t) && OneReason(w, whys)
    ensures ReasonKept(w, t, whys)
  {
  }

  lemma {:induction false} EarlyReason(cfg: Config, w: Worker, id: string, c: Choice, cancelled: bool, slots: int,
                                       lanes: int,
                                       t: Turn, whys: seq<string>)
    requires w.pc.AtSem? || w.pc.Checking? || w.pc.Dialing? || w.pc.Opening? ||
             w.pc.Fingerprinting? || w.pc.Identifying?
    requires Placed(cfg, w) && TurnOf(cfg, w, id, c, cancelled, slots, lanes) == Some(t) && OneReason(w, whys)
    requires Through(cfg, w)
    ensures ReasonKept(w, t, whys)
  {
    assert w.results == [];
  }

  lemma {:induction false} TurnReason(cfg: Config, w: Worker, id: string, c: Choice, cancelled: bool, slots: int,
                                      lanes: int,
                                      t: Turn, whys: seq<string>)
    requires Placed(cfg, w) && TurnOf(cfg, w, id, c, cancelled, slots, lanes) == Some(t) && OneReason(w, whys)
    requires Through(cfg, w)
    ensures ReasonKept(w, t, whys)
  {
    if w.pc.AtSpec? || w.pc.AtLane? || w.pc.Sending? || w.pc.Storing? || w.pc.Leaving? {
      LoopReason(cfg, w, id, c, cancelled, slots, lanes, t, whys);
    } else if w.pc.Failing? || w.pc.Appending? || w.pc.Releasing? {
      LeavingReason(cfg, w, id, c, t, whys);
    } else {
      EarlyReason(cfg, w, id, c, cancelled, slots, lanes, t, whys);
    }
  }

  ghost predicate Reasoned(s: Sys) {
    forall e | 0 <= e < |s.workers| :: OneReason(s.workers[e], FailsIn(EventsOf(s.events, e)))
  }

  lemma {:induction false} ActReasoned(cfg: Config, s: Sys, step: Step)
    requires Good(cfg, s) && Enabled(cfg, s, step) && Reasoned(s)
    ensures Reasoned(Act(cfg, s, step))
  {
    if step.Work? {
      var who, t := step.entry, Turned(cfg, s, step.entry, step.choice).value;
      TurnReason(cfg, s.workers[who], cfg.identities[who], step.choice, s.cancelled, s.slots, s.lanes, t,
                 FailsIn(EventsOf(s.events, who)));
      TakenReasoned(s, who, t);
    }
  }

  lemma {:induction false} TakenReasoned(s: Sys, who: nat, t: Turn)
    requires who < |s.workers| && Reasoned(s) && ReasonKept(s.workers[who], t, FailsIn(EventsOf(s.events, who)))
    ensures Reasoned(Taken(s, who, t))
  {
    forall e | 0 <= e < |s.workers|
      ensures OneReason(Taken(s, who, t).workers[e], FailsIn(EventsOf(Taken(s, who, t).events, e)))
    {
      TakenEvents(s, who, t, e);
      FailsInOne(EventsOf(s.events, e), if who == e then t.emitted else []);
    }
  }

  lemma {:induction false} RanReasoned(cfg: Config, s: Sys, steps: seq<Step>)
    requires Good(cfg, s) && CanRun(cfg, s, steps) && Reasoned(s)
    ensures Reasoned(Ran(cfg, s, steps))
    decreases |steps|
  {
    if steps != [] {
      ActGood(cfg, s, steps[0]);
      ActReasoned(cfg, s, steps[0]);
      RanReasoned(cfg, Act(cfg, s, steps[0]), steps[1..]);
    }
  }

  /**
   In any run, a device is said to have failed at most once, and when it was,
   every result it has handed in carries the error it failed with.
   */
  lemma {:induction false} FailedForOneReason(cfg: Config, steps: seq<Step>, e: nat)
    requires Ready(cfg) && (StartGood(cfg); CanRun(cfg, Start(cfg), steps)) && e < |cfg.identities|
    ensures var s := (StartGood(cfg); Ran(cfg, Start(cfg), steps));
            var whys := FailsIn(EventsOf(s.events, e));
            |whys| <= 1 && (whys != [] ==> AllFailed(FoundOf(s.out, e), whys[0]))
  {
    StartGood(cfg);
    RanReasoned(cfg, Start(cfg), steps);
    assert Accounted(Ran(cfg, Start(cfg), steps), e);
  }

  lemma {:induction false} TypesSame(results: seq<Result>, specs: seq<Spec>)
    requires TypesOf(results) == Types(specs)
    ensures |results| == |specs|
  {
  }

  lemma {:induction false} GivenAll(cfg: Config, w: Worker)
    requires Ready(cfg) && Placed(cfg, w) && Through(cfg, w) && w.pc.Returned?
    ensures Given(w) == |cfg.specs|
  {
    if TypesOf(w.results) == Types(cfg.order) {
      TypesSame(w.results, cfg.order);
    } else {
      TypesSame(w.results, cfg.specs);
    }
  }

  /** Capture returns one result for every device and every type, and no more. */
  lemma {:induction false} ResultsInAll(cfg: Config, s: Sys)
    requires Good(cfg, s) && forall e | 0 <= e < |s.workers| :: s.workers[e].pc.Returned?
    ensures |s.out| == |cfg.identities| * |cfg.specs|
  {
    forall e | 0 <= e < |s.workers| ensures Given(s.workers[e]) == |cfg.specs| {
      GivenAll(cfg, s.workers[e]);
    }
    SumOfSame(s.workers, Given, |cfg.specs|);
  }

  /** A run that can go no further has every worker done: with its limits kept, it reached every device and type. */
  lemma {:induction false} StuckIsComplete(cfg: Config, steps: seq<Step>)
    requires Ready(cfg) && (StartGood(cfg); CanRun(cfg, Start(cfg), steps))
    requires forall step: Step :: step.Work? ==> !Enabled(cfg, (StartGood(cfg); Ran(cfg, Start(cfg), steps)), step)
    ensures var s := (StartGood(cfg); Ran(cfg, Start(cfg), steps));
            && (forall e | 0 <= e < |s.workers| :: s.workers[e].pc.Returned?)
            && |s.out| == |cfg.identities| * |cfg.specs| && s.slots == 0 && s.lanes == 0
  {
    StartGood(cfg);
    var s := Ran(cfg, Start(cfg), steps);
    forall e | 0 <= e < |s.workers| ensures s.workers[e].pc.Returned? {
      if !s.workers[e].pc.Returned? {
        SomeoneCanMove(cfg, s, e);
      }
    }
    ResultsInAll(cfg, s);
    SumOfNothing(s.workers, SlotOf);
    SumOfNothing(s.workers, LaneOf);
  }

  // ----- cancel

  /** Not dialed: waiting, about to check, or on the way out. */
  predicate Undialed(w: Worker) {
    w.pc.AtSem? || w.pc.Checking? || w.pc.Failing? || w.pc.Appending? || w.pc.Releasing? || w.pc.Returned?
  }

  lemma {:induction false} StaysUndialed(cfg: Config, s: Sys, step: Step, e: nat)
    requires Good(cfg, s) && Enabled(cfg, s, step) && s.cancelled && e < |s.workers| && Undialed(s.workers[e])
    ensures Undialed(Act(cfg, s, step).workers[e]) && Act(cfg, s, step).cancelled
  {
  }

  /** A device not dialed when the run is cancelled is never dialed. */
  lemma {:induction false} CancelledNeverDials(cfg: Config, s: Sys, steps: seq<Step>, e: nat)
    requires Good(cfg, s) && CanRun(cfg, s, steps) && s.cancelled && e < |s.workers| && Undialed(s.workers[e])
    ensures e < |Ran(cfg, s, steps).workers| && Undialed(Ran(cfg, s, steps).workers[e])
    decreases |steps|
  {
    if steps != [] {
      ActGood(cfg, s, steps[0]);
      StaysUndialed(cfg, s, steps[0], e);
      CancelledNeverDials(cfg, Act(cfg, s, steps[0]), steps[1..], e);
    }
  }

  // ----- cheap before expensive

  lemma {:induction false} LaneOnly(specs: seq<Spec>, dear: bool)
    ensures forall i | 0 <= i < |Lane(specs, dear)| :: CostsDear(Lane(specs, dear)[i]) == dear
  {
    if specs != [] {
      LaneOnly(specs[1..], dear);
    }
  }

  /** Where the expensive lane is wanted or held, every cheap type of the device is settled. */
  lemma {:induction false} CheapFirst(specs: seq<Spec>, identities: seq<string>, concurrency: int, expensive: int,
                                      cfg: Config, w: Worker, k: nat)
    requires New(specs, identities, concurrency, expensive) == Some(cfg) && Placed(cfg, w) && Through(cfg, w)
    requires w.pc.AtLane? || (w.pc.Sending? && w.pc.lane) || (w.pc.Storing? && w.pc.lane)
    requires k < |cfg.specs| && !CostsDear(cfg.specs[k])
    ensures cfg.specs[k].typ in TypesOf(w.results)
  {
    var i := LanePlace(cfg.specs, k);
    LaneOnly(cfg.specs, false);
    assert CostsDear(cfg.order[w.pc.i]);
    assert i < w.pc.i;
    assert TypesOf(w.results)[i] == cfg.order[i].typ;
  }
}
