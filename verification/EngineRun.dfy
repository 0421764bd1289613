/**
 The engine's events seen through the run model: a row in flight is always a
 command some worker has under way, so an engine that is done leaves none.
 */
module EngineRun {
  import opened RunModel
  import opened RunTheorems
  import Engine
  import EngineTheorems
  import opened RowWords
  import opened Wrappers

  /** The run model after the engine's events, in the order they were emitted. */
  ghost function RunOf(events: seq<Engine.Logged>): (r: Run)
    ensures Honest(r)
    decreases |events|
  {
    if events == [] then NEW_RUN else Next(RunOf(events[..|events| - 1]), Emit(events[|events| - 1].event))
  }

  /** The engine's kinds of events that name a type: they open its row, and all but one settle it. */
  predicate Tells(ev: Event) {
    ev.typ != "" ==> ev.kind == CaptureStart || SettlesAs(ev) != InFlight
  }

  ghost predicate Addressed(r: Run) {
    forall p | p in r.rows :: p.identity != "" && p.typ != ""
  }

  /** A row in flight after an event was in flight before it and is another's, or has just been started. */
  ghost predicate FlightFrom(r: Run, r': Run, ev: Event) {
    forall p | p in r'.rows && r'.rows[p].state == InFlight ::
      if p == Pair(ev.identity, ev.typ)
      then (p in r.rows && SettlesAs(ev) == InFlight && r.rows[p].state == InFlight) || ev.kind == CaptureStart
      else p in r.rows && r.rows[p].state == InFlight
  }

  /** A row that is in flight after an event of its device was in flight before, or has just been started. */
  lemma {:induction false} StillInFlight(w: Word, ev: Event, typ: string)
    requires Tells(ev) && typ != "" && NextWord(w, ev, typ).Says? && NextWord(w, ev, typ).state == InFlight
    ensures (ev.typ == typ && ev.kind == CaptureStart) || (w.Says? && w.state == InFlight)
    ensures ev.typ == typ && ev.kind != CaptureStart && ev.kind != DeviceFail ==> SettlesAs(ev) == InFlight
  {
  }

  lemma {:induction false} FlightAt(r: Run, ev: Event, p: Pair)
    requires Rowed(r) && Tells(ev) && (ev.kind == DeviceFail ==> ev.typ == "") && p.identity != "" && p.typ != ""
    requires p in Apply(r, ev).rows && Apply(r, ev).rows[p].state == InFlight
    ensures if p == Pair(ev.identity, ev.typ)
            then (p in r.rows && SettlesAs(ev) == InFlight && r.rows[p].state == InFlight) || ev.kind == CaptureStart
            else p in r.rows && r.rows[p].state == InFlight
  {
    ApplyWord(r, ev, p);
    if p.identity == ev.identity {
      StillInFlight(WordIn(r, p), ev, p.typ);
    }
  }

  lemma {:induction false} ApplyFlight(r: Run, ev: Event)
    requires Rowed(r) && Tells(ev) && (ev.kind == DeviceFail ==> ev.typ == "") && Addressed(r)
    ensures FlightFrom(r, Apply(r, ev), ev)
  {
    ApplyAddressed(r, ev);
    forall p | p in Apply(r, ev).rows && Apply(r, ev).rows[p].state == InFlight
      ensures if p == Pair(ev.identity, ev.typ)
              then (p in r.rows && SettlesAs(ev) == InFlight && r.rows[p].state == InFlight) || ev.kind == CaptureStart
              else p in r.rows && r.rows[p].state == InFlight
    {
      FlightAt(r, ev, p);
    }
  }

  /** No device or type without a name gets a row. */
  lemma {:induction false} ApplyAddressed(r: Run, ev: Event)
    requires Rowed(r) && Addressed(r)
    ensures Addressed(Apply(r, ev))
  {
    ApplyOpens(r, ev);
  }

  // ----- whose row it is

  /** The worker has sent the pair's command and not yet settled it. */
  ghost predicate Busy(cfg: Engine.Config, w: Engine.Worker, id: string, p: Pair) {
    && (w.pc.Sending? || w.pc.Storing?) && w.pc.i < |cfg.order|
    && p == Pair(id, cfg.order[w.pc.i].typ)
  }

  /** What a worker's step says of rows in flight. */
  ghost predicate Honors(cfg: Engine.Config, w: Engine.Worker, id: string, t: Engine.Turn) {
    && |t.emitted| <= 1
    && (forall ev | ev in t.emitted ::
          ev.identity == id && Tells(ev) && (ev.kind == DeviceFail ==> ev.typ == "")
          && (ev.kind == CaptureStart ==> Busy(cfg, t.worker, id, Pair(id, ev.typ))))
    && (forall p | Busy(cfg, w, id, p) ::
          || Busy(cfg, t.worker, id, p)
          || (|t.emitted| == 1 && SettlesAs(t.emitted[0]) != InFlight && p == Pair(id, t.emitted[0].typ)))
  }

  lemma {:induction false} RunningHonors(cfg: Engine.Config, w: Engine.Worker, id: string, c: Engine.Choice,
                                         t: Engine.Turn)
    requires Engine.Placed(cfg, w) && (w.pc.Sending? || w.pc.Storing?)
    requires Engine.TurnRunning(cfg.order[w.pc.i], w, id, c) == Some(t)
    ensures Honors(cfg, w, id, t)
  {
  }

  lemma {:induction false} AtSpecHonors(cfg: Engine.Config, w: Engine.Worker, id: string, c: Engine.Choice,
                                        cancelled: bool, t: Engine.Turn)
    requires Engine.Placed(cfg, w) && w.pc.AtSpec?
    requires Engine.TurnAtSpec(cfg.order, w, id, c, cancelled) == Some(t)
    ensures Honors(cfg, w, id, t)
  {
  }

  lemma {:induction false} AtLaneHonors(cfg: Engine.Config, w: Engine.Worker, id: string, c: Engine.Choice,
                                        cancelled: bool,
                                        lanes: int, t: Engine.Turn)
    requires Engine.Placed(cfg, w) && w.pc.AtLane?
    requires Engine.TurnAtLane(cfg, cfg.order[w.pc.i], w, id, c, cancelled, lanes) == Some(t)
    ensures Honors(cfg, w, id, t)
  {
  }

  lemma {:induction false} OtherHonors(cfg: Engine.Config, w: Engine.Worker, id: string, c: Engine.Choice,
                                       cancelled: bool,
                                       slots: int, lanes: int, t: Engine.Turn)
    requires Engine.Placed(cfg, w) && Engine.TurnOf(cfg, w, id, c, cancelled, slots, lanes) == Some(t)
    requires !w.pc.AtSpec? && !w.pc.AtLane? && !w.pc.Sending? && !w.pc.Storing?
    ensures Honors(cfg, w, id, t)
  {
  }

  lemma {:induction false} WorkerHonors(cfg: Engine.Config, w: Engine.Worker, id: string, c: Engine.Choice,
                                        cancelled: bool,
                                        slots: int, lanes: int, t: Engine.Turn)
    requires Engine.Placed(cfg, w) && Engine.TurnOf(cfg, w, id, c, cancelled, slots, lanes) == Some(t)
    ensures Honors(cfg, w, id, t)
  {
    if w.pc.Sending? || w.pc.Storing? {
      RunningHonors(cfg, w, id, c, t);
    } else if w.pc.AtSpec? {
      AtSpecHonors(cfg, w, id, c, cancelled, t);
    } else if w.pc.AtLane? {
      AtLaneHonors(cfg, w, id, c, cancelled, lanes, t);
    } else {
      OtherHonors(cfg, w, id, c, cancelled, slots, lanes, t);
    }
  }

  /** Every row in flight is the command of some worker that has sent it and not settled it. */
  ghost predicate Flown(cfg: Engine.Config, s: Engine.Sys)
    requires |s.workers| == |cfg.identities|
  {
    && Addressed(RunOf(s.events))
    && forall p | p in RunOf(s.events).rows && RunOf(s.events).rows[p].state == InFlight ::
         exists e: nat :: e < |s.workers| && Busy(cfg, s.workers[e], cfg.identities[e], p)
  }

  lemma {:induction false} RunOfLog(events: seq<Engine.Logged>, e: nat, emitted: seq<Event>)
    requires |emitted| <= 1
    ensures RunOf(events + Engine.Log(e, emitted))
         == if emitted == [] then RunOf(events) else Next(RunOf(events), Emit(emitted[0]))
  {
    var logged := Engine.Log(e, emitted);
    if emitted == [] {
      assert events + logged == events;
    } else {
      EngineTheorems.LogOne(e, emitted[0]);
      assert emitted == [emitted[0]];
      assert (events + logged)[..|events + logged| - 1] == events;
    }
  }

  lemma {:induction false} TakenFlown(cfg: Engine.Config, s: Engine.Sys, who: nat, t: Engine.Turn)
    requires Engine.Shaped(cfg, s) && Flown(cfg, s) && who < |s.workers|
    requires Honors(cfg, s.workers[who], cfg.identities[who], t)
    ensures Flown(cfg, Engine.Taken(s, who, t))
  {
    var s', r := Engine.Taken(s, who, t), RunOf(s.events);
    RunOfLog(s.events, who, t.emitted);
    if t.emitted != [] {
      ApplyAddressed(r, t.emitted[0]);
      ApplyFlight(r, t.emitted[0]);
    }
    var r' := RunOf(s'.events);
    forall p | p in r'.rows && r'.rows[p].state == InFlight
      ensures exists e: nat :: e < |s'.workers| && Busy(cfg, s'.workers[e], cfg.identities[e], p)
    {
      var e := StillBusy(cfg, s, who, t, p);
    }
  }

  /** A turn leaves everyone busy who was, but for a worker that settles what it was busy with. */
  lemma {:induction false} BusyKept(cfg: Engine.Config, s: Engine.Sys, who: nat, t: Engine.Turn, p: Pair, e: nat)
    requires Engine.Shaped(cfg, s) && who < |s.workers| && e < |s.workers|
    requires Honors(cfg, s.workers[who], cfg.identities[who], t) && Busy(cfg, s.workers[e], cfg.identities[e], p)
    requires t.emitted != [] && p == Pair(cfg.identities[who], t.emitted[0].typ) ==> SettlesAs(t.emitted[0]) == InFlight
    ensures Busy(cfg, s.workers[who := t.worker][e], cfg.identities[e], p)
  {
  }

  lemma {:induction false} StillBusy(cfg: Engine.Config, s: Engine.Sys, who: nat, t: Engine.Turn,
                                     p: Pair) returns (e: nat)
    requires Engine.Shaped(cfg, s) && Flown(cfg, s) && who < |s.workers|
    requires Honors(cfg, s.workers[who], cfg.identities[who], t)
    requires t.emitted == [] ==> p in RunOf(s.events).rows && RunOf(s.events).rows[p].state == InFlight
    requires t.emitted != [] ==> p in Apply(RunOf(s.events), t.emitted[0]).rows
                                 && Apply(RunOf(s.events), t.emitted[0]).rows[p].state == InFlight
                                 && FlightFrom(RunOf(s.events), Apply(RunOf(s.events), t.emitted[0]), t.emitted[0])
    ensures e < |s.workers| && Busy(cfg, s.workers[who := t.worker][e], cfg.identities[e], p)
  {
    if t.emitted != [] && p == Pair(t.emitted[0].identity, t.emitted[0].typ) && t.emitted[0].kind == CaptureStart {
      e := who;
    } else {
      e :| e < |s.workers| && Busy(cfg, s.workers[e], cfg.identities[e], p);
      BusyKept(cfg, s, who, t, p, e);
    }
  }

  lemma {:induction false} StartFlown(cfg: Engine.Config)
    ensures Flown(cfg, Engine.Start(cfg))
  {
  }

  lemma {:induction false} ActFlown(cfg: Engine.Config, s: Engine.Sys, step: Engine.Step)
    requires Engine.Shaped(cfg, s) && Engine.Enabled(cfg, s, step) && Flown(cfg, s)
    ensures |Engine.Act(cfg, s, step).workers| == |cfg.identities| && Flown(cfg, Engine.Act(cfg, s, step))
  {
    if step.Work? {
      var e, t := step.entry, Engine.Turned(cfg, s, step.entry, step.choice).value;
      WorkerHonors(cfg, s.workers[e], cfg.identities[e], step.choice, s.cancelled, s.slots, s.lanes, t);
      TakenFlown(cfg, s, e, t);
    }
  }

  /** Throughout a run, a row in flight has a worker that will settle it. */
  lemma {:induction false} RanFlown(cfg: Engine.Config, s: Engine.Sys, steps: seq<Engine.Step>)
    requires EngineTheorems.Good(cfg, s) && EngineTheorems.CanRun(cfg, s, steps) && Flown(cfg, s)
    ensures Flown(cfg, EngineTheorems.Ran(cfg, s, steps))
    decreases |steps|
  {
    if steps != [] {
      EngineTheorems.ActGood(cfg, s, steps[0]);
      ActFlown(cfg, s, steps[0]);
      RanFlown(cfg, Engine.Act(cfg, s, steps[0]), steps[1..]);
    }
  }

  lemma {:induction false} NoneInFlight(cfg: Engine.Config, s: Engine.Sys, p: Pair)
    requires |s.workers| == |cfg.identities| && Flown(cfg, s)
    requires forall e | 0 <= e < |s.workers| :: s.workers[e].pc.Returned?
    requires p in RunOf(s.events).rows
    ensures RunOf(s.events).rows[p].state != InFlight
  {
  }

  ghost predicate Runs(cfg: Engine.Config, steps: seq<Engine.Step>) {
    EngineTheorems.Ready(cfg) && (EngineTheorems.StartGood(cfg); EngineTheorems.CanRun(cfg, Engine.Start(cfg), steps))
  }

  ghost function EndOf(cfg: Engine.Config, steps: seq<Engine.Step>): Engine.Sys
    requires Runs(cfg, steps)
  {
    EngineTheorems.StartGood(cfg);
    EngineTheorems.Ran(cfg, Engine.Start(cfg), steps)
  }

  lemma {:induction false} EndFlown(cfg: Engine.Config, steps: seq<Engine.Step>)
    requires Runs(cfg, steps)
    ensures |EndOf(cfg, steps).workers| == |cfg.identities| && Flown(cfg, EndOf(cfg, steps))
  {
    EngineTheorems.StartGood(cfg);
    StartFlown(cfg);
    RanFlown(cfg, Engine.Start(cfg), steps);
  }

  /**
   However the run went, an engine whose workers are done has settled every row
   it opened: finishing the run changes none of them, so the reason kept for a
   missing result is never given.
   */
  lemma {:induction false} DoneLeavesNoneInFlight(cfg: Engine.Config, steps: seq<Engine.Step>, p: Pair)
    requires Runs(cfg, steps) && p in RunOf(EndOf(cfg, steps).events).rows
    requires forall w | w in EndOf(cfg, steps).workers :: w.pc.Returned?
    ensures RunOf(EndOf(cfg, steps).events).rows[p].state != InFlight
    ensures Finish(RunOf(EndOf(cfg, steps).events)).rows[p] == RunOf(EndOf(cfg, steps).events).rows[p]
  {
    EndFlown(cfg, steps);
    NoneInFlight(cfg, EndOf(cfg, steps), p);
    FinishSettles(RunOf(EndOf(cfg, steps).events), p);
  }
}
