/**
 The engine's results and the table of its run: what a device's events make of
 each of its rows, and that this is what its results say.
 */
module EngineTable {
  import opened RunModel
  import Engine
  import EngineTheorems
  import EngineRun
  import opened RowWords
  import opened Wrappers

  // ----- every device's rows

  /** Every logged event is about its own device. */
  ghost predicate Told(identities: seq<string>, events: seq<Engine.Logged>) {
    forall l | l in events :: l.entry < |identities| && l.event.identity == identities[l.entry]
  }

  ghost predicate Distinct(names: seq<string>) {
    forall i, j | 0 <= i < j < |names| :: names[i] != names[j]
  }

  lemma {:induction false} EventsOfLast(events: seq<Engine.Logged>, e: nat)
    requires events != []
    ensures var n := |events| - 1;
            EngineTheorems.EventsOf(events, e)
            == EngineTheorems.EventsOf(events[..n], e) + if events[n].entry == e then [events[n].event] else []
  {
    var n := |events| - 1;
    assert events == events[..n] + [events[n]];
    EngineTheorems.EventsOfAppend(events[..n], [events[n]], e);
    assert [events[n]][1..] == [];
  }

  lemma {:induction false} RunOfLast(events: seq<Engine.Logged>)
    requires events != []
    ensures EngineRun.RunOf(events) == Apply(EngineRun.RunOf(events[..|events| - 1]), events[|events| - 1].event)
  {
  }

  lemma {:induction false} RowStep(r: Run, own: seq<Event>, ev: Event, p: Pair)
    requires Rowed(r) && p.identity != "" && p.typ != "" && WordIn(r, p) == WordOf(own, p.typ)
    ensures WordIn(Apply(r, ev), p) == WordOf(own + if ev.identity == p.identity then [ev] else [], p.typ)
  {
    ApplyWord(r, ev, p);
    WordOfOneMore(own, ev, p.typ);
    assert own + [] == own;
  }

  lemma {:induction false} LastIsOwn(identities: seq<string>, events: seq<Engine.Logged>, e: nat)
    requires Distinct(identities) && events != [] && Told(identities, events) && e < |identities|
    ensures events[|events| - 1].entry == e <==> events[|events| - 1].event.identity == identities[e]
    ensures Told(identities, events[..|events| - 1])
  {
    assert events[|events| - 1] in events;
  }

  lemma {:induction false} RowsOneMore(identities: seq<string>, events: seq<Engine.Logged>, e: nat, p: Pair)
    requires Distinct(identities) && events != [] && Told(identities, events) && e < |identities|
    requires p.identity == identities[e] && p.identity != "" && p.typ != ""
    requires WordIn(EngineRun.RunOf(events[..|events| - 1]), p)
             == WordOf(EngineTheorems.EventsOf(events[..|events| - 1], e), p.typ)
    ensures WordIn(EngineRun.RunOf(events), p) == WordOf(EngineTheorems.EventsOf(events, e), p.typ)
  {
    var n := |events| - 1;
    EventsOfLast(events, e);
    LastIsOwn(identities, events, e);
    RunOfLast(events);
    RowStep(EngineRun.RunOf(events[..n]), EngineTheorems.EventsOf(events[..n], e), events[n].event, p);
  }

  /** A device's rows are what its own events make of them. */
  lemma {:induction false} RowsByDevice(identities: seq<string>, events: seq<Engine.Logged>, e: nat, typ: string)
    requires Distinct(identities) && Told(identities, events) && e < |identities| && identities[e] != "" && typ != ""
    ensures WordIn(EngineRun.RunOf(events), Pair(identities[e], typ)) == WordOf(EngineTheorems.EventsOf(events, e), typ)
    decreases |events|
  {
    if events != [] {
      LastIsOwn(identities, events, e);
      RowsByDevice(identities, events[..|events| - 1], e, typ);
      RowsOneMore(identities, events, e, Pair(identities[e], typ));
    }
  }

  // ----- a worker's books

  // The command a worker has sent and not settled.
  datatype Underway = Idle | Sent(typ: string, command: string)

  function UnderwayOf(cfg: Engine.Config, w: Engine.Worker): Underway
    requires Engine.Placed(cfg, w)
  {
    if w.pc.Sending? || w.pc.Storing? then
      Sent(cfg.order[w.pc.i].typ, cfg.order[w.pc.i].commands[w.platform].text)
    else
      Idle
  }

  /** Whether a device's events say that the command of a type was sent. */
  predicate WasSent(events: seq<Event>, typ: string) {
    events != []
    && (|| WasSent(events[..|events| - 1], typ)
        || (events[|events| - 1].kind == CaptureStart && events[|events| - 1].typ == typ))
  }

  lemma {:induction false} WasSentOneMore(events: seq<Event>, ev: Event, typ: string)
    ensures WasSent(events + [ev], typ) <==> WasSent(events, typ) || (ev.kind == CaptureStart && ev.typ == typ)
  {
    assert (events + [ev])[..|events|] == events;
  }

  /** A result's row: its state and what was stored, and its command, if that was sent. */
  ghost predicate ResultShown(own: seq<Event>, r: Engine.Result) {
    WordOf(own, r.typ) == Says(Engine.Outcome(r), if WasSent(own, r.typ) then r.command else "", r.artifact)
  }

  ghost predicate InHand(own: seq<Event>, typ: string, command: string) {
    WordOf(own, typ) == Says(InFlight, command, NO_ARTIFACT) && WasSent(own, typ)
  }

  ghost predicate Untouched(own: seq<Event>, typ: string) {
    WordOf(own, typ) == NoRow && !WasSent(own, typ)
  }

  /** What a device's events make of its rows, given its results so far and what is under way. */
  ghost predicate Books(results: seq<Engine.Result>, u: Underway, own: seq<Event>) {
    && (forall i | 0 <= i < |results| && results[i].typ != "" :: ResultShown(own, results[i]))
    && (u.Sent? && u.typ != "" ==> InHand(own, u.typ, u.command))
    && (forall typ: string | typ != "" && typ !in Engine.TypesOf(results) && !(u.Sent? && u.typ == typ) ::
          Untouched(own, typ))
  }

  /** An event about no type, or about another one, leaves a row that is not in flight as it is. */
  lemma {:induction false} OtherType(own: seq<Event>, ev: Event, typ: string)
    requires ev.typ != typ && (WordOf(own, typ).Says? && ev.kind == DeviceFail ==> WordOf(own, typ).state != InFlight)
    ensures WordOf(own + [ev], typ) == WordOf(own, typ) && (WasSent(own + [ev], typ) <==> WasSent(own, typ))
  {
    WordOfOneMore(own, ev, typ);
    WasSentOneMore(own, ev, typ);
  }

  lemma {:induction false} ResultStays(own: seq<Event>, ev: Event, r: Engine.Result)
    requires ev.typ != r.typ && ResultShown(own, r)
    ensures ResultShown(own + [ev], r)
  {
    OtherType(own, ev, r.typ);
  }

  lemma {:induction false} UntouchedStays(own: seq<Event>, ev: Event, typ: string)
    requires ev.typ != typ && Untouched(own, typ)
    ensures Untouched(own + [ev], typ)
  {
    OtherType(own, ev, typ);
  }

  /** The rows of all other types are left alone by an event. */
  lemma {:induction false} OthersStay(results: seq<Engine.Result>, u: Underway, own: seq<Event>, ev: Event)
    requires Books(results, u, own)
    ensures forall i | 0 <= i < |results| && results[i].typ != "" && results[i].typ != ev.typ ::
              ResultShown(own + [ev], results[i])
    ensures forall typ: string | typ != "" && typ !in Engine.TypesOf(results) &&
              !(u.Sent? && u.typ == typ) && typ != ev.typ ::
              Untouched(own + [ev], typ)
  {
    forall i | 0 <= i < |results| && results[i].typ != "" && results[i].typ != ev.typ
      ensures ResultShown(own + [ev], results[i])
    {
      ResultStays(own, ev, results[i]);
    }
    forall typ: string | typ != "" && typ !in Engine.TypesOf(results) && !(u.Sent? && u.typ == typ) && typ != ev.typ
      ensures Untouched(own + [ev], typ)
    {
      UntouchedStays(own, ev, typ);
    }
  }

  lemma {:induction false} QuietBooks(results: seq<Engine.Result>, own: seq<Event>, ev: Event)
    requires Books(results, Idle, own) && ev.typ == ""
    ensures Books(results, Idle, own + [ev])
  {
    OthersStay(results, Idle, own, ev);
  }

  lemma {:induction false} NotYet(results: seq<Engine.Result>, typ: string)
    requires typ !in Engine.TypesOf(results)
    ensures forall i | 0 <= i < |results| :: results[i].typ != typ
  {
    assert forall i | 0 <= i < |results| :: Engine.TypesOf(results)[i] in Engine.TypesOf(results);
  }

  lemma {:induction false} StartBooks(results: seq<Engine.Result>, own: seq<Event>, ev: Event)
    requires Books(results, Idle, own) && ev.kind == CaptureStart && ev.typ !in Engine.TypesOf(results)
    ensures Books(results, Sent(ev.typ, ev.command), own + [ev])
  {
    OthersStay(results, Idle, own, ev);
    NotYet(results, ev.typ);
    WordOfOneMore(own, ev, ev.typ);
    WasSentOneMore(own, ev, ev.typ);
  }

  /** A type's result and its event, made at one exit: they say the same, and only a stored capture has an artifact. */
  ghost predicate Exit(r: Engine.Result, ev: Event) {
    && SettlesAs(ev) != InFlight && Engine.MarkOf(r) == Engine.MarkIn(ev)
    && (SettlesAs(ev) == Stored || SettlesAs(ev) == Unchanged || r.artifact == NO_ARTIFACT)
  }

  lemma {:induction false} SettledWord(w: Word, ev: Event, r: Engine.Result)
    requires Exit(r, ev) && (w.NoRow? || (w.state == InFlight && w.artifact == NO_ARTIFACT))
    ensures NextWord(w, ev, r.typ) == Says(Engine.Outcome(r), if w.NoRow? then "" else w.command, r.artifact)
  {
  }

  lemma {:induction false} ExitShown(u: Underway, own: seq<Event>, ev: Event, r: Engine.Result)
    requires Exit(r, ev) && (u.Idle? ==> Untouched(own, r.typ))
    requires u.Sent? ==> u.typ == r.typ && u.command == r.command && InHand(own, r.typ, r.command)
    ensures ResultShown(own + [ev], r)
  {
    SettledWord(WordOf(own, r.typ), ev, r);
    WordOfOneMore(own, ev, r.typ);
    WasSentOneMore(own, ev, r.typ);
    assert ev.kind != CaptureStart;
  }

  lemma {:induction false} TypesOneMore(results: seq<Engine.Result>, r: Engine.Result)
    ensures Engine.TypesOf(results + [r]) == Engine.TypesOf(results) + [r.typ]
  {
  }

  lemma {:induction false} SettleBooks(results: seq<Engine.Result>, u: Underway, own: seq<Event>, ev: Event,
                                       r: Engine.Result)
    requires Books(results, u, own) && Exit(r, ev) && r.typ !in Engine.TypesOf(results)
    requires u.Sent? ==> u.typ == r.typ && u.command == r.command
    ensures Books(results + [r], Idle, own + [ev])
  {
    OthersStay(results, u, own, ev);
    NotYet(results, r.typ);
    TypesOneMore(results, r);
    if r.typ != "" {
      ExitShown(u, own, ev, r);
    }
  }

  // ----- every step of a worker keeps its books

  ghost predicate OneEach(cfg: Engine.Config) {
    Distinct(Engine.Types(cfg.order)) && Distinct(Engine.Types(cfg.specs))
  }

  lemma {:induction false} FreshType(types: seq<string>, i: nat)
    requires Distinct(types) && i < |types|
    ensures types[i] !in types[..i]
  {
  }

  /** Whether a turn settles a type: one more result and one event, of one exit. */
  ghost predicate Settles(w: Engine.Worker, t: Engine.Turn, typ: string, command: string) {
    && |t.emitted| == 1 && t.worker.results == w.results + [Engine.Last(t)]
    && Engine.Last(t).typ == typ && Exit(Engine.Last(t), t.emitted[0])
    && Engine.Last(t).command == command
  }

  lemma {:induction false} RunningBooks(cfg: Engine.Config, w: Engine.Worker, id: string, c: Engine.Choice,
                                        t: Engine.Turn)
    requires Engine.Placed(cfg, w) && (w.pc.Sending? || w.pc.Storing?)
    requires Engine.TurnRunning(cfg.order[w.pc.i], w, id, c) == Some(t)
    ensures if t.emitted == []
            then
              && t.worker.results == w.results && Engine.Placed(cfg, t.worker)
              && UnderwayOf(cfg, t.worker) == UnderwayOf(cfg, w)
            else Settles(w, t, UnderwayOf(cfg, w).typ, UnderwayOf(cfg, w).command) && t.worker.pc.Leaving?
  {
  }

  lemma {:induction false} AtSpecBooks(cfg: Engine.Config, w: Engine.Worker, id: string, c: Engine.Choice,
                                       cancelled: bool, t: Engine.Turn)
    requires Engine.Placed(cfg, w) && w.pc.AtSpec?
    requires Engine.TurnAtSpec(cfg.order, w, id, c, cancelled) == Some(t)
    ensures || Starts(cfg, w, t)
            || Quietly(w, t)
            || (w.pc.i < |cfg.order| && Settles(w, t, cfg.order[w.pc.i].typ, "") && t.worker.pc.AtSpec?)
  {
  }

  lemma {:induction false} AtLaneBooks(cfg: Engine.Config, w: Engine.Worker, id: string, c: Engine.Choice,
                                       cancelled: bool,
                                       lanes: int, t: Engine.Turn)
    requires Engine.Placed(cfg, w) && w.pc.AtLane?
    requires Engine.TurnAtLane(cfg, cfg.order[w.pc.i], w, id, c, cancelled, lanes) == Some(t)
    ensures Starts(cfg, w, t)
            || (&& Settles(w, t, cfg.order[w.pc.i].typ, cfg.order[w.pc.i].commands[w.platform].text)
                && t.worker.pc.AtSpec?)
  {
  }

  /** A turn that sends the command of the type a worker has come to. */
  ghost predicate Starts(cfg: Engine.Config, w: Engine.Worker, t: Engine.Turn) {
    && (w.pc.AtSpec? || w.pc.AtLane?) && w.pc.i < |cfg.order| && t.worker.results == w.results
    && |t.emitted| == 1 && t.emitted[0].kind == CaptureStart
    && Engine.Placed(cfg, t.worker) && UnderwayOf(cfg, t.worker) == Sent(t.emitted[0].typ, t.emitted[0].command)
    && t.emitted[0].typ == cfg.order[w.pc.i].typ
  }

  /** A turn that says nothing of any type. */
  ghost predicate Quietly(w: Engine.Worker, t: Engine.Turn) {
    && t.worker.results == w.results && !t.worker.pc.Sending? && !t.worker.pc.Storing?
    && |t.emitted| <= 1 && (t.emitted != [] ==> t.emitted[0].typ == "")
  }

  lemma {:induction false} OtherBooks(cfg: Engine.Config, w: Engine.Worker, id: string, c: Engine.Choice,
                                      cancelled: bool,
                                      slots: int, lanes: int, t: Engine.Turn)
    requires Engine.Placed(cfg, w) && Engine.TurnOf(cfg, w, id, c, cancelled, slots, lanes) == Some(t)
    requires !w.pc.AtSpec? && !w.pc.AtLane? && !w.pc.Sending? && !w.pc.Storing?
    ensures Quietly(w, t)
            || (&& w.pc.Failing? && w.pc.k < |cfg.specs|
                && Settles(w, t, cfg.specs[w.pc.k].typ, "") && t.worker.pc.Failing?)
  {
  }

  lemma {:induction false} QuietTurn(cfg: Engine.Config, w: Engine.Worker, t: Engine.Turn, own: seq<Event>)
    requires Engine.Placed(cfg, w) && Engine.Placed(cfg, t.worker) && Quietly(w, t)
    requires Books(w.results, Idle, own)
    ensures Books(t.worker.results, UnderwayOf(cfg, t.worker), own + t.emitted)
  {
    if t.emitted == [] {
      assert own + t.emitted == own;
    } else {
      assert t.emitted == [t.emitted[0]];
      QuietBooks(w.results, own, t.emitted[0]);
    }
  }

  lemma {:induction false} StartTurn(cfg: Engine.Config, w: Engine.Worker, t: Engine.Turn, own: seq<Event>)
    requires Engine.Placed(cfg, w) && Engine.Through(cfg, w) && OneEach(cfg) && Starts(cfg, w, t)
    requires Books(w.results, Idle, own)
    ensures Books(t.worker.results, UnderwayOf(cfg, t.worker), own + t.emitted)
  {
    FreshType(Engine.Types(cfg.order), w.pc.i);
    assert t.emitted == [t.emitted[0]];
    StartBooks(w.results, own, t.emitted[0]);
  }

  lemma {:induction false} SettleTurn(cfg: Engine.Config, w: Engine.Worker, t: Engine.Turn, own: seq<Event>,
                                      typ: string, command: string)
    requires Engine.Placed(cfg, w) && Engine.Placed(cfg, t.worker) && Settles(w, t, typ, command)
    requires typ !in Engine.TypesOf(w.results) && !t.worker.pc.Sending? && !t.worker.pc.Storing?
    requires Books(w.results, UnderwayOf(cfg, w), own)
    requires UnderwayOf(cfg, w).Sent? ==> UnderwayOf(cfg, w) == Sent(typ, command)
    ensures Books(t.worker.results, UnderwayOf(cfg, t.worker), own + t.emitted)
  {
    assert t.emitted == [t.emitted[0]];
    SettleBooks(w.results, UnderwayOf(cfg, w), own, t.emitted[0], Engine.Last(t));
  }

  lemma {:induction false} WorkerBooks(cfg: Engine.Config, w: Engine.Worker, id: string, c: Engine.Choice,
                                       cancelled: bool,
                                       slots: int, lanes: int, t: Engine.Turn, own: seq<Event>)
    requires Engine.Placed(cfg, w) && Engine.Through(cfg, w) && OneEach(cfg) && Engine.Placed(cfg, t.worker)
    requires Engine.TurnOf(cfg, w, id, c, cancelled, slots, lanes) == Some(t)
    requires Books(w.results, UnderwayOf(cfg, w), own)
    ensures Books(t.worker.results, UnderwayOf(cfg, t.worker), own + t.emitted)
  {
    if w.pc.Sending? || w.pc.Storing? {
      RunningBooks(cfg, w, id, c, t);
      FreshType(Engine.Types(cfg.order), w.pc.i);
      if t.emitted == [] {
        assert own + t.emitted == own;
      } else {
        SettleTurn(cfg, w, t, own, UnderwayOf(cfg, w).typ, UnderwayOf(cfg, w).command);
      }
    } else if w.pc.AtSpec? || w.pc.AtLane? {
      UpcomingBooks(cfg, w, id, c, cancelled, slots, lanes, t, own);
    } else {
      OtherBooks(cfg, w, id, c, cancelled, slots, lanes, t);
      if Quietly(w, t) {
        QuietTurn(cfg, w, t, own);
      } else {
        FreshType(Engine.Types(cfg.specs), w.pc.k);
        SettleTurn(cfg, w, t, own, cfg.specs[w.pc.k].typ, "");
      }
    }
  }

  lemma {:induction false} UpcomingBooks(cfg: Engine.Config, w: Engine.Worker, id: string, c: Engine.Choice,
                                         cancelled: bool,
                                         slots: int, lanes: int, t: Engine.Turn, own: seq<Event>)
    requires Engine.Placed(cfg, w) && Engine.Through(cfg, w) && OneEach(cfg) && Engine.Placed(cfg, t.worker)
    requires w.pc.AtSpec? || w.pc.AtLane?
    requires Engine.TurnOf(cfg, w, id, c, cancelled, slots, lanes) == Some(t)
    requires Books(w.results, Idle, own)
    ensures Books(t.worker.results, UnderwayOf(cfg, t.worker), own + t.emitted)
  {
    if w.pc.AtSpec? {
      AtSpecBooks(cfg, w, id, c, cancelled, t);
    } else {
      AtLaneBooks(cfg, w, id, c, cancelled, lanes, t);
    }
    if Starts(cfg, w, t) {
      StartTurn(cfg, w, t, own);
    } else if Quietly(w, t) {
      QuietTurn(cfg, w, t, own);
    } else {
      FreshType(Engine.Types(cfg.order), w.pc.i);
      SettleTurn(cfg, w, t, own, cfg.order[w.pc.i].typ, Engine.Last(t).command);
    }
  }

  // ----- every run

  ghost predicate BooksAt(cfg: Engine.Config, s: Engine.Sys, e: nat)
    requires e < |s.workers| && Engine.Placed(cfg, s.workers[e])
  {
    Books(s.workers[e].results, UnderwayOf(cfg, s.workers[e]), EngineTheorems.EventsOf(s.events, e))
  }

  ghost predicate Booked(cfg: Engine.Config, s: Engine.Sys)
    requires Engine.Shaped(cfg, s)
  {
    Told(cfg.identities, s.events) && forall e | 0 <= e < |s.workers| :: BooksAt(cfg, s, e)
  }

  lemma {:induction false} LogTold(identities: seq<string>, events: seq<Engine.Logged>, e: nat, emitted: seq<Event>)
    requires Told(identities, events) && e < |identities| && |emitted| <= 1
    requires forall ev | ev in emitted :: ev.identity == identities[e]
    ensures Told(identities, events + Engine.Log(e, emitted))
  {
    if emitted != [] {
      assert emitted == [emitted[0]];
      EngineTheorems.LogOne(e, emitted[0]);
    }
  }

  lemma {:induction false} TakenTold(cfg: Engine.Config, s: Engine.Sys, who: nat, c: Engine.Choice, t: Engine.Turn)
    requires Engine.Shaped(cfg, s) && Told(cfg.identities, s.events) && who < |s.workers|
    requires Engine.Turned(cfg, s, who, c) == Some(t)
    ensures Told(cfg.identities, Engine.Taken(s, who, t).events)
  {
    EngineRun.WorkerHonors(cfg, s.workers[who], cfg.identities[who], c, s.cancelled, s.slots, s.lanes, t);
    LogTold(cfg.identities, s.events, who, t.emitted);
  }

  lemma {:induction false} OwnBooks(cfg: Engine.Config, s: Engine.Sys, who: nat, c: Engine.Choice, t: Engine.Turn)
    requires Engine.Shaped(cfg, s) && OneEach(cfg) && who < |s.workers| && Engine.Through(cfg, s.workers[who])
    requires BooksAt(cfg, s, who) && Engine.Turned(cfg, s, who, c) == Some(t) && Engine.Placed(cfg, t.worker)
    ensures BooksAt(cfg, Engine.Taken(s, who, t), who)
  {
    EngineTheorems.TakenEvents(s, who, t, who);
    WorkerBooks(cfg, s.workers[who], cfg.identities[who], c, s.cancelled, s.slots, s.lanes, t,
                EngineTheorems.EventsOf(s.events, who));
  }

  lemma {:induction false} OthersBooks(cfg: Engine.Config, s: Engine.Sys, who: nat, t: Engine.Turn, e: nat)
    requires Engine.Shaped(cfg, s) && who < |s.workers| && e < |s.workers| && e != who && BooksAt(cfg, s, e)
    ensures BooksAt(cfg, Engine.Taken(s, who, t), e)
  {
    EngineTheorems.TakenEvents(s, who, t, e);
    assert EngineTheorems.EventsOf(s.events, e) + [] == EngineTheorems.EventsOf(s.events, e);
  }

  lemma {:induction false} TakenBooked(cfg: Engine.Config, s: Engine.Sys, who: nat, c: Engine.Choice, t: Engine.Turn)
    requires Engine.Shaped(cfg, s) && OneEach(cfg) && Booked(cfg, s) && who < |s.workers|
    requires Engine.Through(cfg, s.workers[who])
    requires Engine.Turned(cfg, s, who, c) == Some(t) && Engine.Placed(cfg, t.worker)
    ensures Engine.Shaped(cfg, Engine.Taken(s, who, t)) && Booked(cfg, Engine.Taken(s, who, t))
  {
    TakenTold(cfg, s, who, c, t);
    OwnBooks(cfg, s, who, c, t);
    forall e | 0 <= e < |s.workers|
      ensures BooksAt(cfg, Engine.Taken(s, who, t), e)
    {
      if e != who {
        OthersBooks(cfg, s, who, t, e);
      }
    }
  }

  lemma {:induction false} ActBooked(cfg: Engine.Config, s: Engine.Sys, step: Engine.Step)
    requires EngineTheorems.Good(cfg, s) && OneEach(cfg) && Booked(cfg, s) && Engine.Enabled(cfg, s, step)
    ensures Engine.Shaped(cfg, Engine.Act(cfg, s, step)) && Booked(cfg, Engine.Act(cfg, s, step))
  {
    if step.Work? {
      var e, t := step.entry, Engine.Turned(cfg, s, step.entry, step.choice).value;
      Engine.WorkerAdvances(cfg, s.workers[e], cfg.identities[e], step.choice, s.cancelled, s.slots, s.lanes, t);
      TakenBooked(cfg, s, e, step.choice, t);
    } else {
      forall e | 0 <= e < |s.workers|
        ensures BooksAt(cfg, Engine.Act(cfg, s, step), e)
      {
        assert BooksAt(cfg, s, e);
      }
    }
  }

  lemma {:induction false} RanBooked(cfg: Engine.Config, s: Engine.Sys, steps: seq<Engine.Step>)
    requires EngineTheorems.Good(cfg, s) && OneEach(cfg) && Booked(cfg, s) && EngineTheorems.CanRun(cfg, s, steps)
    ensures Booked(cfg, EngineTheorems.Ran(cfg, s, steps))
    decreases |steps|
  {
    if steps != [] {
      EngineTheorems.ActGood(cfg, s, steps[0]);
      ActBooked(cfg, s, steps[0]);
      RanBooked(cfg, Engine.Act(cfg, s, steps[0]), steps[1..]);
    }
  }

  lemma {:induction false} TimesTwice(types: seq<string>, i: nat, j: nat)
    requires i < j < |types| && types[i] == types[j]
    ensures Engine.TimesIn(types, types[i]) >= 2
  {
    if i > 0 {
      TimesTwice(types[1..], i - 1, j - 1);
    } else {
      TimesAtLeastOnce(types[1..], j - 1);
    }
  }

  lemma {:induction false} TimesAtLeastOnce(types: seq<string>, i: nat)
    requires i < |types|
    ensures Engine.TimesIn(types, types[i]) >= 1
  {
    if i > 0 {
      TimesAtLeastOnce(types[1..], i - 1);
    }
  }

  /** A configuration New accepts has each type once, in either order. */
  lemma {:induction false} NewOneEach(specs: seq<Engine.Spec>, identities: seq<string>, concurrency: int,
                                      expensive: int,
                                      cfg: Engine.Config)
    requires Engine.New(specs, identities, concurrency, expensive) == Some(cfg)
    ensures OneEach(cfg)
  {
    forall i, j | 0 <= i < j < |Engine.Types(cfg.order)|
      ensures Engine.Types(cfg.order)[i] != Engine.Types(cfg.order)[j]
    {
      EngineTheorems.NewIsReady(specs, identities, concurrency, expensive, cfg, Engine.Types(cfg.order)[i]);
      if Engine.Types(cfg.order)[i] == Engine.Types(cfg.order)[j] {
        TimesTwice(Engine.Types(cfg.order), i, j);
      }
    }
  }

  lemma {:induction false} StartBooked(cfg: Engine.Config)
    ensures Engine.Shaped(cfg, Engine.Start(cfg)) && Booked(cfg, Engine.Start(cfg))
  {
  }

  lemma {:induction false} BooksShow(results: seq<Engine.Result>, u: Underway, own: seq<Event>, i: nat)
    requires Books(results, u, own) && i < |results| && results[i].typ != ""
    ensures ResultShown(own, results[i])
  {
  }

  /**
   What the table shows of a device's result, given the device's events: its
   state, what was stored, and what was sent.
  */
  ghost predicate TableShows(r: Run, identity: string, own: seq<Event>, found: Engine.Result) {
    var p := Pair(identity, found.typ);
    && p in r.rows && r.rows[p].state == Engine.Outcome(found) && r.rows[p].artifact == found.artifact
    && r.rows[p].command == if WasSent(own, found.typ) then found.command else ""
  }

  /**
   In any run over different devices, each result a device has handed in has its
   row, with its state and what it stored; and with its command, exactly if that
   was sent or there is none.
   */
  lemma {:induction false} ResultsAreShown(specs: seq<Engine.Spec>, identities: seq<string>, concurrency: int,
                                           expensive: int,
                                           cfg: Engine.Config, steps: seq<Engine.Step>, e: nat, i: nat)
    requires Engine.New(specs, identities, concurrency, expensive) == Some(cfg) && Distinct(identities)
    requires EngineRun.Runs(cfg, steps) && e < |identities| && identities[e] != ""
    requires i < |EngineTheorems.FoundOf(EngineRun.EndOf(cfg, steps).out, e)|
    requires EngineTheorems.FoundOf(EngineRun.EndOf(cfg, steps).out, e)[i].typ != ""
    ensures var s := EngineRun.EndOf(cfg, steps);
            var own, found := EngineTheorems.EventsOf(s.events, e), EngineTheorems.FoundOf(s.out, e)[i];
            && TableShows(EngineRun.RunOf(s.events), identities[e], own, found)
            && (EngineRun.RunOf(s.events).rows[Pair(identities[e], found.typ)].command == found.command
                <==> WasSent(own, found.typ) || found.command == "")
  {
    var s := EngineRun.EndOf(cfg, steps);
    EngineTheorems.NewIsReady(specs, identities, concurrency, expensive, cfg, "");
    BookedAtEnd(specs, identities, concurrency, expensive, cfg, steps);
    assert EngineTheorems.Accounted(s, e) && BooksAt(cfg, s, e);
    BooksShow(s.workers[e].results, UnderwayOf(cfg, s.workers[e]), EngineTheorems.EventsOf(s.events, e), i);
    RowsByDevice(identities, s.events, e, s.workers[e].results[i].typ);
  }

  lemma {:induction false} BookedAtEnd(specs: seq<Engine.Spec>, identities: seq<string>, concurrency: int,
                                       expensive: int,
                                       cfg: Engine.Config, steps: seq<Engine.Step>)
    requires Engine.New(specs, identities, concurrency, expensive) == Some(cfg) && EngineRun.Runs(cfg, steps)
    ensures EngineTheorems.Good(cfg, EngineRun.EndOf(cfg, steps)) && Booked(cfg, EngineRun.EndOf(cfg, steps))
  {
    NewOneEach(specs, identities, concurrency, expensive, cfg);
    EngineTheorems.StartGood(cfg);
    StartBooked(cfg);
    RanBooked(cfg, Engine.Start(cfg), steps);
  }

  lemma {:induction false} TypeAt(results: seq<Engine.Result>, typ: string) returns (i: nat)
    requires Engine.TimesIn(Engine.TypesOf(results), typ) > 0
    ensures i < |results| && results[i].typ == typ
  {
    if results[0].typ == typ {
      i := 0;
    } else {
      i := TypeAt(results[1..], typ);
      i := i + 1;
    }
  }

  /** When a device's worker is done, every type selected has its row, and one result that the row shows. */
  lemma {:induction false} EveryTypeIsShown(specs: seq<Engine.Spec>, identities: seq<string>, concurrency: int,
                                            expensive: int,
                                            cfg: Engine.Config, steps: seq<Engine.Step>, e: nat, typ: string)
    returns (found: Engine.Result)
    requires Engine.New(specs, identities, concurrency, expensive) == Some(cfg) && Distinct(identities)
    requires EngineRun.Runs(cfg, steps) && e < |identities| && identities[e] != ""
    requires e < |EngineRun.EndOf(cfg, steps).workers| && EngineRun.EndOf(cfg, steps).workers[e].pc.Returned?
    requires typ in Engine.Types(specs) && typ != ""
    ensures var s := EngineRun.EndOf(cfg, steps);
            && found in EngineTheorems.FoundOf(s.out, e) && found.typ == typ
            && Engine.TimesIn(Engine.TypesOf(EngineTheorems.FoundOf(s.out, e)), typ) == 1
            && TableShows(EngineRun.RunOf(s.events), identities[e], EngineTheorems.EventsOf(s.events, e), found)
  {
    var s := EngineRun.EndOf(cfg, steps);
    BookedAtEnd(specs, identities, concurrency, expensive, cfg, steps);
    EngineTheorems.ExactlyOneEach(specs, identities, concurrency, expensive, cfg, s, e, typ);
    var i := TypeAt(EngineTheorems.FoundOf(s.out, e), typ);
    found := EngineTheorems.FoundOf(s.out, e)[i];
    ResultsAreShown(specs, identities, concurrency, expensive, cfg, steps, e, i);
  }

  /** The result of a worker cancelled while it waits for the expensive lane. */
  function CancelledResult(cfg: Engine.Config, w: Engine.Worker, why: string): Engine.Result
    requires Engine.Placed(cfg, w) && w.pc.AtLane?
  {
    var spec := cfg.order[w.pc.i];
    Engine.Tried(spec.typ, w.platform).(command := spec.commands[w.platform].text, err := Some(why))
  }

  lemma {:induction false} LaneTurn(cfg: Engine.Config, s: Engine.Sys, e: nat, why: string) returns (t: Engine.Turn)
    requires Engine.Shaped(cfg, s) && e < |s.workers| && s.workers[e].pc.AtLane? && s.cancelled
    ensures Engine.Turned(cfg, s, e, Engine.NoticeCancel(why)) == Some(t)
    ensures t.worker.results == s.workers[e].results + [CancelledResult(cfg, s.workers[e], why)]
    ensures |t.emitted| == 1 && t.emitted[0].kind == CaptureFail && Engine.Placed(cfg, t.worker) && t.worker.pc.AtSpec?
  {
    t := Engine.Turned(cfg, s, e, Engine.NoticeCancel(why)).value;
  }

  lemma {:induction false} NeverSent(cfg: Engine.Config, s: Engine.Sys, e: nat)
    requires Engine.Shaped(cfg, s) && e < |s.workers| && s.workers[e].pc.AtLane? && OneEach(cfg)
    requires Engine.Through(cfg, s.workers[e]) && BooksAt(cfg, s, e) && cfg.order[s.workers[e].pc.i].typ != ""
    ensures !WasSent(EngineTheorems.EventsOf(s.events, e), cfg.order[s.workers[e].pc.i].typ)
  {
    FreshType(Engine.Types(cfg.order), s.workers[e].pc.i);
  }

  /**
   Where row and result differ: a worker cancelled while it waits for the
   expensive lane gets a result with the command it would have sent, and the row
   shows none.
   */
  lemma {:induction false} CancelledInLane(cfg: Engine.Config, s: Engine.Sys, e: nat, why: string)
    requires EngineTheorems.Good(cfg, s) && OneEach(cfg) && Booked(cfg, s) && Distinct(cfg.identities)
    requires e < |s.workers| && s.workers[e].pc.AtLane? && s.cancelled
    requires cfg.identities[e] != "" && cfg.order[s.workers[e].pc.i].typ != ""
    ensures Engine.Enabled(cfg, s, Engine.Work(e, Engine.NoticeCancel(why)))
    ensures var s' := Engine.Act(cfg, s, Engine.Work(e, Engine.NoticeCancel(why)));
            var found := CancelledResult(cfg, s.workers[e], why);
            && s'.workers[e].results == s.workers[e].results + [found]
            && TableShows(EngineRun.RunOf(s'.events), cfg.identities[e], EngineTheorems.EventsOf(s'.events, e), found)
            && EngineRun.RunOf(s'.events).rows[Pair(cfg.identities[e], found.typ)].command == ""
  {
    var t := LaneTurn(cfg, s, e, why);
    assert BooksAt(cfg, s, e);
    NeverSent(cfg, s, e);
    CancelledBooks(cfg, s, e, why, t);
    RowsByDevice(cfg.identities, Engine.Taken(s, e, t).events, e, CancelledResult(cfg, s.workers[e], why).typ);
  }

  lemma {:induction false} CancelledBooks(cfg: Engine.Config, s: Engine.Sys, e: nat, why: string, t: Engine.Turn)
    requires EngineTheorems.Good(cfg, s) && OneEach(cfg) && Booked(cfg, s)
    requires e < |s.workers| && s.workers[e].pc.AtLane? && cfg.order[s.workers[e].pc.i].typ != ""
    requires !WasSent(EngineTheorems.EventsOf(s.events, e), cfg.order[s.workers[e].pc.i].typ)
    requires Engine.Turned(cfg, s, e, Engine.NoticeCancel(why)) == Some(t)
    requires t.worker.results == s.workers[e].results + [CancelledResult(cfg, s.workers[e], why)]
    requires |t.emitted| == 1 && t.emitted[0].kind == CaptureFail && Engine.Placed(cfg, t.worker)
    ensures var own := EngineTheorems.EventsOf(Engine.Taken(s, e, t).events, e);
            var found := CancelledResult(cfg, s.workers[e], why);
            ResultShown(own, found) && !WasSent(own, found.typ) && Told(cfg.identities, Engine.Taken(s, e, t).events)
  {
    var own := EngineTheorems.EventsOf(s.events, e);
    TakenBooked(cfg, s, e, Engine.NoticeCancel(why), t);
    EngineTheorems.TakenEvents(s, e, t, e);
    assert t.emitted == [t.emitted[0]];
    WasSentOneMore(own, t.emitted[0], cfg.order[s.workers[e].pc.i].typ);
    assert BooksAt(cfg, Engine.Taken(s, e, t), e);
    BooksShow(t.worker.results, UnderwayOf(cfg, t.worker), EngineTheorems.EventsOf(Engine.Taken(s, e, t).events, e),
              |s.workers[e].results|);
  }
}
