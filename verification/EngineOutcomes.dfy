/**
 What each answer leads to (internal/capture/capture.go): in any run of the
 engine, the result a worker keeps, and the row the table shows, for every answer
 the device, the store or a cancel can give it.
 */
module EngineOutcomes {
  import opened RunModel
  import opened RunTheorems
  import opened RowWords
  import opened Wrappers
  import Engine
  import EngineTheorems
  import EngineRun
  import EngineTable

  // ----- what a step adds

  /** Whether a worker takes an answer. */
  ghost predicate Can(cfg: Engine.Config, s: Engine.Sys, e: nat, c: Engine.Choice) {
    Engine.Shaped(cfg, s) && Engine.Enabled(cfg, s, Engine.Work(e, c))
  }

  function After(cfg: Engine.Config, s: Engine.Sys, e: nat, c: Engine.Choice): Engine.Sys
    requires Engine.Shaped(cfg, s) && Engine.Enabled(cfg, s, Engine.Work(e, c))
  {
    Engine.Act(cfg, s, Engine.Work(e, c))
  }

  /** One worker gains one result; nothing else of anyone's results or whereabouts changes. */
  ghost predicate Gains(s: Engine.Sys, s': Engine.Sys, e: nat, found: Engine.Result) {
    && e < |s.workers| && |s'.workers| == |s.workers| && s'.out == s.out
    && s'.workers[e].results == s.workers[e].results + [found]
    && forall d | 0 <= d < |s.workers| && d != e :: s'.workers[d] == s.workers[d]
  }

  /** The spec a worker is at: that of the order it has as many results before. */
  function SpecAt(cfg: Engine.Config, s: Engine.Sys, e: nat): Engine.Spec
    requires e < |s.workers| && |s.workers[e].results| < |cfg.order|
  {
    cfg.order[|s.workers[e].results|]
  }

  /** A device's row of a type, if the two have names, has a state and a detail. */
  ghost predicate RowSays(cfg: Engine.Config, s: Engine.Sys, e: nat, typ: string, state: RowState, detail: Detail)
    requires e < |cfg.identities|
  {
    cfg.identities[e] != "" && typ != "" ==>
      && RowOf(cfg, s, e, typ).Some?
      && RowOf(cfg, s, e, typ).value.state == state && RowOf(cfg, s, e, typ).value.detail == detail
  }

  /** Words, or that no reason was given. */
  function Given(why: string): Detail {
    if why != "" then Said(why) else NoReasonGiven
  }

  /** That there is no command for a platform. */
  function NoCommandOn(platform: string): Detail {
    if platform != "" then NoCommandFor(platform) else NoCommand
  }

  /** The row of one of a device's types. */
  ghost function RowOf(cfg: Engine.Config, s: Engine.Sys, e: nat, typ: string): Option<Row>
    requires e < |cfg.identities|
  {
    var rows, p := EngineRun.RunOf(s.events).rows, Pair(cfg.identities[e], typ);
    if p in rows then Some(rows[p]) else None
  }

  /** A configuration that New gives. */
  ghost predicate Accepted(cfg: Engine.Config) {
    exists concurrency, expensive :: Engine.New(cfg.specs, cfg.identities, concurrency, expensive) == Some(cfg)
  }

  /** The system after some steps of a run over different devices. */
  ghost predicate Reaches(cfg: Engine.Config, steps: seq<Engine.Step>, s: Engine.Sys) {
    Accepted(cfg) && EngineTable.Distinct(cfg.identities) && EngineRun.Runs(cfg, steps)
    && s == EngineRun.EndOf(cfg, steps)
  }

  ghost predicate Reached(cfg: Engine.Config, s: Engine.Sys) {
    EngineTheorems.Good(cfg, s) && EngineTable.OneEach(cfg) && EngineTable.Booked(cfg, s)
    && EngineTable.Distinct(cfg.identities)
  }

  /** A run keeps limits, accounts and books. */
  lemma {:induction false} RunsReach(cfg: Engine.Config, steps: seq<Engine.Step>, s: Engine.Sys)
    requires Reaches(cfg, steps, s)
    ensures Reached(cfg, s)
  {
    var concurrency, expensive :| Engine.New(cfg.specs, cfg.identities, concurrency, expensive) == Some(cfg);
    EngineTheorems.NewIsReady(cfg.specs, cfg.identities, concurrency, expensive, cfg, "");
    EngineTable.NewOneEach(cfg.specs, cfg.identities, concurrency, expensive, cfg);
    EngineTable.BookedAtEnd(cfg.specs, cfg.identities, concurrency, expensive, cfg, steps);
  }

  lemma {:induction false} NotInBooks(results: seq<Engine.Result>, u: EngineTable.Underway, own: seq<Event>,
                                      typ: string)
    requires EngineTable.Books(results, u, own) && typ != "" && typ !in Engine.TypesOf(results)
    ensures WordOf(own, typ).Says? ==> WordOf(own, typ).state == InFlight
  {
  }

  /** A type without a result has no row yet, or one in flight. */
  lemma {:induction false} NotSettledYet(cfg: Engine.Config, s: Engine.Sys, e: nat, typ: string)
    requires Reached(cfg, s) && e < |s.workers| && cfg.identities[e] != "" && typ != ""
    requires typ !in Engine.TypesOf(s.workers[e].results)
    ensures RowOf(cfg, s, e, typ).Some? ==> RowOf(cfg, s, e, typ).value.state == InFlight
  {
    assert EngineTable.BooksAt(cfg, s, e);
    NotInBooks(s.workers[e].results, EngineTable.UnderwayOf(cfg, s.workers[e]),
               EngineTheorems.EventsOf(s.events, e), typ);
    EngineTable.RowsByDevice(cfg.identities, s.events, e, typ);
  }

  /** A row settled by the event of a step. */
  lemma {:induction false} RowSettled(cfg: Engine.Config, s: Engine.Sys, e: nat, t: Engine.Turn, ev: Event)
    requires Reached(cfg, s) && e < |s.workers| && cfg.identities[e] != "" && ev.typ != ""
    requires ev.typ !in Engine.TypesOf(s.workers[e].results)
    requires t.emitted == [ev] && ev.identity == cfg.identities[e] && OfCapture(ev)
    ensures var row := RowOf(cfg, Engine.Taken(s, e, t), e, ev.typ);
            row.Some? && Shown(row.value, ev, row.value.num)
  {
    NotSettledYet(cfg, s, e, ev.typ);
    EngineRun.RunOfLog(s.events, e, t.emitted);
    EventShows(EngineRun.RunOf(s.events), ev);
  }

  /** A worker in its loop is at the spec it has no result for. */
  lemma {:induction false} AtItsSpec(cfg: Engine.Config, s: Engine.Sys, e: nat, i: nat)
    requires Reached(cfg, s) && e < |s.workers| && i < |cfg.order|
    requires var pc := s.workers[e].pc;
             || (pc.AtSpec? && pc.i == i) || (pc.AtLane? && pc.i == i)
             || (pc.Sending? && pc.i == i) || (pc.Storing? && pc.i == i)
    ensures |s.workers[e].results| == i && SpecAt(cfg, s, e) == cfg.order[i]
    ensures SpecAt(cfg, s, e).typ !in Engine.TypesOf(s.workers[e].results)
  {
    assert Engine.Through(cfg, s.workers[e]);
    EngineTable.FreshType(Engine.Types(cfg.order), i);
  }

  // ----- a command that was sent

  /** A result of the command of the spec a worker is at. */
  ghost predicate OfCommand(cfg: Engine.Config, s: Engine.Sys, e: nat, found: Engine.Result)
    requires e < |s.workers| && |s.workers[e].results| < |cfg.order|
  {
    var spec, w := SpecAt(cfg, s, e), s.workers[e];
    && found.typ == spec.typ && found.platform == w.platform
    && w.platform in spec.commands && found.command == spec.commands[w.platform].text
  }

  lemma {:induction false} PutTurn(cfg: Engine.Config, s: Engine.Sys, e: nat, same: bool, artifact: Artifact)
    returns (t: Engine.Turn, found: Engine.Result, ev: Event)
    requires Reached(cfg, s) && Can(cfg, s, e, Engine.Put(same, artifact))
    ensures Engine.Turned(cfg, s, e, Engine.Put(same, artifact)) == Some(t) && s.workers[e].pc.Storing?
    ensures |s.workers[e].results| < |cfg.order| && OfCommand(cfg, s, e, found)
    ensures t.worker.results == s.workers[e].results + [found] && t.emitted == [ev] && !t.handsIn
    ensures found.err == None && !found.notApplicable && found.same == same && found.artifact == artifact
    ensures ev.kind == (if same then CaptureUnchanged else CaptureStored) && ev.artifact == artifact
    ensures ev.identity == cfg.identities[e] && ev.typ == found.typ
  {
    AtItsSpec(cfg, s, e, s.workers[e].pc.i);
    t := Engine.Turned(cfg, s, e, Engine.Put(same, artifact)).value;
    found, ev := Engine.Last(t), t.emitted[0];
  }

  /**
   A store's answer becomes the result, as it is: no error, applicable, unchanged
   exactly if the store said so, with what it stored; and so the row says.
  */
  lemma {:induction false} PutIsKept(cfg: Engine.Config, steps: seq<Engine.Step>, s: Engine.Sys, e: nat, same: bool,
                                     artifact: Artifact) returns (found: Engine.Result)
    requires Reaches(cfg, steps, s) && Can(cfg, s, e, Engine.Put(same, artifact))
    ensures var s' := After(cfg, s, e, Engine.Put(same, artifact));
            && Gains(s, s', e, found) && |s.workers[e].results| < |cfg.order| && OfCommand(cfg, s, e, found)
            && found.err == None && !found.notApplicable && found.same == same && found.artifact == artifact
            && (cfg.identities[e] != "" && found.typ != "" ==>
                  var row := RowOf(cfg, s', e, found.typ);
                  && row.Some? && row.value.state == (if same then Unchanged else Stored)
                  && row.value.artifact == artifact)
  {
    RunsReach(cfg, steps, s);
    var t, got, ev := PutTurn(cfg, s, e, same, artifact);
    found := got;
    AtItsSpec(cfg, s, e, s.workers[e].pc.i);
    if cfg.identities[e] != "" && found.typ != "" {
      RowSettled(cfg, s, e, t, ev);
    }
  }

  /** A turn that settles the type a worker is at with an event that has no artifact. */
  ghost predicate TurnsInto(cfg: Engine.Config, s: Engine.Sys, e: nat, c: Engine.Choice, t: Engine.Turn,
                            found: Engine.Result, ev: Event) {
    && Can(cfg, s, e, c) && Engine.Turned(cfg, s, e, c) == Some(t)
    && t.worker.results == s.workers[e].results + [found] && t.emitted == [ev] && !t.handsIn
    && ev.identity == cfg.identities[e] && ev.typ == found.typ
    && found.typ !in Engine.TypesOf(s.workers[e].results)
  }

  lemma {:induction false} FailureShows(cfg: Engine.Config, s: Engine.Sys, e: nat, c: Engine.Choice, t: Engine.Turn,
                                        found: Engine.Result, ev: Event)
    requires Reached(cfg, s) && TurnsInto(cfg, s, e, c, t, found, ev) && ev.kind == CaptureFail
    ensures Gains(s, After(cfg, s, e, c), e, found)
    ensures RowSays(cfg, After(cfg, s, e, c), e, found.typ, RowState.Failed, Given(ev.detail))
  {
    if cfg.identities[e] != "" && found.typ != "" {
      RowSettled(cfg, s, e, t, ev);
    }
  }

  lemma {:induction false} InapplicableShows(cfg: Engine.Config, s: Engine.Sys, e: nat, c: Engine.Choice,
                                             t: Engine.Turn, found: Engine.Result, ev: Event)
    requires Reached(cfg, s) && TurnsInto(cfg, s, e, c, t, found, ev) && ev.kind == NotApplic
    ensures Gains(s, After(cfg, s, e, c), e, found)
    ensures RowSays(cfg, After(cfg, s, e, c), e, found.typ, NotApplicable, WhyNot(ev))
  {
    if cfg.identities[e] != "" && found.typ != "" {
      RowSettled(cfg, s, e, t, ev);
    }
  }

  predicate Running(w: Engine.Worker) {
    w.pc.Sending? || w.pc.Storing?
  }

  lemma {:induction false} FailTurn(cfg: Engine.Config, s: Engine.Sys, e: nat, why: string)
    returns (t: Engine.Turn, found: Engine.Result, ev: Event)
    requires Reached(cfg, s) && Can(cfg, s, e, Engine.Fail(why)) && Running(s.workers[e])
    ensures TurnsInto(cfg, s, e, Engine.Fail(why), t, found, ev) && ev.kind == CaptureFail && ev.detail == why
    ensures |s.workers[e].results| < |cfg.order| && OfCommand(cfg, s, e, found) && found.err == Some(why)
  {
    AtItsSpec(cfg, s, e, s.workers[e].pc.i);
    t := Engine.Turned(cfg, s, e, Engine.Fail(why)).value;
    found, ev := Engine.Last(t), t.emitted[0];
  }

  /** A command that fails, or whose output cannot be stored, leaves a result with that error; and the row says it. */
  lemma {:induction false} FailIsKept(cfg: Engine.Config, steps: seq<Engine.Step>, s: Engine.Sys, e: nat, why: string)
    returns (found: Engine.Result)
    requires Reaches(cfg, steps, s) && Can(cfg, s, e, Engine.Fail(why)) && Running(s.workers[e])
    ensures Gains(s, After(cfg, s, e, Engine.Fail(why)), e, found) && |s.workers[e].results| < |cfg.order|
    ensures OfCommand(cfg, s, e, found) && found.err == Some(why)
    ensures RowSays(cfg, After(cfg, s, e, Engine.Fail(why)), e, found.typ, RowState.Failed, Given(why))
  {
    RunsReach(cfg, steps, s);
    var t, got, ev := FailTurn(cfg, s, e, why);
    found := got;
    FailureShows(cfg, s, e, Engine.Fail(why), t, found, ev);
  }

  lemma {:induction false} DeclineTurn(cfg: Engine.Config, s: Engine.Sys, e: nat, why: string)
    returns (t: Engine.Turn, found: Engine.Result, ev: Event)
    requires Reached(cfg, s) && Can(cfg, s, e, Engine.Decline(why)) && s.workers[e].pc.Sending?
    ensures TurnsInto(cfg, s, e, Engine.Decline(why), t, found, ev) && ev.kind == NotApplic
    ensures ev.detail == why && ev.platform == s.workers[e].platform
    ensures |s.workers[e].results| < |cfg.order| && OfCommand(cfg, s, e, found)
    ensures found.err == None && found.notApplicable
  {
    AtItsSpec(cfg, s, e, s.workers[e].pc.i);
    t := Engine.Turned(cfg, s, e, Engine.Decline(why)).value;
    found, ev := Engine.Last(t), t.emitted[0];
  }

  /** A command the device declines does not apply, in the device's words; and the row says it. */
  lemma {:induction false} DeclineIsKept(cfg: Engine.Config, steps: seq<Engine.Step>, s: Engine.Sys, e: nat,
                                         why: string) returns (found: Engine.Result)
    requires Reaches(cfg, steps, s) && Can(cfg, s, e, Engine.Decline(why)) && s.workers[e].pc.Sending?
    ensures Gains(s, After(cfg, s, e, Engine.Decline(why)), e, found) && |s.workers[e].results| < |cfg.order|
    ensures OfCommand(cfg, s, e, found) && found.err == None && found.notApplicable
    ensures RowSays(cfg, After(cfg, s, e, Engine.Decline(why)), e, found.typ, NotApplicable,
                    if why != "" then Said(why) else NoCommandOn(s.workers[e].platform))
  {
    RunsReach(cfg, steps, s);
    var t, got, ev := DeclineTurn(cfg, s, e, why);
    found := got;
    InapplicableShows(cfg, s, e, Engine.Decline(why), t, found, ev);
  }

  // ----- a type that is settled before its command is sent

  /** A result of the spec a worker is at that has no command. */
  ghost predicate OfSpec(cfg: Engine.Config, s: Engine.Sys, e: nat, found: Engine.Result)
    requires e < |s.workers| && |s.workers[e].results| < |cfg.order|
  {
    found.typ == SpecAt(cfg, s, e).typ && found.platform == s.workers[e].platform && found.command == ""
  }

  predicate InLoop(cfg: Engine.Config, w: Engine.Worker) {
    w.pc.AtSpec? && w.pc.i < |cfg.order|
  }

  lemma {:induction false} CancelTurn(cfg: Engine.Config, s: Engine.Sys, e: nat, why: string)
    returns (t: Engine.Turn, found: Engine.Result, ev: Event)
    requires Reached(cfg, s) && Can(cfg, s, e, Engine.NoticeCancel(why))
    requires InLoop(cfg, s.workers[e]) || s.workers[e].pc.AtLane?
    ensures TurnsInto(cfg, s, e, Engine.NoticeCancel(why), t, found, ev) && ev.kind == CaptureFail && ev.detail == why
    ensures |s.workers[e].results| < |cfg.order| && found.err == Some(why)
    ensures if s.workers[e].pc.AtLane? then OfCommand(cfg, s, e, found) else OfSpec(cfg, s, e, found)
  {
    AtItsSpec(cfg, s, e, s.workers[e].pc.i);
    t := Engine.Turned(cfg, s, e, Engine.NoticeCancel(why)).value;
    found, ev := Engine.Last(t), t.emitted[0];
  }

  /**
   A cancel noticed before a type's command is sent leaves a result with its error,
   and with the command only if the worker was waiting for the lane; the row says it.
  */
  lemma {:induction false} CancelIsKept(cfg: Engine.Config, steps: seq<Engine.Step>, s: Engine.Sys, e: nat,
                                        why: string) returns (found: Engine.Result)
    requires Reaches(cfg, steps, s) && Can(cfg, s, e, Engine.NoticeCancel(why))
    requires InLoop(cfg, s.workers[e]) || s.workers[e].pc.AtLane?
    ensures Gains(s, After(cfg, s, e, Engine.NoticeCancel(why)), e, found) && |s.workers[e].results| < |cfg.order|
    ensures found.err == Some(why)
    ensures if s.workers[e].pc.AtLane? then OfCommand(cfg, s, e, found) else OfSpec(cfg, s, e, found)
    ensures RowSays(cfg, After(cfg, s, e, Engine.NoticeCancel(why)), e, found.typ, RowState.Failed, Given(why))
  {
    RunsReach(cfg, steps, s);
    var t, got, ev := CancelTurn(cfg, s, e, why);
    found := got;
    FailureShows(cfg, s, e, Engine.NoticeCancel(why), t, found, ev);
  }

  lemma {:induction false} NoCommandTurn(cfg: Engine.Config, s: Engine.Sys, e: nat, c: Engine.Choice)
    returns (t: Engine.Turn, found: Engine.Result, ev: Event)
    requires Reached(cfg, s) && Can(cfg, s, e, c) && InLoop(cfg, s.workers[e]) && !s.cancelled
    requires s.workers[e].platform in cfg.order[s.workers[e].pc.i].commands ==> c.Decline?
    ensures TurnsInto(cfg, s, e, c, t, found, ev) && ev.kind == NotApplic
    ensures ev.detail == "" && ev.platform == s.workers[e].platform
    ensures |s.workers[e].results| < |cfg.order| && OfSpec(cfg, s, e, found)
    ensures found.err == None && found.notApplicable
  {
    AtItsSpec(cfg, s, e, s.workers[e].pc.i);
    t := Engine.Turned(cfg, s, e, c).value;
    found, ev := Engine.Last(t), t.emitted[0];
  }

  /**
   A type without a command for the device's platform, or with one its model does
   not match, does not apply, and no command is kept; the row says there is none.
  */
  lemma {:induction false} NoCommandIsKept(cfg: Engine.Config, steps: seq<Engine.Step>, s: Engine.Sys, e: nat,
                                           c: Engine.Choice) returns (found: Engine.Result)
    requires Reaches(cfg, steps, s) && Can(cfg, s, e, c) && InLoop(cfg, s.workers[e]) && !s.cancelled
    requires s.workers[e].platform in cfg.order[s.workers[e].pc.i].commands ==> c.Decline?
    ensures Gains(s, After(cfg, s, e, c), e, found) && |s.workers[e].results| < |cfg.order|
    ensures OfSpec(cfg, s, e, found) && found.err == None && found.notApplicable
    ensures RowSays(cfg, After(cfg, s, e, c), e, found.typ, NotApplicable, NoCommandOn(s.workers[e].platform))
  {
    RunsReach(cfg, steps, s);
    var t, got, ev := NoCommandTurn(cfg, s, e, c);
    found := got;
    InapplicableShows(cfg, s, e, c, t, found, ev);
  }

  // ----- a device that fails

  /** Whether an answer fails the device of a worker that has not come to its first type. */
  predicate FailsDevice(w: Engine.Worker, c: Engine.Choice, why: string) {
    || (c == Engine.Fail(why) && (w.pc.Dialing? || w.pc.Opening? || w.pc.Fingerprinting?))
    || (c == Engine.NoticeCancel(why) && (w.pc.AtSem? || w.pc.Checking?))
  }

  lemma {:induction false} FailsDeviceTurn(cfg: Engine.Config, s: Engine.Sys, e: nat, c: Engine.Choice, why: string)
    requires EngineTheorems.Good(cfg, s) && Can(cfg, s, e, c) && FailsDevice(s.workers[e], c, why)
    ensures var t := Engine.Turned(cfg, s, e, c).value;
            && t.worker.pc == Engine.Failing(0, !s.workers[e].pc.AtSem?, why) && t.worker.results == []
            && |t.emitted| == 1 && t.emitted[0].kind == DeviceFail && t.emitted[0].detail == why
  {
    assert Engine.Through(cfg, s.workers[e]);
  }

  lemma {:induction false} FailIsTold(cfg: Engine.Config, s: Engine.Sys, e: nat, c: Engine.Choice, why: string)
    requires EngineTheorems.Good(cfg, s) && Can(cfg, s, e, c) && FailsDevice(s.workers[e], c, why)
    ensures why in EngineTheorems.FailsIn(EngineTheorems.EventsOf(After(cfg, s, e, c).events, e))
  {
    var t := Engine.Turned(cfg, s, e, c).value;
    FailsDeviceTurn(cfg, s, e, c, why);
    EngineTheorems.TakenEvents(s, e, t, e);
    EngineTheorems.FailsInOne(EngineTheorems.EventsOf(s.events, e), t.emitted);
  }

  lemma {:induction false} StillTold(cfg: Engine.Config, s: Engine.Sys, step: Engine.Step, e: nat, why: string)
    requires EngineTheorems.Good(cfg, s) && Engine.Enabled(cfg, s, step) && EngineTheorems.Reasoned(s)
    requires why in EngineTheorems.FailsIn(EngineTheorems.EventsOf(s.events, e))
    ensures why in EngineTheorems.FailsIn(EngineTheorems.EventsOf(Engine.Act(cfg, s, step).events, e))
  {
    if step.Work? {
      var who, t := step.entry, Engine.Turned(cfg, s, step.entry, step.choice).value;
      EngineTheorems.TurnReason(cfg, s.workers[who], cfg.identities[who], step.choice, s.cancelled, s.slots, s.lanes,
                                t, EngineTheorems.FailsIn(EngineTheorems.EventsOf(s.events, who)));
      EngineTheorems.TakenEvents(s, who, t, e);
      EngineTheorems.FailsInOne(EngineTheorems.EventsOf(s.events, e), if who == e then t.emitted else []);
    }
  }

  lemma {:induction false} ToldFromThenOn(cfg: Engine.Config, s: Engine.Sys, more: seq<Engine.Step>, e: nat,
                                          why: string)
    requires EngineTheorems.Good(cfg, s) && EngineTheorems.CanRun(cfg, s, more) && EngineTheorems.Reasoned(s)
    requires why in EngineTheorems.FailsIn(EngineTheorems.EventsOf(s.events, e))
    ensures EngineTheorems.Reasoned(EngineTheorems.Ran(cfg, s, more))
    ensures why in EngineTheorems.FailsIn(EngineTheorems.EventsOf(EngineTheorems.Ran(cfg, s, more).events, e))
    decreases |more|
  {
    if more != [] {
      StillTold(cfg, s, more[0], e, why);
      EngineTheorems.ActGood(cfg, s, more[0]);
      EngineTheorems.ActReasoned(cfg, s, more[0]);
      ToldFromThenOn(cfg, Engine.Act(cfg, s, more[0]), more[1..], e, why);
    }
  }

  lemma {:induction false} ReachedReasoned(cfg: Engine.Config, steps: seq<Engine.Step>, s: Engine.Sys)
    requires Reaches(cfg, steps, s)
    ensures EngineTheorems.Good(cfg, s) && EngineTheorems.Reasoned(s)
  {
    EngineTheorems.StartGood(cfg);
    EngineTheorems.RanReasoned(cfg, Engine.Start(cfg), steps);
  }

  /**
   A device that cannot be dialed, opened or fingerprinted, or whose turn comes
   after the cancel, fails: however the run goes on, that is the one failure said of
   it, and every result its worker has or hands in carries this very error.
  */
  lemma {:induction false} DeviceFailIsKept(cfg: Engine.Config, steps: seq<Engine.Step>, s: Engine.Sys, e: nat,
                                            c: Engine.Choice, why: string, more: seq<Engine.Step>, z: Engine.Sys)
    requires Reaches(cfg, steps, s) && Can(cfg, s, e, c) && FailsDevice(s.workers[e], c, why)
    requires EngineTheorems.Good(cfg, After(cfg, s, e, c)) && EngineTheorems.CanRun(cfg, After(cfg, s, e, c), more)
    requires z == EngineTheorems.Ran(cfg, After(cfg, s, e, c), more)
    ensures EngineTheorems.FailsIn(EngineTheorems.EventsOf(z.events, e)) == [why]
    ensures e < |z.workers| && EngineTheorems.AllFailed(z.workers[e].results, why)
    ensures EngineTheorems.AllFailed(EngineTheorems.FoundOf(z.out, e), why)
  {
    ReachedReasoned(cfg, steps, s);
    EngineTheorems.ActReasoned(cfg, s, Engine.Work(e, c));
    FailIsTold(cfg, s, e, c, why);
    ToldFromThenOn(cfg, After(cfg, s, e, c), more, e, why);
    OneReasonLeft(cfg, z, e, why);
  }

  lemma {:induction false} OnlyReason(w: Engine.Worker, whys: seq<string>, why: string)
    requires EngineTheorems.OneReason(w, whys) && why in whys
    ensures whys == [why] && EngineTheorems.AllFailed(w.results, why)
  {
  }

  lemma {:induction false} OneReasonLeft(cfg: Engine.Config, z: Engine.Sys, e: nat, why: string)
    requires EngineTheorems.Good(cfg, z) && EngineTheorems.Reasoned(z) && e < |z.workers|
    requires why in EngineTheorems.FailsIn(EngineTheorems.EventsOf(z.events, e))
    ensures EngineTheorems.FailsIn(EngineTheorems.EventsOf(z.events, e)) == [why]
    ensures EngineTheorems.AllFailed(z.workers[e].results, why)
    ensures EngineTheorems.AllFailed(EngineTheorems.FoundOf(z.out, e), why)
  {
    OnlyReason(z.workers[e], EngineTheorems.FailsIn(EngineTheorems.EventsOf(z.events, e)), why);
    assert EngineTheorems.Accounted(z, e);
  }

  lemma {:induction false} FailingTurn(cfg: Engine.Config, s: Engine.Sys, e: nat)
    returns (t: Engine.Turn, found: Engine.Result, ev: Event)
    requires Reached(cfg, s) && Can(cfg, s, e, Engine.Proceed)
    requires s.workers[e].pc.Failing? && s.workers[e].pc.k < |cfg.specs|
    ensures TurnsInto(cfg, s, e, Engine.Proceed, t, found, ev)
    ensures ev.kind == CaptureFail && ev.detail == s.workers[e].pc.why
    ensures found == Engine.Result(cfg.specs[|s.workers[e].results|].typ, "", "", false, Some(s.workers[e].pc.why),
                                   false, NO_ARTIFACT)
  {
    assert Engine.Through(cfg, s.workers[e]);
    EngineTable.FreshType(Engine.Types(cfg.specs), s.workers[e].pc.k);
    t := Engine.Turned(cfg, s, e, Engine.Proceed).value;
    found, ev := Engine.Last(t), t.emitted[0];
  }

  /** A device that failed leaves a failed result and a failed row for every type selected, one by one. */
  lemma {:induction false} FailingGives(cfg: Engine.Config, steps: seq<Engine.Step>, s: Engine.Sys, e: nat)
    returns (found: Engine.Result)
    requires Reaches(cfg, steps, s) && Can(cfg, s, e, Engine.Proceed)
    requires s.workers[e].pc.Failing? && s.workers[e].pc.k < |cfg.specs|
    ensures Gains(s, After(cfg, s, e, Engine.Proceed), e, found) && |s.workers[e].results| < |cfg.specs|
    ensures found.typ == cfg.specs[|s.workers[e].results|].typ && found.err == Some(s.workers[e].pc.why)
    ensures found.command == "" && found.platform == "" && found.artifact == NO_ARTIFACT
    ensures RowSays(cfg, After(cfg, s, e, Engine.Proceed), e, found.typ, RowState.Failed,
                    Given(s.workers[e].pc.why))
  {
    RunsReach(cfg, steps, s);
    assert Engine.Through(cfg, s.workers[e]);
    var t, got, ev := FailingTurn(cfg, s, e);
    found := got;
    FailureShows(cfg, s, e, Engine.Proceed, t, found, ev);
  }

  // ----- which answers a worker takes

  /** While it calls, sends and stores, a worker takes any answer the other side can give, and no other step. */
  lemma {:induction false} TakesAnyAnswer(cfg: Engine.Config, s: Engine.Sys, e: nat, c: Engine.Choice)
    requires Engine.Shaped(cfg, s) && e < |s.workers|
    ensures var pc := s.workers[e].pc;
            && (pc.Dialing? || pc.Opening? || pc.Fingerprinting? ==> (Can(cfg, s, e, c) <==> c.Succeed? || c.Fail?))
            && (pc.Sending? ==> (Can(cfg, s, e, c) <==> c.Succeed? || c.Fail? || c.Decline?))
            && (pc.Storing? ==> (Can(cfg, s, e, c) <==> c.Put? || c.Fail?))
            && (pc.Identifying? ==> (Can(cfg, s, e, c) <==> c == Engine.Proceed || c.Succeed? || c.Resolve?))
  {
  }

  /**
   Where a worker waits it goes on exactly if there is room, and gives up exactly
   if the run is cancelled; where it looks at the cancel it goes on exactly if there
   was none.
  */
  lemma {:induction false} WaitsForRoom(cfg: Engine.Config, s: Engine.Sys, e: nat, c: Engine.Choice)
    requires EngineTheorems.Good(cfg, s) && e < |s.workers|
    ensures var pc := s.workers[e].pc;
            && (pc.AtSem? ==>
                  (Can(cfg, s, e, c) <==>
                     || (c == Engine.Proceed
                         && EngineTheorems.Sum(s.workers, Engine.SlotOf) < cfg.concurrency)
                     || (c.NoticeCancel? && s.cancelled)))
            && (pc.AtLane? ==>
                  (Can(cfg, s, e, c) <==>
                     || (c == Engine.Proceed && EngineTheorems.Sum(s.workers, Engine.LaneOf) < cfg.expensive)
                     || (c.NoticeCancel? && s.cancelled)))
            && (pc.Checking? ==>
                  (Can(cfg, s, e, c) <==> if s.cancelled then c.NoticeCancel? else c == Engine.Proceed))
  {
  }

  /**
   At the top of its loop a worker notices the cancel, or goes on; it may find the
   command declined only where the command has a model to match.
  */
  lemma {:induction false} TopOfLoop(cfg: Engine.Config, s: Engine.Sys, e: nat, c: Engine.Choice)
    requires Engine.Shaped(cfg, s) && e < |s.workers| && InLoop(cfg, s.workers[e])
    ensures var w, commands := s.workers[e], cfg.order[s.workers[e].pc.i].commands;
            Can(cfg, s, e, c) <==>
            if s.cancelled then c.NoticeCancel?
            else c == Engine.Proceed || (w.platform in commands && commands[w.platform].gated && c.Decline?)
  {
  }

  // ----- what a worker says on its way

  /** A step that adds one event to its device's and no result. */
  ghost predicate Adds(s: Engine.Sys, s': Engine.Sys, e: nat, ev: Event) {
    && e < |s.workers| && |s'.workers| == |s.workers| && s'.workers[e].results == s.workers[e].results
    && EngineTheorems.EventsOf(s'.events, e) == EngineTheorems.EventsOf(s.events, e) + [ev]
  }

  /** A device that answers is said to be connected; then its platform is told, with what is worth noting of it. */
  lemma {:induction false} CallsTell(cfg: Engine.Config, s: Engine.Sys, e: nat, text: string, note: string)
    requires EngineTheorems.Good(cfg, s) && Can(cfg, s, e, Engine.Succeed(text, note))
    ensures var s', id := After(cfg, s, e, Engine.Succeed(text, note)), cfg.identities[e];
            && (s.workers[e].pc.Dialing? ==>
                  && s'.workers[e].pc.Opening?
                  && Adds(s, s', e, Event(Connected, id, "", "", "", "", NO_ARTIFACT, "")))
            && (s.workers[e].pc.Opening? ==> s'.workers[e].pc.Fingerprinting? && s'.events == s.events)
            && (s.workers[e].pc.Fingerprinting? ==>
                  && s'.workers[e].pc.Identifying? && s'.workers[e].platform == text
                  && Adds(s, s', e, Event(PlatformKnown, id, "", "", text, "", NO_ARTIFACT, note)))
            && (s.workers[e].pc.Identifying? ==>
                  && s'.workers[e].pc == Engine.AtSpec(0)
                  && Adds(s, s', e, Event(Named, id, "", text, "", "", NO_ARTIFACT, "")))
  {
    var t := Engine.Turned(cfg, s, e, Engine.Succeed(text, note)).value;
    EngineTheorems.TakenEvents(s, e, t, e);
  }

  /** A name that was known before is told as resolved, and one that was not told at all is no event. */
  lemma {:induction false} NameTells(cfg: Engine.Config, s: Engine.Sys, e: nat, c: Engine.Choice)
    requires EngineTheorems.Good(cfg, s) && Can(cfg, s, e, c) && s.workers[e].pc.Identifying?
    ensures After(cfg, s, e, c).workers[e].pc == Engine.AtSpec(0)
    ensures c.Resolve? ==>
              Adds(s, After(cfg, s, e, c), e, Event(Resolved, cfg.identities[e], "", c.name, "", "", NO_ARTIFACT, ""))
    ensures c == Engine.Proceed ==> After(cfg, s, e, c).events == s.events
  {
    var t := Engine.Turned(cfg, s, e, c).value;
    EngineTheorems.TakenEvents(s, e, t, e);
  }

  /** A device is said to be done once every type selected has its result. */
  lemma {:induction false} DoneTells(cfg: Engine.Config, s: Engine.Sys, e: nat, c: Engine.Choice)
    requires EngineTheorems.Good(cfg, s) && Can(cfg, s, e, c)
    requires s.workers[e].pc.AtSpec? && !InLoop(cfg, s.workers[e])
    ensures Engine.TypesOf(s.workers[e].results) == Engine.Types(cfg.order)
    ensures Adds(s, After(cfg, s, e, c), e,
                 Event(DeviceDone, cfg.identities[e], "", "", s.workers[e].platform, "", NO_ARTIFACT, ""))
  {
    var t := Engine.Turned(cfg, s, e, c).value;
    EngineTheorems.TakenEvents(s, e, t, e);
    assert Engine.Through(cfg, s.workers[e]);
  }

  lemma {:induction false} StartTurn(cfg: Engine.Config, s: Engine.Sys, e: nat, t: Engine.Turn) returns (ev: Event)
    requires Reached(cfg, s) && Can(cfg, s, e, Engine.Proceed) && Engine.Turned(cfg, s, e, Engine.Proceed) == Some(t)
    requires (InLoop(cfg, s.workers[e]) || s.workers[e].pc.AtLane?) && t.worker.pc.Sending?
    ensures t.emitted == [ev] && ev.kind == CaptureStart && ev.identity == cfg.identities[e]
    ensures |s.workers[e].results| < |cfg.order| && ev.typ == SpecAt(cfg, s, e).typ
    ensures ev.typ !in Engine.TypesOf(s.workers[e].results)
    ensures s.workers[e].platform in SpecAt(cfg, s, e).commands
    ensures ev.command == SpecAt(cfg, s, e).commands[s.workers[e].platform].text
  {
    AtItsSpec(cfg, s, e, s.workers[e].pc.i);
    ev := t.emitted[0];
  }

  /** A worker that sends a command has its row in flight, with the command for the device's platform. */
  lemma {:induction false} StartShows(cfg: Engine.Config, steps: seq<Engine.Step>, s: Engine.Sys, e: nat)
    requires Reaches(cfg, steps, s) && Can(cfg, s, e, Engine.Proceed)
    requires InLoop(cfg, s.workers[e]) || s.workers[e].pc.AtLane?
    requires After(cfg, s, e, Engine.Proceed).workers[e].pc.Sending?
    ensures |s.workers[e].results| < |cfg.order|
    ensures var s', spec := After(cfg, s, e, Engine.Proceed), SpecAt(cfg, s, e);
            && s.workers[e].platform in spec.commands
            && (cfg.identities[e] != "" && spec.typ != "" ==>
                  var row := RowOf(cfg, s', e, spec.typ);
                  && row.Some? && row.value.state == InFlight
                  && row.value.command == spec.commands[s.workers[e].platform].text)
  {
    RunsReach(cfg, steps, s);
    var t := Engine.Turned(cfg, s, e, Engine.Proceed).value;
    var ev := StartTurn(cfg, s, e, t);
    if cfg.identities[e] != "" && ev.typ != "" {
      RowSettled(cfg, s, e, t, ev);
    }
  }
}
