/**
 What an event makes of one row of a run (internal/capturerun/run.go): only
 events of its own device change it, each by what the row said before.
 */
module RowWords {
  import opened RunModel

  // What a row says; its device's name, its reason and its number aside.
  datatype Word = NoRow | Says(state: RowState, command: string, artifact: Artifact)

  function WordIn(r: Run, p: Pair): Word {
    if p in r.rows then Says(r.rows[p].state, r.rows[p].command, r.rows[p].artifact) else NoRow
  }

  /** A row opened by an event, or as it was. */
  function Opened(w: Word): (o: Word)
    ensures o.Says?
  {
    if w.NoRow? then Says(InFlight, "", NO_ARTIFACT) else w
  }

  function Settled(w: Word, state: RowState, artifact: Artifact): Word {
    if w.NoRow? || w.state != InFlight then w
    else Says(state, w.command, if state == Stored || state == Unchanged then artifact else w.artifact)
  }

  /** Events that open a row of their own when they name a type. */
  predicate OfRow(ev: Event) {
    && ev.kind != HostKeyNew && ev.kind != AuthReject && ev.kind != Queued && ev.kind != PlatformKnown
    && ev.kind != Resolved && ev.kind != Named && ev.kind != DeviceFail
  }

  /** What an event makes of the row of a type of its device. */
  function NextWord(w: Word, ev: Event, typ: string): Word {
    if ev.kind == DeviceFail then Settled(w, Failed, NO_ARTIFACT)
    else if !OfRow(ev) || ev.typ != typ then w
    else if ev.kind == CaptureStart then Says(Opened(w).state, ev.command, Opened(w).artifact)
    else if SettlesAs(ev) == InFlight then Opened(w)
    else Settled(Opened(w), SettlesAs(ev), ev.artifact)
  }

  function WordOf(events: seq<Event>, typ: string): Word {
    if events == [] then NoRow else NextWord(WordOf(events[..|events| - 1], typ), events[|events| - 1], typ)
  }

  lemma {:induction false} DeviceFailWord(r: Run, pairs: seq<Pair>, identity: string, p: Pair)
    requires (forall q | q in pairs :: q in r.rows) && (p in r.rows ==> p in pairs)
    ensures WordIn(SettleDevice(r, pairs, identity), p)
            == if p.identity == identity then Settled(WordIn(r, p), Failed, NO_ARTIFACT) else WordIn(r, p)
    decreases |pairs|
  {
    if pairs != [] {
      assert pairs == [pairs[0]] + pairs[1..];
      var r' := if pairs[0].identity != identity then r
                else Settle(r, pairs[0], Failed, KnownOf(r, identity).why, NO_ARTIFACT);
      if p in pairs[1..] || p !in r.rows {
        DeviceFailWord(r', pairs[1..], identity, p);
      } else {
        OthersKeepWord(r', pairs[1..], identity, p);
      }
    }
  }

  lemma {:induction false} OthersKeepWord(r: Run, pairs: seq<Pair>, identity: string, p: Pair)
    requires (forall q | q in pairs :: q in r.rows) && p !in pairs
    ensures WordIn(SettleDevice(r, pairs, identity), p) == WordIn(r, p)
    decreases |pairs|
  {
    if pairs != [] {
      assert pairs == [pairs[0]] + pairs[1..];
      var r' := if pairs[0].identity != identity then r
                else Settle(r, pairs[0], Failed, KnownOf(r, identity).why, NO_ARTIFACT);
      OthersKeepWord(r', pairs[1..], identity, p);
    }
  }

  lemma {:induction false} StampWord(r: Run, identity: string, d: Known, naming: bool, p: Pair)
    ensures WordIn(Stamp(r, identity, d, naming), p) == WordIn(r, p)
  {
  }

  lemma {:induction false} OpenWord(r: Run, ev: Event, p: Pair)
    ensures WordIn(Open(r, ev), p) == if p == Pair(ev.identity, ev.typ) then Opened(WordIn(r, p)) else WordIn(r, p)
  {
  }

  lemma {:induction false} MoveWord(r: Run, ev: Event, p: Pair)
    requires Pair(ev.identity, ev.typ) in r.rows
    ensures p != Pair(ev.identity, ev.typ) ==> WordIn(ToRow(r, ev), p) == WordIn(r, p)
    ensures p == Pair(ev.identity, ev.typ) && OfRow(ev) ==> WordIn(ToRow(r, ev), p) == NextWord(WordIn(r, p), ev, p.typ)
  {
  }

  lemma {:induction false} ToRowWord(r: Run, ev: Event, p: Pair)
    requires OfRow(ev)
    ensures WordIn(ToRow(Open(r, ev), ev), p)
            == if p.identity == ev.identity then NextWord(WordIn(r, p), ev, p.typ) else WordIn(r, p)
  {
    OpenWord(r, ev, p);
    MoveWord(Open(r, ev), ev, p);
  }

  lemma {:induction false} ToRunWord(r: Run, ev: Event, p: Pair)
    requires Rowed(r) && p.typ != "" && ev.kind != HostKeyNew && ev.kind != AuthReject
    ensures WordIn(ToRun(r, ev), p)
            == if p.identity == ev.identity then NextWord(WordIn(r, p), ev, p.typ) else WordIn(r, p)
  {
    var d := KnownOf(r, ev.identity);
    if ev.kind == Queued {
    } else if ev.kind == PlatformKnown {
      StampWord(r, ev.identity, d.(platform := ev.platform), false, p);
    } else if ev.kind == Resolved || ev.kind == Named {
      StampWord(r, ev.identity, d.(name := ev.name), true, p);
    } else if ev.kind == DeviceFail {
      DeviceFailWord(Fail(r, ev), r.order, ev.identity, p);
    } else if ev.typ != "" {
      ToRowWord(r, ev, p);
    }
  }

  /** An event changes rows of its own device only, each by what it said before. */
  lemma {:induction false} ApplyWord(r: Run, ev: Event, p: Pair)
    requires Rowed(r) && p.identity != "" && p.typ != ""
    ensures WordIn(Apply(r, ev), p)
            == if p.identity == ev.identity then NextWord(WordIn(r, p), ev, p.typ) else WordIn(r, p)
  {
    var r0 := r.(num := r.num + 1);
    ApplyShape(r, r0, ev);
    if ev.kind != HostKeyNew && ev.kind != AuthReject && ev.identity != "" {
      ToRunWord(Meet(r0, ev.identity), ev, p);
    }
  }

  lemma {:induction false} WordOfOneMore(events: seq<Event>, ev: Event, typ: string)
    ensures WordOf(events + [ev], typ) == NextWord(WordOf(events, typ), ev, typ)
  {
    assert (events + [ev])[..|events|] == events;
  }
}
