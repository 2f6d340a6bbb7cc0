/** The health watchdog: a status that is only touched when something changes, and
    the reading of the whole event history it must agree with. */
module Watchdog {
  import opened Basics

  /** What the loop can see. `Closed` is a receive on a channel without senders. */
  datatype Event = Tick | LoopOk | MempoolLen(len: nat) | Closed | TimedOut

  datatype Status = Alive | Graceful | Critical

  datatype Health = Health(alive: bool, mempoolEmpty: bool, signalValid: bool)

  datatype State = State(health: Health, seenLoop: bool, timeouts: nat, status: Status)

  const Initial: State := State(Health(true, true, true), true, 0, Alive)

  predicate Received(e: Event) {
    e.LoopOk? || e.MempoolLen? || e.Closed?
  }

  function Judge(h: Health): Status {
    if !h.alive || !h.mempoolEmpty then Critical
    else if !h.signalValid then Graceful
    else Alive
  }

  /** What one event makes of the health flags. */
  function NewHealth(s: State, e: Event, limit: nat): Health {
    match e
    case Tick => if s.seenLoop then s.health else s.health.(alive := false)
    case LoopOk => s.health.(alive := true, signalValid := true)
    case MempoolLen(len) => s.health.(mempoolEmpty := len == 0, signalValid := true)
    case Closed => s.health.(signalValid := false)
    case TimedOut => if s.timeouts + 1 >= limit then s.health.(signalValid := false) else s.health
  }

  function Step(s: State, e: Event, limit: nat): State {
    var health := NewHealth(s, e, limit);
    State(health,
          if e.Tick? then false else if e.LoopOk? then true else s.seenLoop,
          if Received(e) then 0 else if e.TimedOut? then s.timeouts + 1 else s.timeouts,
          if health != s.health then Judge(health) else s.status)
  }

  function Steps(h: seq<Event>, limit: nat): State {
    if h == [] then Initial else Step(Steps(DropLast(h), limit), Last(h), limit)
  }

  class Monitor {
    const limit: nat
    var health: Health
    var seenLoop: bool
    var timeouts: nat
    var status: Status

    ghost function View(): State
      reads this
    {
      State(health, seenLoop, timeouts, status)
    }

    constructor (limit: nat)
      ensures View() == Initial && this.limit == limit
    {
      this.limit := limit;
      health := Health(true, true, true);
      seenLoop := true;
      timeouts := 0;
      status := Alive;
    }

    /** One round of the loop. */
    method Handle(e: Event)
      modifies this
      ensures View() == Step(old(View()), e, limit)
    {
      var newHealth := health;
      match e {
        case Tick =>
          if !seenLoop {
            newHealth := newHealth.(alive := false);
          }
          seenLoop := false;
        case TimedOut =>
          timeouts := timeouts + 1;
          if timeouts >= limit {
            newHealth := newHealth.(signalValid := false);
          }
        case LoopOk =>
          timeouts := 0;
          newHealth := newHealth.(signalValid := true);
          seenLoop := true;
          newHealth := newHealth.(alive := true);
        case MempoolLen(len) =>
          timeouts := 0;
          newHealth := newHealth.(signalValid := true);
          newHealth := newHealth.(mempoolEmpty := len == 0);
        case Closed =>
          timeouts := 0;
          newHealth := newHealth.(signalValid := true);
          newHealth := newHealth.(signalValid := false);
      }
      var changed := newHealth != health;
      health := newHealth;
      if changed {
        if !health.alive || !health.mempoolEmpty {
          status := Critical;
        } else if !health.signalValid {
          status := Graceful;
        } else {
          status := Alive;
        }
      }
    }

    /** The loop over a history: the status is the verdict on that history. */
    method Run(events: seq<Event>)
      requires View() == Initial
      modifies this
      ensures View() == Steps(events, limit)
      ensures status == Verdict(events, limit)
    {
      var i := 0;
      while i < |events|
        invariant 0 <= i <= |events|
        invariant View() == Steps(events[..i], limit)
      {
        assert DropLast(events[..i + 1]) == events[..i] && Last(events[..i + 1]) == events[i];
        Handle(events[i]);
        i := i + 1;
      }
      assert events[..i] == events;
      AgreesWithHistory(events, limit);
    }
  }

  // ---------------------------------------------------------------- reading a history

  ghost predicate NoLoopSince(h: seq<Event>, i: nat) {
    forall k :: i <= k < |h| ==> !h[k].LoopOk?
  }

  ghost predicate NothingReceivedSince(h: seq<Event>, i: nat) {
    forall k :: i <= k < |h| ==> !Received(h[k])
  }

  /** Two ticks went by without the scheduler reporting a round. */
  ghost predicate LoopStalled(h: seq<Event>) {
    exists i, j :: 0 <= i < j < |h| && h[i].Tick? && h[j].Tick? && NoLoopSince(h, i)
  }

  ghost predicate TickPending(h: seq<Event>) {
    exists i :: 0 <= i < |h| && h[i].Tick? && NoLoopSince(h, i)
  }

  /** The last reported mempool length was not zero. */
  ghost predicate MempoolBusy(h: seq<Event>) {
    exists i :: 0 <= i < |h| && h[i].MempoolLen? && h[i].len != 0
                && forall k :: i < k < |h| ==> !h[k].MempoolLen?
  }

  function Timeouts(h: seq<Event>): nat {
    if h == [] then 0 else Timeouts(DropLast(h)) + if Last(h).TimedOut? then 1 else 0
  }

  /** Either the channel was found closed and nothing came since, or there were at
      least `limit` timeouts, and at least one, without anything in between. */
  ghost predicate SignalLost(h: seq<Event>, limit: nat) {
    || (exists i :: 0 <= i < |h| && h[i].Closed? && NothingReceivedSince(h, i + 1))
    || (exists i :: 0 <= i <= |h| && NothingReceivedSince(h, i)
                    && Timeouts(h[i..]) >= limit && Timeouts(h[i..]) >= 1)
  }

  ghost function Verdict(h: seq<Event>, limit: nat): Status {
    if LoopStalled(h) || MempoolBusy(h) then Critical
    else if SignalLost(h, limit) then Graceful
    else Alive
  }

  // ---------------------------------------------------------------- one event more

  lemma NoLoopGrows(init: seq<Event>, e: Event, i: nat)
    requires i <= |init|
    ensures NoLoopSince(init + [e], i) <==> NoLoopSince(init, i) && !e.LoopOk?
  {
    var h := init + [e];
    assert h[|init|] == e && forall k :: 0 <= k < |init| ==> h[k] == init[k];
  }

  lemma TickPendingGrows(init: seq<Event>, e: Event)
    ensures TickPending(init + [e]) <==> e.Tick? || (TickPending(init) && !e.LoopOk?)
  {
    var h := init + [e];
    if TickPending(init) && !e.LoopOk? {
      var i :| 0 <= i < |init| && init[i].Tick? && NoLoopSince(init, i);
      NoLoopGrows(init, e, i);
      assert h[i].Tick?;
    }
    if e.Tick? {
      NoLoopGrows(init, e, |init|);
      assert h[|init|].Tick?;
    }
    if TickPending(h) && !e.Tick? {
      var i :| 0 <= i < |h| && h[i].Tick? && NoLoopSince(h, i);
      NoLoopGrows(init, e, i);
      assert init[i].Tick?;
    }
  }

  lemma LoopStalledGrows(init: seq<Event>, e: Event)
    ensures LoopStalled(init + [e]) <==> !e.LoopOk? && (LoopStalled(init) || (e.Tick? && TickPending(init)))
  {
    var h := init + [e];
    if LoopStalled(h) {
      var i, j :| 0 <= i < j < |h| && h[i].Tick? && h[j].Tick? && NoLoopSince(h, i);
      NoLoopGrows(init, e, i);
      assert init[i].Tick?;
      if j < |init| {
        assert init[j].Tick?;
      }
    }
    if LoopStalled(init) && !e.LoopOk? {
      var i, j :| 0 <= i < j < |init| && init[i].Tick? && init[j].Tick? && NoLoopSince(init, i);
      NoLoopGrows(init, e, i);
      assert h[i].Tick? && h[j].Tick?;
    }
    if e.Tick? && TickPending(init) {
      var i :| 0 <= i < |init| && init[i].Tick? && NoLoopSince(init, i);
      NoLoopGrows(init, e, i);
      assert h[i].Tick? && h[|init|].Tick?;
    }
  }

  lemma MempoolBusyGrows(init: seq<Event>, e: Event)
    ensures MempoolBusy(init + [e]) <==> if e.MempoolLen? then e.len != 0 else MempoolBusy(init)
  {
    var h := init + [e];
    assert h[|init|] == e && forall k :: 0 <= k < |init| ==> h[k] == init[k];
    if MempoolBusy(init) && !e.MempoolLen? {
      var i :| 0 <= i < |init| && init[i].MempoolLen? && init[i].len != 0
               && forall k :: i < k < |init| ==> !init[k].MempoolLen?;
      assert h[i].MempoolLen? && h[i].len != 0;
    }
    if MempoolBusy(h) && !e.MempoolLen? {
      var i :| 0 <= i < |h| && h[i].MempoolLen? && h[i].len != 0
               && forall k :: i < k < |h| ==> !h[k].MempoolLen?;
      assert init[i].MempoolLen? && init[i].len != 0;
      assert forall k :: i < k < |init| ==> init[k] == h[k];
    }
  }

  /** Where the current silence began. */
  function SilentFrom(h: seq<Event>): (i: nat)
    ensures i <= |h|
  {
    if h == [] then 0 else if Received(Last(h)) then |h| else SilentFrom(DropLast(h))
  }

  lemma {:induction false} SilentFromIs(h: seq<Event>)
    ensures NothingReceivedSince(h, SilentFrom(h))
    ensures forall i :: 0 <= i <= |h| && NothingReceivedSince(h, i) ==> SilentFrom(h) <= i
    ensures SilentFrom(h) > 0 ==> Received(h[SilentFrom(h) - 1])
  {
    if h != [] {
      SilentFromIs(DropLast(h));
      var init := DropLast(h);
      assert forall k :: 0 <= k < |init| ==> h[k] == init[k];
      forall i | 0 <= i <= |h| && NothingReceivedSince(h, i) ensures SilentFrom(h) <= i {
        if i < |h| {
          assert !Received(h[|h| - 1]);
          assert NothingReceivedSince(init, i);
        }
      }
    }
  }

  lemma {:induction false} TimeoutsSuffix(h: seq<Event>, i: nat, j: nat)
    requires i <= j <= |h|
    ensures Timeouts(h[j..]) <= Timeouts(h[i..])
    decreases |h|
  {
    if j < |h| {
      var init := DropLast(h);
      TimeoutsSuffix(init, i, j);
      assert DropLast(h[i..]) == init[i..] && DropLast(h[j..]) == init[j..];
      assert Last(h[i..]) == Last(h[j..]);
    }
  }

  /** Timeouts in the current silence. */
  function Silence(h: seq<Event>): nat {
    Timeouts(h[SilentFrom(h)..])
  }

  lemma SilenceGrows(init: seq<Event>, e: Event)
    ensures Silence(init + [e]) ==
            if Received(e) then 0 else Silence(init) + if e.TimedOut? then 1 else 0
  {
    var h := init + [e];
    assert Last(h) == e && DropLast(h) == init;
    if !Received(e) {
      var i := SilentFrom(init);
      assert DropLast(h[i..]) == init[i..] && Last(h[i..]) == e;
    }
  }

  /** Loss of signal, in terms of where the silence began. */
  lemma SignalLostIs(h: seq<Event>, limit: nat)
    ensures SignalLost(h, limit) <==>
            ClosedBefore(h) || (Silence(h) >= limit && Silence(h) >= 1)
  {
    var s := SilentFrom(h);
    SilentFromIs(h);
    if i :| 0 <= i < |h| && h[i].Closed? && NothingReceivedSince(h, i + 1) {
      assert s <= i + 1;
      assert Received(h[i]);
      assert s == i + 1;
    }
    if ClosedBefore(h) {
      assert NothingReceivedSince(h, (s - 1) + 1);
    }
    if i :| 0 <= i <= |h| && NothingReceivedSince(h, i) && Timeouts(h[i..]) >= limit && Timeouts(h[i..]) >= 1 {
      TimeoutsSuffix(h, s, i);
    }
  }

  /** The last thing received was the end of the channel. */
  ghost predicate ClosedBefore(h: seq<Event>) {
    SilentFrom(h) > 0 && h[SilentFrom(h) - 1].Closed?
  }

  lemma ClosedBeforeGrows(init: seq<Event>, e: Event)
    ensures ClosedBefore(init + [e]) <==> if Received(e) then e.Closed? else ClosedBefore(init)
  {
    var h := init + [e];
    assert Last(h) == e && DropLast(h) == init;
    assert forall k :: 0 <= k < |init| ==> h[k] == init[k];
  }

  /** What the loop keeps agrees with the history at every point. */
  ghost predicate Agrees(s: State, h: seq<Event>, limit: nat) {
    && (s.health.alive <==> !LoopStalled(h))
    && (s.seenLoop <==> !TickPending(h))
    && (s.health.mempoolEmpty <==> !MempoolBusy(h))
    && s.timeouts == Silence(h)
    && (s.health.signalValid <==> !SignalLost(h, limit))
    && s.status == Judge(s.health)
  }

  lemma SignalAgrees(s: State, init: seq<Event>, e: Event, limit: nat)
    requires Agrees(s, init, limit)
    ensures Step(s, e, limit).timeouts == Silence(init + [e])
    ensures Step(s, e, limit).health.signalValid <==> !SignalLost(init + [e], limit)
  {
    SilenceGrows(init, e);
    ClosedBeforeGrows(init, e);
    SignalLostIs(init, limit);
    SignalLostIs(init + [e], limit);
  }

  lemma StepAgrees(s: State, init: seq<Event>, e: Event, limit: nat)
    requires Agrees(s, init, limit)
    ensures Agrees(Step(s, e, limit), init + [e], limit)
  {
    TickPendingGrows(init, e);
    LoopStalledGrows(init, e);
    MempoolBusyGrows(init, e);
    SignalAgrees(s, init, e, limit);
    if LoopStalled(init) {
      var i, j :| 0 <= i < j < |init| && init[i].Tick? && init[j].Tick? && NoLoopSince(init, i);
      assert TickPending(init);
    }
  }

  /** The watchdog agrees with history: after any events, for any limit, the status
      is Critical exactly when the loop stalled or the mempool is busy, and Graceful
      exactly when only the signal is lost. */
  lemma {:induction false} AgreesWithHistory(h: seq<Event>, limit: nat)
    ensures Agrees(Steps(h, limit), h, limit) && Steps(h, limit).status == Verdict(h, limit)
  {
    if h != [] {
      AgreesWithHistory(DropLast(h), limit);
      assert h == DropLast(h) + [Last(h)];
      StepAgrees(Steps(DropLast(h), limit), DropLast(h), Last(h), limit);
    }
  }
}
