/** Flush and Reset of the polling communicator, fleetspeak/src/client/https/polling.go: what the channel pollDone
    and the variable lastPollErr tell a caller of Flush about the messages that waited when it was called.

    The processing loop is that of `Polling`, with the beginning and the end of a poll as separate steps. Every
    channel made for pollDone has a number of its own.
 */
module PollFlush {
  import opened Options
  import P = Polling

  /** A call of Flush that is under way. */
  datatype Flush = Flush(
    done: nat,       // the channel that it waits for
    from: nat,       // history: the messages from this number on were waiting when it was called
    until: nat,      // history: ... up to this one, exclusively
    spoiled: bool)   // history: some of them were given back since

  datatype State = State(
    loop: P.State,
    poll: Option<nat>,     // the poll under way, by the channel that it will close
    pollDone: nat,
    made: nat,             // channels made so far
    closed: set<nat>,
    lastPollErr: bool,     // whether the last poll to end failed
    flush: Option<Flush>)

  datatype Event =
    | Take(size: nat)
    | PollStart
    | PollEnd(o: P.Outcome)
    | Reset
    | Stop
    | FlushStart
    | FlushAgain           // Flush wakes up after a failed poll and waits for the next channel
    | FlushReturn          // Flush returns lastPollErr, or is given up

  predicate Woken(s: State) {
    s.flush.Some? && s.flush.value.done in s.closed
  }

  predicate Enabled(s: State, e: Event) {
    match e
    case Take(size) => s.poll.None? && P.Enabled(s.loop, P.Take(size, P.WasReset))
    case PollStart => s.poll.None? && s.loop.running
    case PollEnd(o) => s.poll.Some? && s.loop.running
    case Reset => true
    case Stop => s.poll.None? && s.loop.running
    case FlushStart => s.flush.None?
    case FlushAgain => Woken(s) && s.lastPollErr && s.pollDone != s.flush.value.done
    case FlushReturn => s.flush.Some?
  }

  /** A new channel for pollDone if the present one is closed. */
  function Reopen(s: State): State {
    if s.pollDone in s.closed then s.(pollDone := s.made, made := s.made + 1) else s
  }

  /** Messages that a Flush waits for are given back. */
  function Spoil(f: Option<Flush>, loop: P.State): Option<Flush> {
    if f.Some? && |loop.calls| < f.value.until then Some(f.value.(spoiled := true)) else f
  }

  function Apply(s: State, e: Event): State
    requires Enabled(s, e)
  {
    match e
    case Take(size) => Reopen(s).(loop := P.Taken(s.loop, size))
    case PollStart => var t := Reopen(s); t.(poll := Some(t.pollDone))
    case PollEnd(o) =>
      s.(loop := P.AfterPoll(s.loop, o), poll := None, closed := s.closed + {s.poll.value}, lastPollErr := o != P.Sent,
         flush := if o == P.Failed then Spoil(s.flush, s.loop) else s.flush)
    case Reset => s.(pollDone := s.made, made := s.made + 1)
    case Stop => s.(loop := P.AfterStop(s.loop), flush := Spoil(s.flush, s.loop))
    case FlushStart => s.(flush := Some(Flush(s.pollDone, |s.loop.calls|, |s.loop.sizes|, false)))
    case FlushAgain => s.(flush := Some(s.flush.value.(done := s.pollDone)))
    case FlushReturn => s.(flush := None)
  }

  /** pollDone starts closed. */
  function Init(): State {
    State(P.Init(), None, 0, 1, {0}, false, None)
  }

  ghost predicate Valid(es: seq<Event>)
    decreases |es|, 0
  {
    es == [] || (Valid(es[..|es| - 1]) && Enabled(Run(es[..|es| - 1]), es[|es| - 1]))
  }

  ghost function Run(es: seq<Event>): State
    requires Valid(es)
    decreases |es|, 1
  {
    if es == [] then Init() else Apply(Run(es[..|es| - 1]), es[|es| - 1])
  }

  // ---------------------------------------------------------------- invariant

  /** Channels are closed once, and a poll under way has an open one. */
  ghost predicate Channels(s: State) {
    && s.pollDone < s.made
    && (forall c <- s.closed :: c < s.made)
    && (s.poll.Some? ==> s.poll.value < s.made && s.poll.value !in s.closed && s.pollDone !in s.closed)
  }

  /** While messages wait and the last poll did not fail, pollDone is open. */
  ghost predicate OpenWhileWaiting(s: State) {
    s.loop.toSend != [] && !s.lastPollErr ==> s.pollDone !in s.closed
  }

  ghost predicate FlushInv(s: State) {
    s.flush.Some? ==>
      var f := s.flush.value;
      && f.from <= f.until <= |s.loop.sizes| && f.from <= |s.loop.calls| && f.done < s.made
      && (|s.loop.calls| < f.until && !s.lastPollErr ==> f.done !in s.closed)
      && (f.spoiled <==> exists id :: f.from <= id < f.until && GivenBack(s.loop, id))
  }

  /** Nack was called on the message. */
  ghost predicate GivenBack(loop: P.State, id: nat) {
    id < |loop.calls| && loop.calls[id].Nack?
  }

  ghost predicate Inv(s: State) {
    P.Inv(s.loop) && Channels(s) && OpenWhileWaiting(s) && FlushInv(s)
  }

  /** The calls after the messages gathered have been settled. */
  lemma SettledCalls(loop: P.State, o: P.Outcome)
    requires P.Inv(loop) && loop.running
    ensures P.Inv(P.AfterPoll(loop, o)) && P.Inv(P.AfterStop(loop))
    ensures loop.calls <= P.AfterPoll(loop, o).calls && loop.calls <= P.AfterStop(loop).calls
    ensures o == P.WasReset ==> P.AfterPoll(loop, o) == loop
    ensures o != P.WasReset ==> P.AfterPoll(loop, o).toSend == [] && |P.AfterPoll(loop, o).calls| == |loop.sizes|
    ensures P.AfterStop(loop).toSend == [] && |P.AfterStop(loop).calls| == |loop.sizes|
    ensures P.AfterPoll(loop, o).sizes == loop.sizes && P.AfterStop(loop).sizes == loop.sizes
    ensures forall id :: |loop.calls| <= id < |loop.sizes| && o != P.WasReset ==>
              (P.AfterPoll(loop, o).calls[id].Nack? <==> o == P.Failed)
    ensures forall id :: |loop.calls| <= id < |loop.sizes| ==> P.AfterStop(loop).calls[id].Nack?
  {
    P.PollInv(loop, o);
    P.StopInv(loop);
  }

  /** A longer log of calls: what was given back before stays so, and the new entries are of one kind. */
  lemma SpoilExactly(loop: P.State, after: P.State, f: Flush, nacks: bool)
    requires loop.calls <= after.calls && f.from <= f.until <= |after.calls|
    requires forall id :: |loop.calls| <= id < |after.calls| ==> (after.calls[id].Nack? <==> nacks)
    requires f.spoiled <==> exists id :: f.from <= id < f.until && GivenBack(loop, id)
    requires f.from <= |loop.calls|
    ensures f.spoiled || (nacks && |loop.calls| < f.until) <==>
            exists id :: f.from <= id < f.until && GivenBack(after, id)
  {
    forall id: nat | id < |loop.calls|
      ensures GivenBack(loop, id) <==> GivenBack(after, id)
    {
    }
    if nacks && |loop.calls| < f.until {
      assert GivenBack(after, |loop.calls|);
    }
  }

  lemma EndStep(s: State, o: P.Outcome)
    requires Inv(s) && Enabled(s, PollEnd(o))
    ensures Inv(Apply(s, PollEnd(o)))
  {
    hide P.Inv, P.AfterPoll, P.AfterStop;
    SettledCalls(s.loop, o);
    if s.flush.Some? && o != P.WasReset {
      SpoilExactly(s.loop, P.AfterPoll(s.loop, o), s.flush.value, o == P.Failed);
    }
  }

  lemma StopStep(s: State)
    requires Inv(s) && Enabled(s, Stop)
    ensures Inv(Apply(s, Stop))
  {
    hide P.Inv, P.AfterPoll, P.AfterStop;
    SettledCalls(s.loop, P.WasReset);
    if s.flush.Some? {
      SpoilExactly(s.loop, P.AfterStop(s.loop), s.flush.value, true);
    }
  }

  lemma TakeStep(s: State, size: nat)
    requires Inv(s) && Enabled(s, Take(size))
    ensures Inv(Apply(s, Take(size)))
  {
    P.TakeInv(s.loop, size);
    hide P.Inv;
    assert forall id :: GivenBack(s.loop, id) <==> GivenBack(P.Taken(s.loop, size), id);
  }

  lemma StartStep(s: State)
    requires Inv(s) && Enabled(s, FlushStart)
    ensures Inv(Apply(s, FlushStart))
  {
    assert P.InOrder(s.loop);
    hide P.Inv;
  }

  lemma StepInv(s: State, e: Event)
    requires Inv(s) && Enabled(s, e)
    ensures Inv(Apply(s, e))
  {
    hide P.Inv, GivenBack;
    match e
    case Take(size) => TakeStep(s, size);
    case PollEnd(o) => EndStep(s, o);
    case Stop => StopStep(s);
    case FlushStart => StartStep(s);
    case _ =>
  }

  lemma {:induction false} RunInv(es: seq<Event>)
    requires Valid(es)
    ensures Inv(Run(es))
  {
    if es != [] {
      RunInv(es[..|es| - 1]);
      StepInv(Run(es[..|es| - 1]), es[|es| - 1]);
    }
  }

  // ---------------------------------------------------------------- main results

  /** Flush can return nil: the channel that it waits for is closed and the last poll succeeded. */
  predicate ReturnsNil(s: State) {
    Woken(s) && !s.lastPollErr
  }

  /** When Flush returns nil, every message that was waiting when it was called has been settled, and all of
      them were delivered exactly when no poll that carried one of them failed meanwhile. */
  lemma FlushNil(es: seq<Event>)
    requires Valid(es) && ReturnsNil(Run(es))
    ensures var s := Run(es);
            var f := s.flush.value;
            && f.until <= |s.loop.calls|
            && ((forall id :: f.from <= id < f.until ==> id in s.loop.delivered) <==> !f.spoiled)
  {
    RunInv(es);
    DeliveredIff(Run(es));
  }

  lemma DeliveredIff(s: State)
    requires Inv(s) && ReturnsNil(s)
    ensures var f := s.flush.value;
            && f.until <= |s.loop.calls|
            && ((forall id :: f.from <= id < f.until ==> id in s.loop.delivered) <==> !f.spoiled)
  {
    var f := s.flush.value;
    assert P.AcksDelivered(s.loop);
    forall id | f.from <= id < f.until
      ensures id in s.loop.delivered <==> !GivenBack(s.loop, id)
    {
      assert s.loop.calls[id].Ack? <==> id in s.loop.delivered;
    }
  }

  /** Flush returns an error: the poll that it waited for failed, and pollDone has not been replaced since. */
  predicate ReturnsError(s: State) {
    Woken(s) && s.lastPollErr && s.pollDone == s.flush.value.done
  }

  /** A Flush that wakes up returns nil, returns an error or waits again, as the last poll and pollDone say; and when
      it returns an error no other poll is under way that could make up for it. */
  lemma FlushDecides(es: seq<Event>)
    requires Valid(es) && Woken(Run(es))
    ensures var s := Run(es);
            && (Enabled(s, FlushAgain) <==> !ReturnsNil(s) && !ReturnsError(s))
            && !(ReturnsNil(s) && ReturnsError(s))
            && (ReturnsError(s) ==> s.poll.None? && s.pollDone in s.closed)
  {
    RunInv(es);
  }

  /** A poll never closes a channel that is closed already, which would panic. */
  lemma ClosesOnce(es: seq<Event>, o: P.Outcome)
    requires Valid(es) && Enabled(Run(es), PollEnd(o))
    ensures Run(es).poll.value !in Run(es).closed
  {
    RunInv(es);
  }

  // ---------------------------------------------------------------- whether Flush can return

  /** Nobody will close the channel that Flush waits for. */
  ghost predicate Orphan(s: State) {
    && s.flush.Some?
    && var done := s.flush.value.done;
    && done !in s.closed && done != s.pollDone && s.poll != Some(done)
  }

  /** The run can go on to `t` with the Flush still under way. */
  ghost predicate Leads(es: seq<Event>, t: State) {
    exists more: seq<Event> :: FlushReturn !in more && Valid(es + more) && Run(es + more) == t
  }

  lemma LeadsNow(es: seq<Event>)
    requires Valid(es)
    ensures Leads(es, Run(es))
  {
    assert es + [] == es;
    assert Valid(es + []) && Run(es + []) == Run(es);
  }

  lemma LeadsOn(es: seq<Event>, s: State, e: Event) returns (t: State)
    requires Leads(es, s) && Enabled(s, e) && !e.FlushReturn?
    ensures t == Apply(s, e) && Leads(es, t)
  {
    hide Apply, Enabled;
    var more :| FlushReturn !in more && Valid(es + more) && Run(es + more) == s;
    var all := es + (more + [e]);
    assert all[..|all| - 1] == es + more && all[|all| - 1] == e;
    t := Apply(s, e);
    assert Valid(all) && Run(all) == t;
    assert FlushReturn !in more + [e];
  }

  lemma OrphanStep(s: State, e: Event)
    requires Inv(s) && Enabled(s, e) && Orphan(s) && !e.FlushReturn?
    ensures Orphan(Apply(s, e)) && Apply(s, e).flush.value.done == s.flush.value.done
  {
    hide P.Inv, P.AfterPoll, P.AfterStop, P.Taken;
  }

  lemma {:induction false} OrphanStays(es: seq<Event>, more: seq<Event>)
    requires Valid(es) && Valid(es + more) && Orphan(Run(es)) && FlushReturn !in more
    ensures Orphan(Run(es + more))
  {
    hide Inv, Orphan, Apply;
    if more == [] {
      assert es + more == es;
    } else {
      var before, all := more[..|more| - 1], es + more;
      assert all[..|all| - 1] == es + before && all[|all| - 1] == more[|more| - 1];
      assert forall e <- before :: e in more;
      OrphanStays(es, before);
      RunInv(es + before);
      OrphanStep(Run(es + before), more[|more| - 1]);
    }
  }

  /** The poll under way, or the next one, succeeds. */
  lemma PollSucceeds(es: seq<Event>) returns (t: State)
    requires Valid(es) && Run(es).loop.running && Run(es).flush.Some? && !Orphan(Run(es))
    ensures Leads(es, t) && ReturnsNil(t)
  {
    hide Leads, Valid, Run, P.AfterPoll;
    LeadsNow(es);
    t := Run(es);
    var done := t.flush.value.done;
    if t.poll.Some? {
      StillRunning(t.loop);
      t := LeadsOn(es, t, PollEnd(P.Sent));
    }
    if done !in t.closed || t.lastPollErr {
      t := LeadsOn(es, t, PollStart);
      StillRunning(t.loop);
      t := LeadsOn(es, t, PollEnd(P.Sent));
    }
  }

  lemma StillRunning(loop: P.State)
    requires loop.running
    ensures P.AfterPoll(loop, P.Sent).running
  {
  }

  /** While the loop runs, a Flush can still return nil exactly if its channel is closed already, or is the
      current one, or the poll under way will close it. Otherwise it waits until it is given up: a Reset while no
      poll is under way takes the channel away from under it. */
  lemma FlushReturnsIff(es: seq<Event>)
    requires Valid(es) && Run(es).loop.running && Run(es).flush.Some?
    ensures (exists t :: Leads(es, t) && ReturnsNil(t)) <==> !Orphan(Run(es))
  {
    if !Orphan(Run(es)) {
      var t := PollSucceeds(es);
    } else {
      forall t | Leads(es, t)
        ensures !ReturnsNil(t)
      {
        var more :| FlushReturn !in more && Valid(es + more) && Run(es + more) == t;
        OrphanStays(es, more);
      }
    }
  }

  /** A Flush that goes on after a failed poll waits for the current channel: it is not left alone. */
  lemma AgainIsCurrent(es: seq<Event>)
    requires Valid(es) && Enabled(Run(es), FlushAgain)
    ensures !Orphan(Apply(Run(es), FlushAgain)) && Apply(Run(es), FlushAgain).flush.value.done == Run(es).pollDone
  {
  }

  // ---------------------------------------------------------------- a witness

  lemma Start() returns (es: seq<Event>, s: State)
    ensures Valid(es) && Run(es) == s == Init()
  {
    es, s := [], Init();
  }

  lemma Step(es: seq<Event>, s: State, e: Event) returns (es': seq<Event>, s': State)
    requires Valid(es) && Run(es) == s && Enabled(s, e)
    ensures Valid(es') && Run(es') == s' == Apply(s, e)
  {
    es', s' := es + [e], Apply(s, e);
    assert es'[..|es'| - 1] == es;
  }

  /** The poll that Flush waits for fails, another one succeeds before Flush wakes up: it returns nil, and the
      message was given back. */
  lemma NilUndelivered()
    ensures exists es :: Valid(es) && ReturnsNil(Run(es)) && GivenBack(Run(es).loop, 0)
  {
    hide Valid, Run;
    var es, s := Start();
    es, s := Step(es, s, Take(1));
    es, s := Step(es, s, FlushStart);
    es, s := Step(es, s, PollStart);
    es, s := Step(es, s, PollEnd(P.Failed));
    es, s := Step(es, s, PollStart);
    es, s := Step(es, s, PollEnd(P.Sent));
    assert s.loop.calls == [P.Nack(0)];
  }

  /** Flush is called, and then Reset: Flush does not return any more. */
  lemma ResetOrphans()
    ensures exists es :: Valid(es) && Run(es).loop.running && Orphan(Run(es))
  {
    hide Valid, Run;
    var es, s := Start();
    es, s := Step(es, s, Take(1));
    es, s := Step(es, s, FlushStart);
    es, s := Step(es, s, Reset);
    assert Orphan(s);
  }

  /** With nothing taken so far Flush returns at once. */
  lemma FlushOfNothing()
    ensures Valid([FlushStart]) && ReturnsNil(Run([FlushStart]))
  {
    assert [FlushStart][..0] == [];
  }
}
