/** fleetspeak/src/client/https/polling.go: the processing loop of the polling communicator, which gathers
    messages, sends them in polls and owes each of them exactly one call of Ack or Nack.

    Timers, the network and cancellation decide what happens next; a run is any sequence of such choices.
 */
module Polling {
  import opened Sums
  import opened Thresholds

  /** How a poll ends: the server took the messages, Reset cancelled it, or it failed. */
  datatype Outcome = Sent | WasReset | Failed

  datatype Call = Ack(id: nat) | Nack(id: nat)

  /** Messages are numbered in the order in which they are taken from the Outbox. */
  datatype State = State(
    toSend: seq<nat>,
    toSendSize: nat,
    calls: seq<Call>,      // the Ack and Nack calls made so far
    delivered: seq<nat>,   // history: the messages of successful polls
    sizes: seq<nat>,       // history: the size of every message taken
    running: bool)

  datatype Event =
    | Poll(o: Outcome)             // the deadline has passed, a threshold is exceeded, or the loop is woken up
    | Take(size: nat, o: Outcome)  // a message arrives; if it fills the buffer, a poll follows
    | Stop                         // the context has ended, seen at the head of the loop or after a poll
    | StopWaiting(o: Outcome)      // the context has ended while the loop waits: one last poll

  predicate Enabled(s: State, e: Event) {
    s.running &&
    match e
    case Poll(_) => true
    case Take(_, _) => s.toSendSize <= SEND_BYTES_THRESHOLD && |s.toSend| < SEND_COUNT_THRESHOLD
    case Stop => true
    case StopWaiting(o) =>
      && s.toSendSize <= SEND_BYTES_THRESHOLD && |s.toSend| < SEND_COUNT_THRESHOLD
      && o != WasReset // once the context has ended, cancellation is not a reset
  }

  function Calls(ids: seq<nat>, ack: bool): seq<Call> {
    seq(|ids|, i requires 0 <= i < |ids| => if ack then Ack(ids[i]) else Nack(ids[i]))
  }

  function AfterPoll(s: State, o: Outcome): State {
    match o
    case WasReset => s
    case Failed => s.(toSend := [], toSendSize := 0, calls := s.calls + Calls(s.toSend, false))
    case Sent =>
      s.(toSend := [], toSendSize := 0, calls := s.calls + Calls(s.toSend, true),
         delivered := s.delivered + s.toSend)
  }

  function AfterStop(s: State): State {
    s.(toSend := [], calls := s.calls + Calls(s.toSend, false), running := false)
  }

  /** A message is appended to those to send. */
  function Taken(s: State, size: nat): State {
    s.(toSend := s.toSend + [|s.sizes|], toSendSize := s.toSendSize + 2 + size, sizes := s.sizes + [size])
  }

  function Apply(s: State, e: Event): State {
    match e
    case Poll(o) => AfterPoll(s, o)
    case Take(size, o) =>
      var t := Taken(s, size);
      if t.toSendSize >= SEND_BYTES_THRESHOLD || |t.toSend| >= SEND_COUNT_THRESHOLD then AfterPoll(t, o) else t
    case Stop => AfterStop(s)
    case StopWaiting(o) => AfterStop(if s.toSendSize > 0 then AfterPoll(s, o) else s)
  }

  function Init(): State {
    State([], 0, [], [], [], true)
  }

  ghost predicate Valid(es: seq<Event>)
    decreases |es|, 0
  {
    es == [] || (Valid(es[..|es| - 1]) && Enabled(Run(es[..|es| - 1]), es[|es| - 1]))
  }

  ghost function Run(es: seq<Event>): State
    requires Valid(es)
    decreases |es|, 1
  {
    if es == [] then Init() else Apply(Run(es[..|es| - 1]), es[|es| - 1])
  }

  // ---------------------------------------------------------------- invariant

  /** The calls made and the messages gathered are, together, all the messages taken, in order. */
  ghost predicate InOrder(s: State) {
    && |s.calls| + |s.toSend| == |s.sizes|
    && (forall i :: 0 <= i < |s.calls| ==> s.calls[i].id == i)
    && (forall i :: 0 <= i < |s.toSend| ==> s.toSend[i] == |s.calls| + i)
  }

  ghost predicate AcksDelivered(s: State) {
    forall i :: 0 <= i < |s.calls| ==> (s.calls[i].Ack? <==> i in s.delivered)
  }

  ghost predicate DeliveredCalled(s: State) {
    forall id <- s.delivered :: id < |s.calls|
  }

  /** What a message adds to the size of a poll. */
  function Cost(size: nat): nat {
    2 + size
  }

  function Costs(sizes: seq<nat>): seq<nat> {
    seq(|sizes|, i requires 0 <= i < |sizes| => Cost(sizes[i]))
  }

  ghost predicate Sized(s: State)
    requires |s.calls| <= |s.sizes|
  {
    s.running ==> s.toSendSize == Sum(Costs(s.sizes[|s.calls|..]))
  }

  ghost predicate Bounded(s: State) {
    && |s.toSend| <= SEND_COUNT_THRESHOLD
    && (s.toSend != [] ==> s.sizes != [] && s.toSendSize <= SEND_BYTES_THRESHOLD + Cost(s.sizes[|s.sizes| - 1]))
    && (!s.running ==> s.toSend == [])
  }

  ghost predicate Inv(s: State) {
    InOrder(s) && AcksDelivered(s) && DeliveredCalled(s) && Sized(s) && Bounded(s)
  }

  lemma PollInv(s: State, o: Outcome)
    requires Inv(s) && s.running
    ensures Inv(AfterPoll(s, o))
  {
    var t := AfterPoll(s, o);
    if o != WasReset {
      assert s.sizes[|t.calls|..] == [];
      forall i | 0 <= i < |t.calls|
        ensures t.calls[i].id == i && (t.calls[i].Ack? <==> i in t.delivered)
      {
        if i >= |s.calls| {
          assert s.toSend[i - |s.calls|] == i;
        }
      }
    }
  }

  lemma StopInv(s: State)
    requires Inv(s) && s.running
    ensures Inv(AfterStop(s))
  {
    var t := AfterStop(s);
    assert t.calls == s.calls + Calls(s.toSend, false);
  }

  lemma TakeInv(s: State, size: nat)
    requires Inv(s) && s.running && s.toSendSize <= SEND_BYTES_THRESHOLD && |s.toSend| < SEND_COUNT_THRESHOLD
    ensures Inv(Taken(s, size))
  {
    var t := Taken(s, size);
    var n := |s.calls|;
    assert t.sizes[n..] == s.sizes[n..] + [size];
    assert Costs(t.sizes[n..]) == Costs(s.sizes[n..]) + [Cost(size)];
    SumAppend(Costs(s.sizes[n..]), [Cost(size)]);
    assert Sum([Cost(size)]) == Cost(size);
  }

  lemma StepInv(s: State, e: Event)
    requires Inv(s) && Enabled(s, e)
    ensures Inv(Apply(s, e))
  {
    hide Inv;
    match e
    case Poll(o) => PollInv(s, o);
    case Take(size, o) =>
      TakeInv(s, size);
      PollInv(Taken(s, size), o);
    case Stop => StopInv(s);
    case StopWaiting(o) =>
      StopInv(s);
      PollInv(s, o);
      StopInv(AfterPoll(s, o));
  }

  lemma {:induction false} RunInv(es: seq<Event>)
    requires Valid(es)
    ensures Inv(Run(es))
  {
    if es != [] {
      RunInv(es[..|es| - 1]);
      StepInv(Run(es[..|es| - 1]), es[|es| - 1]);
    }
  }

  // ---------------------------------------------------------------- main results

  ghost predicate CalledAt(s: State, id: nat, i: nat) {
    i < |s.calls| && s.calls[i].id == id
  }

  /** In every reachable state a message that was taken either waits in toSend and nothing has been called
      on it, or exactly one call has been made on it: Ack if a poll delivered it and Nack if none did.
      Once the loop has returned, that is so for all messages. */
  lemma ExactlyOnce(es: seq<Event>, id: nat)
    requires Valid(es) && id < |Run(es).sizes|
    ensures var s := Run(es);
            && (id in s.toSend <==> forall i: nat :: !CalledAt(s, id, i))
            && (forall i: nat, j: nat :: CalledAt(s, id, i) && CalledAt(s, id, j) ==> i == j)
            && (forall i: nat :: CalledAt(s, id, i) ==> (s.calls[i].Ack? <==> id in s.delivered))
            && (!s.running ==> exists i: nat :: CalledAt(s, id, i))
  {
    RunInv(es);
    var s := Run(es);
    if id < |s.calls| {
      assert CalledAt(s, id, id);
    } else {
      assert s.toSend[id - |s.calls|] == id;
    }
  }

  /** The messages gathered are the latest ones, in order, their sizes are accounted for, and they exceed
      neither the count threshold nor the byte threshold by more than their last message. */
  lemma Gathered(es: seq<Event>)
    requires Valid(es) && Run(es).running
    ensures var s := Run(es);
            && |s.toSend| <= |s.sizes| && |s.toSend| <= SEND_COUNT_THRESHOLD
            && (forall i :: 0 <= i < |s.toSend| ==> s.toSend[i] == |s.sizes| - |s.toSend| + i)
            && s.toSendSize == Sum(Costs(s.sizes[|s.sizes| - |s.toSend|..]))
            && (s.toSend != [] ==> s.toSendSize <= SEND_BYTES_THRESHOLD + Cost(s.sizes[|s.sizes| - 1]))
  {
    RunInv(es);
  }

  datatype Verdict = Acknowledged | GivenBack | Waiting

  /** What a poll with this outcome does with the messages that it carries. */
  function Fate(o: Outcome): Verdict {
    match o
    case Sent => Acknowledged
    case WasReset => Waiting
    case Failed => GivenBack
  }

  /** The fate of the messages waiting, including one that arrives: they are polled when the loop polls, when an
      arriving message makes them reach a threshold, and once more at the end. */
  function Decided(s: State, e: Event): Verdict {
    match e
    case Poll(o) => Fate(o)
    case Take(size, o) =>
      if s.toSendSize + Cost(size) < SEND_BYTES_THRESHOLD && |s.toSend| + 1 < SEND_COUNT_THRESHOLD then Waiting
      else Fate(o)
    case Stop => GivenBack
    case StopWaiting(o) => Fate(o)
  }

  /** At some step of the run message `id` was waiting, or arrived, and this was decided. */
  ghost predicate Met(es: seq<Event>, id: nat, v: Verdict)
    requires Valid(es)
    decreases |es|
  {
    && es != []
    && var before, e := es[..|es| - 1], es[|es| - 1];
    || Met(before, id, v)
    || (|Run(before).calls| <= id < |Run(es).sizes| && Decided(Run(before), e) == v)
  }

  /** What a step does to the log of calls. */
  lemma StepCalls(s: State, e: Event)
    requires Inv(s) && Enabled(s, e)
    ensures var t := Apply(s, e);
            && s.calls <= t.calls
            && t.sizes == s.sizes + (if e.Take? then [e.size] else [])
            && t.running == !(e.Stop? || e.StopWaiting?)
            && |t.calls| == (if Decided(s, e) == Waiting then |s.calls| else |t.sizes|)
            && forall i :: |s.calls| <= i < |t.calls| ==> (t.calls[i].Ack? <==> Decided(s, e) == Acknowledged)
  {
    hide Inv, AfterPoll, AfterStop;
    match e
    case Poll(o) => PollCalls(s, o);
    case Take(size, o) =>
      TakeInv(s, size);
      PollCalls(Taken(s, size), o);
    case Stop => StopCalls(s);
    case StopWaiting(o) =>
      NothingToSend(s);
      PollCalls(s, o);
      PollInv(s, o);
      StopCalls(AfterPoll(s, o));
      StopCalls(s);
  }

  lemma PollCalls(s: State, o: Outcome)
    requires Inv(s) && s.running
    ensures var t := AfterPoll(s, o);
            && s.calls <= t.calls && t.sizes == s.sizes && t.running
            && |t.calls| == (if o == WasReset then |s.calls| else |s.sizes|)
            && (o != WasReset ==> t.toSend == [])
            && forall i :: |s.calls| <= i < |t.calls| ==> (t.calls[i].Ack? <==> o == Sent)
  {
    hide Sized, Bounded, AcksDelivered, DeliveredCalled;
  }

  lemma StopCalls(s: State)
    requires Inv(s) && s.running
    ensures var t := AfterStop(s);
            && s.calls <= t.calls && t.sizes == s.sizes && !t.running && |t.calls| == |s.sizes|
            && forall i :: |s.calls| <= i < |t.calls| ==> t.calls[i].Nack?
  {
    hide Sized, Bounded, AcksDelivered, DeliveredCalled;
  }

  lemma NothingToSend(s: State)
    requires Inv(s) && s.running
    ensures s.toSendSize == 0 ==> s.toSend == [] && |s.calls| == |s.sizes|
  {
  }

  /** Ack is called on a message exactly when a poll that succeeded carried it, and Nack exactly when one that
      failed did or the loop was stopped while it waited; a message that waits for the last poll of a shutdown
      meets the outcome of that poll. */
  lemma {:induction false} CalledIff(es: seq<Event>, id: nat, v: Verdict)
    requires Valid(es) && v != Waiting
    ensures Met(es, id, v) <==> id < |Run(es).calls| && (Run(es).calls[id].Ack? <==> v == Acknowledged)
  {
    hide Inv, Apply, Decided;
    if es == [] {
      assert Run(es).calls == [];
    } else {
      var before, e := es[..|es| - 1], es[|es| - 1];
      CalledIff(before, id, v);
      RunInv(before);
      StepCalls(Run(before), e);
    }
  }

  /** The loop is always ready: in every reachable state in which it has not returned it can poll or be stopped, and
      it takes a message or is stopped while waiting exactly below both thresholds; a poll that succeeds then
      settles everything taken so far. */
  lemma Ready(es: seq<Event>, size: nat, o: Outcome)
    requires Valid(es) && Run(es).running
    ensures Enabled(Run(es), Poll(o)) && Enabled(Run(es), Stop)
    ensures Enabled(Run(es), Take(size, o)) <==>
            |Run(es).toSend| < SEND_COUNT_THRESHOLD && Run(es).toSendSize <= SEND_BYTES_THRESHOLD
    ensures Enabled(Run(es), StopWaiting(o)) <==> Enabled(Run(es), Take(size, o)) && o != WasReset
    ensures Valid(es + [Poll(Sent)]) && Run(es + [Poll(Sent)]).toSend == []
    ensures forall id :: |Run(es).calls| <= id < |Run(es).sizes| ==> id in Run(es + [Poll(Sent)]).delivered
  {
    var s, more := Run(es), es + [Poll(Sent)];
    assert more[..|more| - 1] == es;
    RunInv(es);
    forall id | |s.calls| <= id < |s.sizes|
      ensures id in s.toSend
    {
      assert s.toSend[id - |s.calls|] == id;
    }
  }

  predicate OnlyResets(e: Event) {
    (e.Poll? && e.o == WasReset) || (e.Take? && e.o == WasReset)
  }

  /** However many polls Reset cancels in a row, nothing is called and no message is dropped or reordered. */
  lemma {:induction false} ResetsKeep(es: seq<Event>, more: seq<Event>)
    requires Valid(es + more) && Valid(es) && forall e <- more :: OnlyResets(e)
    ensures Run(es).toSend <= Run(es + more).toSend && Run(es + more).calls == Run(es).calls
    ensures Run(es + more).running == Run(es).running
  {
    if more == [] {
      assert es + more == es;
    } else {
      var before := more[..|more| - 1];
      assert (es + more)[..|es + more| - 1] == es + before;
      ResetsKeep(es, before);
      assert OnlyResets(more[|more| - 1]);
    }
  }

  // ---------------------------------------------------------------- the loop

  class Communicator {
    var toSend: seq<nat>
    var toSendSize: nat
    var calls: seq<Call>
    var delivered: seq<nat>
    var sizes: seq<nat>
    var running: bool

    ghost function View(): State
      reads this
    {
      State(toSend, toSendSize, calls, delivered, sizes, running)
    }

    constructor ()
      ensures View() == Init()
    {
      toSend, toSendSize, calls, delivered, sizes, running := [], 0, [], [], [], true;
    }

    /** Calls Ack, or Nack, on every message of toSend. */
    method Settle(ack: bool)
      modifies this`calls
      ensures calls == old(calls) + Calls(toSend, ack)
    {
      var k := 0;
      while k < |toSend|
        invariant 0 <= k <= |toSend|
        invariant calls == old(calls) + Calls(toSend, ack)[..k]
      {
        calls := calls + [if ack then Ack(toSend[k]) else Nack(toSend[k])];
        k := k + 1;
      }
    }

    method DoPoll(o: Outcome)
      modifies this
      ensures View() == AfterPoll(old(View()), o)
    {
      if o == WasReset {
        return;
      }
      if o == Failed {
        Settle(false);
      } else {
        Settle(true);
        delivered := delivered + toSend;
      }
      toSend := [];
      toSendSize := 0;
    }

    method Receive(size: nat, o: Outcome)
      modifies this
      ensures View() == Apply(old(View()), Take(size, o))
    {
      toSend := toSend + [|sizes|];
      sizes := sizes + [size];
      toSendSize := toSendSize + 2 + size;
      if toSendSize >= SEND_BYTES_THRESHOLD || |toSend| >= SEND_COUNT_THRESHOLD {
        DoPoll(o);
      }
    }

    /** The whole loop, for any choices `es` that it can be confronted with. */
    method ProcessingLoop(es: seq<Event>)
      requires Valid(es) && View() == Init()
      modifies this
      ensures View() == Run(es)
    {
      var k := 0;
      Prefixes(es, 0);
      while k < |es|
        invariant 0 <= k <= |es|
        invariant Valid(es[..k]) && View() == Run(es[..k])
      {
        Prefixes(es, k + 1);
        assert es[..k + 1][..k] == es[..k];
        match es[k] {
          case Poll(o) => DoPoll(o);
          case Take(size, o) => Receive(size, o);
          case Stop =>
            Settle(false);
            toSend, running := [], false;
          case StopWaiting(o) =>
            if toSendSize > 0 {
              DoPoll(o);
            }
            Settle(false);
            toSend, running := [], false;
        }
        k := k + 1;
      }
      assert es[..k] == es;
    }
  }

  lemma {:induction false} Prefixes(es: seq<Event>, n: nat)
    requires Valid(es) && n <= |es|
    ensures Valid(es[..n])
  {
    if n < |es| {
      Prefixes(es[..|es| - 1], n);
      assert es[..|es| - 1][..n] == es[..n];
    } else {
      assert es[..n] == es;
    }
  }
}
