/** A client's retry loop, its SortLoop and its streaming communicator together, up to and including
    Client.Stop: what a service learns when the Ack of a message that it sent runs.

    The SortLoop (fleetspeak/src/client/internal/message/sort.go) keeps a queue for every priority, and a retry
    loop serves one priority, so for its messages the SortLoop is a queue. The communicator takes from that
    queue and from those of the other retry loops. Every taking has its own number: a message that is nacked and
    offered again is taken under several numbers. A callback runs some time after the communicator has decided
    for it.

    Client.Stop (fleetspeak/src/client/client.go) stops the communicator, then drains the queue itself, calling
    Ack on everything, and closes the input of the retry loop.
 */
module ClientDelivery {
  import opened Ledger
  import opened Options
  import R = RetryLoop
  import C = StreamClient
  import S = StreamSession

  type Carried = seq<Option<R.Msg>>

  datatype State = State(
    retry: R.State,
    queue: seq<R.Msg>,    // in the SortLoop
    session: S.Session,
    carried: Carried,     // the message of every taking, None if it is one of another retry loop
    called: set<Id>,      // the takings whose callback has run
    stopped: bool,        // the communicator has been stopped
    closed: bool,         // the input of the retry loop has been closed
    drained: seq<R.Msg>)  // history: messages acked by Client.Stop

  datatype Event =
    | Retry(re: R.Event)      // a step of the retry loop alone
    | Sort                    // the SortLoop receives the message on offer
    | Take(ce: C.Event)       // the communicator takes a message
    | TakeOther(ce: C.Event)  // ... or one of another retry loop
    | Session(se: S.Event)    // a step of the communicator, the connection or the server
    | CallAck(id: Id)
    | CallNack(id: Id)
    | Stop                    // the communicator has stopped: no connection, and every callback has run
    | CloseInput
    | Drain                   // Client.Stop takes a message and acks it

  predicate IsTake(e: C.Event) {
    e.ConnectTake? || e.GroupTake?
  }

  /** What each part can do by itself. */
  predicate Willing(cfg: R.Config, s: State, e: Event) {
    match e
    case Retry(re) =>
      && R.Enabled(cfg, s.retry, re)
      && (re.HandleAck? || re.HandleNack? || (re.Read? && !s.closed) || (re.Close? && s.closed))
    case Sort => R.Enabled(cfg, s.retry, R.Take)
    case Take(ce) => !s.stopped && s.queue != [] && IsTake(ce) && S.Enabled(s.session, S.Local(ce))
    case TakeOther(ce) => !s.stopped && IsTake(ce) && S.Enabled(s.session, S.Local(ce))
    case Session(se) => S.Enabled(s.session, se) && if s.stopped then se.Server? else !(se.Local? && IsTake(se.ce))
    case CallAck(id) => id in s.session.client.acked && id !in s.called
    case CallNack(id) => id in s.session.client.nacked && id !in s.called
    case Stop => !s.stopped && !s.session.client.connected && s.session.client.toSend == [] && AllCalled(s)
    case CloseInput => s.stopped && !s.closed
    case Drain => s.stopped && s.queue != []
  }

  predicate AllCalled(s: State) {
    forall id :: 0 <= id < |s.carried| ==> id in s.called
  }

  /** A message that is called back must be one that the retry loop has given away; see `NeverRefused`. */
  predicate Enabled(cfg: R.Config, s: State, e: Event) {
    && Willing(cfg, s, e)
    && (e.CallAck? || e.CallNack? ==>
          e.id < |s.carried| && (s.carried[e.id].Some? ==> s.carried[e.id].value in s.retry.held))
    && (e.Drain? ==> s.queue[0] in s.retry.held)
  }

  function Apply(cfg: R.Config, s: State, e: Event): State
    requires Enabled(cfg, s, e)
  {
    match e
    case Retry(re) => s.(retry := R.Apply(s.retry, re))
    case Sort => s.(retry := R.Apply(s.retry, R.Take), queue := s.queue + [s.retry.out.value])
    case Take(ce) =>
      s.(session := S.Apply(s.session, S.Local(ce)), carried := s.carried + [Some(s.queue[0])],
         queue := s.queue[1..])
    case TakeOther(ce) => s.(session := S.Apply(s.session, S.Local(ce)), carried := s.carried + [None])
    case Session(se) => s.(session := S.Apply(s.session, se))
    case CallAck(id) => s.(retry := CallBack(s.retry, s.carried[id], true), called := s.called + {id})
    case CallNack(id) => s.(retry := CallBack(s.retry, s.carried[id], false), called := s.called + {id})
    case Stop => s.(stopped := true)
    case CloseInput => s.(closed := true)
    case Drain =>
      s.(retry := R.Apply(s.retry, R.CallAck(s.queue[0])), queue := s.queue[1..], drained := s.drained + [s.queue[0]])
  }

  /** The callback of a message of another retry loop does not concern this one. */
  function CallBack(r: R.State, c: Option<R.Msg>, ack: bool): R.State {
    if c.None? then r else R.Apply(r, if ack then R.CallAck(c.value) else R.CallNack(c.value))
  }

  function Init(): State {
    State(R.Init(), [], S.Init(), [], {}, false, false, [])
  }

  ghost predicate Valid(cfg: R.Config, es: seq<Event>)
    decreases |es|, 0
  {
    es == [] || (Valid(cfg, es[..|es| - 1]) && Enabled(cfg, Run(cfg, es[..|es| - 1]), es[|es| - 1]))
  }

  ghost function Run(cfg: R.Config, es: seq<Event>): State
    requires Valid(cfg, es)
    decreases |es|, 1
  {
    if es == [] then Init() else Apply(cfg, Run(cfg, es[..|es| - 1]), es[|es| - 1])
  }

  // ---------------------------------------------------------------- invariant

  /** The messages taken whose callback has not run. */
  function Open(carried: Carried, called: set<Id>): multiset<R.Msg> {
    if carried == [] then multiset{}
    else
      Open(carried[..|carried| - 1], called) + OpenAt(carried, called, |carried| - 1)
  }

  function OpenAt(carried: Carried, called: set<Id>, id: Id): multiset<R.Msg>
    requires id < |carried|
  {
    if id in called || carried[id].None? then multiset{} else multiset{carried[id].value}
  }

  /** The message was in a contact that a server has read in full. */
  ghost predicate WasRead(carried: Carried, reached: set<Id>, m: R.Msg) {
    exists id :: 0 <= id < |carried| && carried[id] == Some(m) && id in reached
  }

  /** What the retry loop has given away is in the SortLoop, or taken and not called back. */
  ghost predicate Linked(s: State) {
    && |s.carried| == s.session.client.taken
    && s.retry.held == Open(s.carried, s.called) + multiset(s.queue)
    && (forall id <- s.called :: id < |s.carried|)
  }

  ghost predicate AcksRead(s: State) {
    forall m <- s.retry.acked :: WasRead(s.carried, s.session.reached, m) || m in s.drained
  }

  /** The order of a shutdown. */
  ghost predicate Orderly(s: State) {
    && (!s.stopped ==> s.drained == [] && !s.closed)
    && (s.stopped ==> AllCalled(s))
    && (!s.retry.running ==> s.closed && s.retry.out.None?)
  }

  ghost predicate Inv(cfg: R.Config, s: State) {
    R.Inv(cfg, s.retry) && S.Inv(s.session) && Linked(s) && AcksRead(s) && Orderly(s)
  }

  lemma OpenTake(carried: Carried, called: set<Id>, c: Option<R.Msg>)
    requires |carried| !in called
    ensures Open(carried + [c], called) == Open(carried, called) + if c.Some? then multiset{c.value} else multiset{}
  {
    assert (carried + [c])[..|carried|] == carried;
  }

  lemma {:induction false} OpenLater(carried: Carried, called: set<Id>, id: Id)
    requires id >= |carried|
    ensures Open(carried, called + {id}) == Open(carried, called)
  {
    if carried != [] {
      OpenLater(carried[..|carried| - 1], called, id);
    }
  }

  lemma OpenUnfold(carried: Carried, called: set<Id>)
    requires carried != []
    ensures Open(carried, called) == Open(carried[..|carried| - 1], called) + OpenAt(carried, called, |carried| - 1)
  {
  }

  lemma {:induction false} OpenCall(carried: Carried, called: set<Id>, id: Id)
    requires id < |carried| && id !in called && carried[id].Some?
    ensures carried[id].value in Open(carried, called)
    ensures Open(carried, called + {id}) == Open(carried, called) - multiset{carried[id].value}
  {
    hide Open;
    var n := |carried| - 1;
    OpenUnfold(carried, called);
    OpenUnfold(carried, called + {id});
    if id < n {
      OpenCall(carried[..n], called, id);
      assert OpenAt(carried, called + {id}, n) == OpenAt(carried, called, n);
      hide OpenAt;
      Less(Open(carried[..n], called), OpenAt(carried, called, n), carried[id].value);
    } else {
      OpenLater(carried[..n], called, id);
      Less(multiset{carried[n].value}, Open(carried[..n], called), carried[n].value);
    }
  }

  lemma {:induction false} OpenCallOther(carried: Carried, called: set<Id>, id: Id)
    requires id < |carried| && carried[id].None?
    ensures Open(carried, called + {id}) == Open(carried, called)
  {
    var n := |carried| - 1;
    if id < n {
      OpenCallOther(carried[..n], called, id);
    } else {
      OpenLater(carried[..n], called, id);
    }
  }

  lemma Less(a: multiset<R.Msg>, b: multiset<R.Msg>, m: R.Msg)
    requires m in a
    ensures m in a + b && a + b - multiset{m} == a - multiset{m} + b && a + b == b + a
    ensures a == multiset{m} ==> b + a - multiset{m} == b
  {
  }

  // ---------------------------------------------------------------- what the parts do

  /** The session's history only grows, and only a taking adds a message. */
  lemma SessionFrame(s: S.Session, e: S.Event)
    requires S.Enabled(s, e)
    ensures s.reached <= S.Apply(s, e).reached
    ensures S.Apply(s, e).client.taken == s.client.taken + if e.Local? && IsTake(e.ce) then 1 else 0
  {
    hide Move;
    match e
    case Local(ce) => C.TakenStep(s.client, ce);
    case Number(ce) => C.TakenStep(s.client, ce);
    case _ =>
  }

  lemma RetryFrame(s: R.State, e: R.Event)
    requires e.Read? || e.Close? || (e.HandleAck? && s.acks != []) || (e.HandleNack? && s.nacks != [])
    ensures R.Apply(s, e).held == s.held && R.Apply(s, e).acked == s.acked
  {
  }

  /** Messages called back were taken before. */
  lemma SettledTaken(s: S.Session, id: Id)
    requires S.Inv(s) && (id in s.client.acked || id in s.client.nacked)
    ensures id < s.client.taken
    ensures id in s.client.acked ==> id in s.reached
  {
    hide C.Control, S.Linked, S.DoneOnce;
  }

  lemma {:induction false} OpenNone(carried: Carried, called: set<Id>)
    requires forall id :: 0 <= id < |carried| ==> id in called
    ensures Open(carried, called) == multiset{}
  {
    if carried != [] {
      OpenNone(carried[..|carried| - 1], called);
    }
  }

  lemma HeadTail(q: seq<R.Msg>)
    requires q != []
    ensures multiset(q) == multiset{q[0]} + multiset(q[1..]) && q[0] in multiset(q)
  {
    assert q == [q[0]] + q[1..];
  }

  lemma CallFrame(s: R.State, m: R.Msg)
    ensures var t := R.Apply(s, R.CallAck(m));
            t.held == s.held - multiset{m} && t.acked == s.acked + [m] && t.running == s.running && t.out == s.out
    ensures var t := R.Apply(s, R.CallNack(m));
            t.held == s.held - multiset{m} && t.acked == s.acked && t.running == s.running && t.out == s.out
  {
  }

  // ---------------------------------------------------------------- every step keeps it

  lemma RetryStep(cfg: R.Config, s: State, re: R.Event)
    requires Inv(cfg, s) && Enabled(cfg, s, Retry(re))
    ensures Inv(cfg, Apply(cfg, s, Retry(re)))
  {
    hide R.Inv, S.Inv, Open, WasRead;
    R.StepInv(cfg, s.retry, re);
    RetryFrame(s.retry, re);
  }

  lemma SortStep(cfg: R.Config, s: State)
    requires Inv(cfg, s) && Enabled(cfg, s, Sort)
    ensures Inv(cfg, Apply(cfg, s, Sort))
  {
    hide R.Inv, S.Inv, Open, WasRead;
    R.StepInv(cfg, s.retry, R.Take);
    var m := s.retry.out.value;
    assert multiset(s.queue + [m]) == multiset(s.queue) + multiset{m};
  }

  lemma TakeStep(cfg: R.Config, s: State, ce: C.Event)
    requires Inv(cfg, s) && Enabled(cfg, s, Take(ce))
    ensures Inv(cfg, Apply(cfg, s, Take(ce)))
  {
    hide R.Inv, S.Inv, S.Apply, S.Enabled, Open, WasRead;
    var t := Apply(cfg, s, Take(ce));
    var m := s.queue[0];
    S.StepInv(s.session, S.Local(ce));
    SessionFrame(s.session, S.Local(ce));
    OpenTake(s.carried, s.called, Some(m));
    HeadTail(s.queue);
    Regroup(Open(s.carried, s.called), multiset{m}, multiset(s.queue[1..]));
    ReadStays(s.carried, s.session.reached, t.carried, t.session.reached, s.retry.acked);
  }

  lemma TakeOtherStep(cfg: R.Config, s: State, ce: C.Event)
    requires Inv(cfg, s) && Enabled(cfg, s, TakeOther(ce))
    ensures Inv(cfg, Apply(cfg, s, TakeOther(ce)))
  {
    hide R.Inv, S.Inv, S.Apply, S.Enabled, Open, WasRead;
    var t := Apply(cfg, s, TakeOther(ce));
    S.StepInv(s.session, S.Local(ce));
    SessionFrame(s.session, S.Local(ce));
    OpenTake(s.carried, s.called, None);
    ReadStays(s.carried, s.session.reached, t.carried, t.session.reached, s.retry.acked);
  }

  lemma Regroup(a: multiset<R.Msg>, b: multiset<R.Msg>, c: multiset<R.Msg>)
    ensures a + (b + c) == a + b + c
  {
  }

  /** What was read stays read. */
  lemma ReadStays(carried: Carried, reached: set<Id>, carried': Carried, reached': set<Id>, acked: seq<R.Msg>)
    requires carried <= carried' && reached <= reached'
    ensures forall m <- acked :: WasRead(carried, reached, m) ==> WasRead(carried', reached', m)
  {
    forall m <- acked | WasRead(carried, reached, m)
      ensures WasRead(carried', reached', m)
    {
      var id :| 0 <= id < |carried| && carried[id] == Some(m) && id in reached;
      assert carried'[id] == Some(m);
    }
  }

  lemma SessionStep(cfg: R.Config, s: State, se: S.Event)
    requires Inv(cfg, s) && Enabled(cfg, s, Session(se))
    ensures Inv(cfg, Apply(cfg, s, Session(se)))
  {
    hide R.Inv, S.Inv, S.Apply, S.Enabled, Open, WasRead;
    var t := Apply(cfg, s, Session(se));
    S.StepInv(s.session, se);
    SessionFrame(s.session, se);
    ReadStays(s.carried, s.session.reached, s.carried, t.session.reached, s.retry.acked);
  }

  lemma CallHeld(s: State, id: Id, ack: bool)
    requires Linked(s) && id < |s.carried| && id !in s.called
    ensures CallBack(s.retry, s.carried[id], ack).held == Open(s.carried, s.called + {id}) + multiset(s.queue)
  {
    hide Open, R.Apply;
    if s.carried[id].Some? {
      var m := s.carried[id].value;
      CallFrame(s.retry, m);
      OpenCall(s.carried, s.called, id);
      hide Linked;
      Less(Open(s.carried, s.called), multiset(s.queue), m);
    } else {
      OpenCallOther(s.carried, s.called, id);
    }
  }

  lemma CallLinked(cfg: R.Config, s: State, e: Event)
    requires Linked(s) && Enabled(cfg, s, e) && (e.CallAck? || e.CallNack?)
    ensures Linked(Apply(cfg, s, e))
  {
    hide Open, R.Apply, R.Enabled, S.Enabled, CallBack;
    CallHeld(s, e.id, e.CallAck?);
  }

  lemma CallStep(cfg: R.Config, s: State, e: Event)
    requires Inv(cfg, s) && Enabled(cfg, s, e) && (e.CallAck? || e.CallNack?)
    ensures Inv(cfg, Apply(cfg, s, e))
  {
    hide R.Inv, S.Inv, WasRead, Linked, R.Apply;
    CallLinked(cfg, s, e);
    if s.carried[e.id].Some? {
      var m := s.carried[e.id].value;
      R.StepInv(cfg, s.retry, if e.CallAck? then R.CallAck(m) else R.CallNack(m));
      CallFrame(s.retry, m);
      SettledTaken(s.session, e.id);
      if e.CallAck? {
        ReadNow(s.carried, s.session.reached, e.id);
      }
    }
  }

  lemma ReadNow(carried: Carried, reached: set<Id>, id: Id)
    requires id < |carried| && carried[id].Some? && id in reached
    ensures WasRead(carried, reached, carried[id].value)
  {
  }

  lemma DrainStep(cfg: R.Config, s: State)
    requires Inv(cfg, s) && Enabled(cfg, s, Drain)
    ensures Inv(cfg, Apply(cfg, s, Drain))
  {
    hide R.Inv, S.Inv, WasRead, Open, R.Apply;
    var m := s.queue[0];
    R.StepInv(cfg, s.retry, R.CallAck(m));
    CallFrame(s.retry, m);
    HeadTail(s.queue);
    DrainHeld(Open(s.carried, s.called), multiset(s.queue), multiset(s.queue[1..]), m);
  }

  lemma DrainHeld(o: multiset<R.Msg>, q: multiset<R.Msg>, rest: multiset<R.Msg>, m: R.Msg)
    requires q == multiset{m} + rest
    ensures o + q - multiset{m} == o + rest
  {
  }

  lemma StepInv(cfg: R.Config, s: State, e: Event)
    requires Inv(cfg, s) && Enabled(cfg, s, e)
    ensures Inv(cfg, Apply(cfg, s, e))
  {
    hide R.Inv, S.Inv, WasRead, Open, R.Apply, S.Apply, S.Enabled;
    match e
    case Retry(re) => RetryStep(cfg, s, re);
    case Sort => SortStep(cfg, s);
    case Take(ce) => TakeStep(cfg, s, ce);
    case TakeOther(ce) => TakeOtherStep(cfg, s, ce);
    case Session(se) => SessionStep(cfg, s, se);
    case CallAck(_) => CallStep(cfg, s, e);
    case CallNack(_) => CallStep(cfg, s, e);
    case Stop =>
    case CloseInput =>
    case Drain => DrainStep(cfg, s);
  }

  lemma InitInv(cfg: R.Config)
    ensures Inv(cfg, Init())
  {
    hide S.Inv;
    S.RunInv([]);
    R.RunInv(cfg, []);
  }

  lemma {:induction false} RunInv(cfg: R.Config, es: seq<Event>)
    requires Valid(cfg, es)
    ensures Inv(cfg, Run(cfg, es))
  {
    hide Inv, Apply, Init;
    InitInv(cfg);
    if es != [] {
      RunInv(cfg, es[..|es| - 1]);
      StepInv(cfg, Run(cfg, es[..|es| - 1]), es[|es| - 1]);
    }
  }

  // ---------------------------------------------------------------- what an Ack means

  /** Whenever the communicator, or Client.Stop, decides for a callback, the retry loop is prepared for it. */
  lemma NeverRefused(cfg: R.Config, es: seq<Event>, e: Event)
    requires Valid(cfg, es) && Willing(cfg, Run(cfg, es), e)
    ensures Enabled(cfg, Run(cfg, es), e)
  {
    hide Run, Valid, R.Inv, S.Inv;
    RunInv(cfg, es);
    Prepared(cfg, Run(cfg, es), e);
  }

  lemma Prepared(cfg: R.Config, s: State, e: Event)
    requires Inv(cfg, s) && Willing(cfg, s, e)
    ensures Enabled(cfg, s, e)
  {
    hide R.Inv, S.Inv, R.Enabled, S.Enabled, Open;
    if e.CallAck? || e.CallNack? {
      SettledTaken(s.session, e.id);
      if s.carried[e.id].Some? {
        OpenCall(s.carried, s.called, e.id);
      }
    } else if e.Drain? {
      HeadTail(s.queue);
    }
  }

  /** For every message that a service gave to the client, through any number of retries and connections and
      a shutdown at any point: its Ack runs at most once, and only after a server has read in full a contact
      that carries the message, or because Client.Stop drained it, which happens only after the communicator
      was stopped. Until then the message is on offer, given away or waiting to be offered again. */
  lemma AckMeansRead(cfg: R.Config, es: seq<Event>, i: nat)
    requires Valid(cfg, es) && i < |Run(cfg, es).retry.read|
    ensures var s := Run(cfg, es);
            var m := s.retry.read[i];
            && multiset(s.retry.acked)[m] <= 1
            && (m in s.retry.acked ==> WasRead(s.carried, s.session.reached, m) || m in s.drained)
            && (!s.stopped ==> s.drained == [])
            && (m !in s.retry.acked ==> s.retry.out == Some(m) || m in s.retry.held || m in s.retry.nacks)
  {
    hide Run, Valid, R.Inv, S.Inv, WasRead;
    RunInv(cfg, es);
    var s := Run(cfg, es);
    R.OnePlace(cfg, s.retry, i);
    var m := s.retry.read[i];
    assert m in s.retry.acked <==> m in multiset(s.retry.acked);
    assert m in s.retry.nacks <==> m in multiset(s.retry.nacks);
  }

  /** Every message acked so far was read. */
  ghost predicate AllRead(s: State) {
    forall m <- s.retry.acked :: WasRead(s.carried, s.session.reached, m)
  }

  /** At every moment an Ack means that the message was read. */
  ghost predicate AlwaysRead(cfg: R.Config, es: seq<Event>)
    requires Valid(cfg, es)
    decreases |es|
  {
    AllRead(Run(cfg, es)) && (es == [] || AlwaysRead(cfg, es[..|es| - 1]))
  }

  /** Client.Stop drains only what a server has read before. */
  ghost predicate DrainsRead(cfg: R.Config, es: seq<Event>)
    requires Valid(cfg, es)
    decreases |es|
  {
    es == [] ||
    var s, e := Run(cfg, es[..|es| - 1]), es[|es| - 1];
    && DrainsRead(cfg, es[..|es| - 1])
    && (e.Drain? ==> WasRead(s.carried, s.session.reached, s.queue[0]))
  }

  lemma StepRead(cfg: R.Config, s: State, e: Event)
    requires Inv(cfg, s) && Enabled(cfg, s, e) && AllRead(s)
    ensures AllRead(Apply(cfg, s, e)) <==> (e.Drain? ==> WasRead(s.carried, s.session.reached, s.queue[0]))
  {
    hide R.Inv, S.Inv, WasRead, Open, S.Apply, S.Enabled, Linked, Orderly;
    var t := Apply(cfg, s, e);
    match e
    case Retry(re) => RetryFrame(s.retry, re);
    case Sort =>
    case Take(ce) =>
      SessionFrame(s.session, S.Local(ce));
      ReadStays(s.carried, s.session.reached, t.carried, t.session.reached, s.retry.acked);
    case Session(se) =>
      SessionFrame(s.session, se);
      ReadStays(s.carried, s.session.reached, t.carried, t.session.reached, s.retry.acked);
    case TakeOther(ce) =>
      SessionFrame(s.session, S.Local(ce));
      ReadStays(s.carried, s.session.reached, t.carried, t.session.reached, s.retry.acked);
    case CallAck(id) =>
      SettledTaken(s.session, id);
      if s.carried[id].Some? {
        CallFrame(s.retry, s.carried[id].value);
        ReadNow(s.carried, s.session.reached, id);
      }
    case CallNack(id) =>
      if s.carried[id].Some? {
        CallFrame(s.retry, s.carried[id].value);
      }
    case Stop =>
    case CloseInput =>
    case Drain =>
      CallFrame(s.retry, s.queue[0]);
      assert t.retry.acked[|s.retry.acked|] == s.queue[0];
  }

  /** At every moment an Ack means that a server has read the message, exactly when Client.Stop drains only
      messages that a server has read before; in particular always before a shutdown. */
  lemma {:induction false} AckMeansReadIff(cfg: R.Config, es: seq<Event>)
    requires Valid(cfg, es)
    ensures AlwaysRead(cfg, es) <==> DrainsRead(cfg, es)
  {
    hide Inv, Apply, WasRead;
    if es != [] {
      AckMeansReadIff(cfg, es[..|es| - 1]);
      RunInv(cfg, es[..|es| - 1]);
      if AllRead(Run(cfg, es[..|es| - 1])) {
        StepRead(cfg, Run(cfg, es[..|es| - 1]), es[|es| - 1]);
      }
      if DrainsRead(cfg, es[..|es| - 1]) {
        assert AllRead(Run(cfg, es[..|es| - 1]));
      }
    }
  }

  // ---------------------------------------------------------------- shutdown ends

  /** What is left to do once the input is closed: the way of every message from the nack queue over the offer
      and the SortLoop to the ack queue and out of it, and the return of the loop. */
  function Left(s: State): nat {
    4 * |s.retry.nacks| + (if s.retry.out.Some? then 3 else 0) + 2 * |s.queue| + |s.retry.acks|
    + (if s.retry.running then 1 else 0)
  }

  /** The steps that are not the server's. */
  function Work(es: seq<Event>): (n: nat)
    ensures (forall e <- es :: !e.Session?) ==> n == |es|
  {
    if es == [] then 0 else Work(es[..|es| - 1]) + if es[|es| - 1].Session? then 0 else 1
  }

  lemma StepLeft(cfg: R.Config, s: State, e: Event)
    requires Inv(cfg, s) && Enabled(cfg, s, e) && s.closed
    ensures Apply(cfg, s, e).closed
    ensures Left(Apply(cfg, s, e)) + (if e.Session? then 0 else 1) <= Left(s)
  {
    hide R.Inv, S.Inv, Linked, AcksRead, S.Apply, S.Enabled;
  }

  /** However the steps are chosen after the input was closed, the client takes only so many of them. */
  lemma {:induction false} ShutdownBound(cfg: R.Config, es: seq<Event>, more: seq<Event>)
    requires Valid(cfg, es) && Valid(cfg, es + more) && Run(cfg, es).closed
    ensures Run(cfg, es + more).closed
    ensures Work(more) + Left(Run(cfg, es + more)) <= Left(Run(cfg, es))
  {
    hide Inv, Apply, Left;
    if more == [] {
      assert es + more == es;
    } else {
      var before := more[..|more| - 1];
      var all := es + more;
      assert all[..|all| - 1] == es + before && all[|all| - 1] == more[|more| - 1];
      ShutdownBound(cfg, es, before);
      RunInv(cfg, es + before);
      StepLeft(cfg, Run(cfg, es + before), more[|more| - 1]);
    }
  }

  /** The retry loop has returned and the SortLoop is empty. */
  predicate Finished(s: State) {
    !s.retry.running && s.queue == []
  }

  /** ... and it is never stuck before the retry loop has returned and the SortLoop has been drained. In
      particular a loop that is full gets to see that its input was closed. */
  lemma NeverStuck(cfg: R.Config, es: seq<Event>)
    requires Valid(cfg, es) && Run(cfg, es).closed && cfg.maxSize > 0 && cfg.maxCount > 0
    ensures Finished(Run(cfg, es)) || exists e: Event :: !e.Session? && Enabled(cfg, Run(cfg, es), e)
  {
    hide Run, Valid, Inv;
    RunInv(cfg, es);
    NextStep(cfg, Run(cfg, es));
  }

  lemma NextStep(cfg: R.Config, s: State)
    requires Inv(cfg, s) && s.closed && cfg.maxSize > 0 && cfg.maxCount > 0
    ensures Finished(s) || exists e: Event :: !e.Session? && Enabled(cfg, s, e)
  {
    hide R.Inv, S.Inv, S.Enabled, AcksRead, Linked;
    if s.queue != [] {
      Prepared(cfg, s, Drain);
    } else if s.retry.out.Some? {
      assert Enabled(cfg, s, Sort);
    } else if s.retry.running {
      if s.retry.acks != [] {
        assert Enabled(cfg, s, Retry(R.HandleAck));
      } else if s.retry.nacks != [] {
        assert Enabled(cfg, s, Retry(R.HandleNack));
      } else {
        NothingPending(cfg, s);
        assert Enabled(cfg, s, Retry(R.Close));
      }
    }
  }

  lemma NothingHeld(s: State)
    requires Linked(s) && Orderly(s) && s.stopped && s.queue == []
    ensures s.retry.held == multiset{}
  {
    hide Open;
    OpenNone(s.carried, s.called);
  }

  lemma NothingPending(cfg: R.Config, s: State)
    requires Inv(cfg, s) && s.closed && s.queue == [] && s.retry.out.None?
    requires s.retry.acks == [] && s.retry.nacks == []
    ensures s.retry.count == 0 && s.retry.size == 0
  {
    hide S.Inv, AcksRead, Open;
    NothingHeld(s);
    assert R.Places(s.retry) == multiset{};
    R.Pending(cfg, s.retry);
  }

  /** When it is over, every message that the loop has read was acked, except those that were in its nack
      queue when it returned: all were, exactly when that queue is empty. */
  lemma FinishedAcks(cfg: R.Config, es: seq<Event>, i: nat)
    requires Valid(cfg, es) && Finished(Run(cfg, es)) && i < |Run(cfg, es).retry.read|
    ensures var s := Run(cfg, es);
            s.retry.read[i] in s.retry.acked <==> s.retry.read[i] !in s.retry.nacks
  {
    hide Run, Valid, R.Inv, S.Inv, AcksRead, Linked, Orderly;
    RunInv(cfg, es);
    var s := Run(cfg, es);
    FinishedPlaces(s);
    R.OnePlace(cfg, s.retry, i);
    var m := s.retry.read[i];
    assert m in s.retry.acked <==> m in multiset(s.retry.acked);
    assert m in s.retry.nacks <==> m in multiset(s.retry.nacks);
  }

  lemma FinishedPlaces(s: State)
    requires Linked(s) && Orderly(s) && Finished(s)
    ensures s.retry.out.None? && s.retry.held == multiset{}
  {
    hide Open;
    NothingHeld(s);
  }

  // ---------------------------------------------------------------- witnesses

  lemma Start(cfg: R.Config) returns (es: seq<Event>, s: State)
    ensures Valid(cfg, es) && Run(cfg, es) == s == Init()
  {
    es, s := [], Init();
  }

  lemma Step(cfg: R.Config, es: seq<Event>, s: State, e: Event) returns (es': seq<Event>, s': State)
    requires Valid(cfg, es) && Run(cfg, es) == s && Enabled(cfg, s, e)
    ensures Valid(cfg, es') && Run(cfg, es') == s' == Apply(cfg, s, e)
  {
    es', s' := es + [e], Apply(cfg, s, e);
    assert es'[..|es'| - 1] == es;
  }

  /** A message waits in the SortLoop when the client is stopped: it is acked, and no server has read it. */
  lemma DrainedUnread(cfg: R.Config)
    requires cfg.maxSize > 0 && cfg.maxCount > 0
    ensures exists es :: Valid(cfg, es) && AckedUnread(Run(cfg, es), R.Msg(0, 1))
  {
    hide Valid, Run;
    var es, s := OneSorted(cfg);
    es, s := Step(cfg, es, s, Stop);
    es, s := Step(cfg, es, s, Drain);
    assert s.retry.acked == [R.Msg(0, 1)] && s.carried == [];
  }

  ghost predicate AckedUnread(s: State, m: R.Msg) {
    m in s.retry.acked && !WasRead(s.carried, s.session.reached, m)
  }

  /** One message of size 1 has been read and put into the SortLoop. */
  lemma OneSorted(cfg: R.Config) returns (es: seq<Event>, s: State)
    requires cfg.maxSize > 0 && cfg.maxCount > 0
    ensures Valid(cfg, es) && Run(cfg, es) == s
    ensures var m := R.Msg(0, 1);
            s == Init().(retry := R.Init().(read := [m], size := 1, count := 1, held := multiset{m}), queue := [m])
  {
    hide Valid, Run;
    es, s := Start(cfg);
    es, s := Step(cfg, es, s, Retry(R.Read(1)));
    es, s := Step(cfg, es, s, Sort);
  }

  lemma TakenForConnect() returns (c: S.Session)
    ensures S.Enabled(S.Init(), S.Local(C.ConnectTake)) && c == S.Apply(S.Init(), S.Local(C.ConnectTake))
    ensures c == S.Init().(client := C.Init().(toSend := [0], taken := 1, ledger := map[0 := C.ToSend]))
  {
    c := S.Apply(S.Init(), S.Local(C.ConnectTake));
  }

  lemma ConnectFails(c: S.Session) returns (d: S.Session)
    requires c == S.Init().(client := C.Init().(toSend := [0], taken := 1, ledger := map[0 := C.ToSend]))
    ensures S.Enabled(c, S.Local(C.ConnectFail)) && d == S.Apply(c, S.Local(C.ConnectFail))
    ensures d.client.nacked == [0] && !d.client.connected && d.client.toSend == []
  {
    d := S.Apply(c, S.Local(C.ConnectFail));
  }

  lemma OneNacked(cfg: R.Config) returns (es: seq<Event>, s: State)
    requires cfg.maxSize > 1 && cfg.maxCount > 1
    ensures Valid(cfg, es) && Run(cfg, es) == s
    ensures s.carried == [Some(R.Msg(0, 1))] && s.queue == [] && s.called == {} && !s.stopped && !s.closed
    ensures s.retry == R.Init().(read := [R.Msg(0, 1)], size := 1, count := 1, held := multiset{R.Msg(0, 1)})
    ensures s.session.client.nacked == [0] && !s.session.client.connected && s.session.client.toSend == []
  {
    hide Valid, Run, S.Apply, S.Enabled, S.Init;
    es, s := OneSorted(cfg);
    var c := TakenForConnect();
    es, s := Step(cfg, es, s, Take(C.ConnectTake));
    var d := ConnectFails(c);
    es, s := Step(cfg, es, s, Session(S.Local(C.ConnectFail)));
  }

  /** The connection attempt fails, the message is nacked, and the loop returns without offering it again: its
      Ack is never called. */
  lemma NackedLeftBehind(cfg: R.Config)
    requires cfg.maxSize > 1 && cfg.maxCount > 1
    ensures exists es :: Valid(cfg, es) && Finished(Run(cfg, es)) && Run(cfg, es).retry.nacks == [R.Msg(0, 1)]
  {
    hide Valid, Run, S.Apply, S.Enabled, S.Init;
    var es, s := OneNacked(cfg);
    es, s := Step(cfg, es, s, CallNack(0));
    assert s.retry.nacks == [R.Msg(0, 1)] && AllCalled(s);
    es, s := Step(cfg, es, s, Stop);
    es, s := Step(cfg, es, s, CloseInput);
    es, s := Step(cfg, es, s, Retry(R.Close));
  }
}
