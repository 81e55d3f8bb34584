/** fleetspeak/src/client/channel/relentless.go: RelentlessChannel on one side, RelentlessAcknowledger on the
    other, over channels that may fail at any point and are then rebuilt.

    A channel and everything in it is dropped when it fails. An epoch is the life of one channel.
 */
module Relentless {
  import opened Ledger
  import opened Sequences

  /** A SourceMessageId. Messages themselves are named by the order in which they are accepted. */
  type SourceId = nat

  /** Where the processing loop is. */
  datatype Pc =
    | Building
    | Resending(todo: set<SourceId>)               // ranging over pending
    | SendingOld(id: SourceId, todo: set<SourceId>)
    | Receiving
    | SendingNew(id: SourceId)
    | Down

  /** What the near side keeps: the messages pending, and the Ack calls it has made. */
  datatype Near = Near(pending: map<SourceId, nat>, acked: seq<nat>)

  datatype State = State(
    pc: Pc,
    near: Near,
    toFar: seq<SourceId>,            // messages on the channel
    acks: seq<SourceId>,             // the acknowledger's channel of acks
    toAck: seq<SourceId>,
    toNear: seq<seq<SourceId>>,      // LocalAck messages on the channel
    atFar: set<SourceId>,            // history: received by the far side in this epoch
    sentNow: set<SourceId>,          // history: sent in this epoch
    carried: set<nat>,               // history: messages pending when this epoch began
    called: multiset<SourceId>,      // history: Ack calls on the far side in this epoch
    handled: multiset<SourceId>,     // history: ids of the LocalAck messages handled in this epoch
    ids: seq<SourceId>,              // history: the id of every message accepted
    lost: set<nat>,                  // history: pending messages overwritten by another with the same id
    sent: set<SourceId>,             // history: sent in any epoch
    received: set<SourceId>,         // history: received by the far side in any epoch
    farAcked: set<SourceId>,         // history: ids for which Ack ran on the far side
    foreign: set<SourceId>)          // ids of a predecessor of this process, which the far side may ack too

  datatype Event =
    | Build              // the builder returns a channel
    | BuildNothing       // ... or not
    | Pick(id: SourceId) // the resend loop produces an entry
    | SendOld
    | EndResend
    | Accept(id: SourceId)
    | SendNew
    | LocalAck           // the near side receives a LocalAck
    | Break              // the near side sees an error or the end of the channel
    | Shutdown
    | FarReceive
    | FarAck(id: SourceId)
    | FarAckLate(id: SourceId) // Ack runs on a message that was sent in an earlier epoch
    | Collect            // the acknowledger moves an id from acks to toAck
    | Flush

  predicate Up(pc: Pc) {
    pc.Resending? || pc.SendingOld? || pc.Receiving? || pc.SendingNew?
  }

  predicate Enabled(s: State, e: Event) {
    match e
    case Build => s.pc.Building?
    case BuildNothing => s.pc.Building?
    case Pick(id) => s.pc.Resending? && id in s.pc.todo && id in s.near.pending
    case SendOld => s.pc.SendingOld?
    case EndResend => s.pc.Resending? && s.pc.todo !! s.near.pending.Keys
    case Accept(id) => s.pc.Receiving?
    case SendNew => s.pc.SendingNew?
    case LocalAck => Up(s.pc) && s.toNear != []
    case Break => Up(s.pc)
    case Shutdown => s.pc.Receiving?
    case FarReceive => Up(s.pc) && s.toFar != []
    case FarAck(id) => Up(s.pc) && (id in s.atFar || id in s.foreign)
    case FarAckLate(id) => id in s.received || id in s.foreign
    case Collect => Up(s.pc) && s.acks != []
    case Flush => Up(s.pc) && s.toAck != []
  }

  /** processAck: the pending messages among `l` are acked and forgotten. */
  function Process(n: Near, l: seq<SourceId>): Near
    decreases |l|
  {
    if l == [] then n
    else if l[0] in n.pending then Process(Near(n.pending - {l[0]}, n.acked + [n.pending[l[0]]]), l[1..])
    else Process(n, l[1..])
  }

  function Apply(s: State, e: Event): State
    requires Enabled(s, e)
  {
    match e
    case Build =>
      s.(pc := Resending(s.near.pending.Keys), toFar := [], acks := [], toAck := [], toNear := [],
         atFar := {}, sentNow := {}, carried := s.near.pending.Values, called := multiset{}, handled := multiset{})
    case BuildNothing => s.(pc := Down)
    case Pick(id) => s.(pc := SendingOld(id, s.pc.todo - {id}))
    case SendOld =>
      s.(pc := Resending(s.pc.todo), toFar := s.toFar + [s.pc.id], sentNow := s.sentNow + {s.pc.id},
         sent := s.sent + {s.pc.id})
    case EndResend => s.(pc := Receiving)
    case Accept(id) =>
      s.(pc := SendingNew(id), near := s.near.(pending := s.near.pending[id := |s.ids|]), ids := s.ids + [id],
         lost := if id in s.near.pending then s.lost + {s.near.pending[id]} else s.lost)
    case SendNew =>
      s.(pc := Receiving, toFar := s.toFar + [s.pc.id], sentNow := s.sentNow + {s.pc.id},
         sent := s.sent + {s.pc.id})
    case LocalAck =>
      s.(near := Process(s.near, s.toNear[0]), toNear := s.toNear[1..], handled := s.handled + multiset(s.toNear[0]))
    case Break => s.(pc := Building)
    case Shutdown => s.(pc := Down)
    case FarReceive =>
      s.(toFar := s.toFar[1..], atFar := s.atFar + {s.toFar[0]}, received := s.received + {s.toFar[0]})
    case FarAck(id) =>
      s.(acks := s.acks + [id], called := s.called + multiset{id}, farAcked := s.farAcked + {id})
    case FarAckLate(id) => s.(farAcked := s.farAcked + {id})
    case Collect => s.(acks := s.acks[1..], toAck := s.toAck + [s.acks[0]])
    case Flush => s.(toNear := s.toNear + [s.toAck], toAck := [])
  }

  function Init(foreign: set<SourceId>): State {
    State(Building, Near(map[], []), [], [], [], [], {}, {}, {}, multiset{}, multiset{}, [], {}, {}, {}, {}, foreign)
  }

  ghost predicate Valid(foreign: set<SourceId>, es: seq<Event>)
    decreases |es|, 0
  {
    es == [] || (Valid(foreign, es[..|es| - 1]) && Enabled(Run(foreign, es[..|es| - 1]), es[|es| - 1]))
  }

  ghost function Run(foreign: set<SourceId>, es: seq<Event>): State
    requires Valid(foreign, es)
    decreases |es|, 1
  {
    if es == [] then Init(foreign) else Apply(Run(foreign, es[..|es| - 1]), es[|es| - 1])
  }

  // ---------------------------------------------------------------- processAck

  /** Message `k` is pending. */
  predicate Kept(n: Near, ids: seq<SourceId>, k: nat) {
    k < |ids| && ids[k] in n.pending && n.pending[ids[k]] == k
  }

  /** Every pending message has been accepted with the id under which it is kept. */
  ghost predicate Keyed(n: Near, ids: seq<SourceId>) {
    forall id <- n.pending :: n.pending[id] < |ids| && ids[n.pending[id]] == id
  }

  /** The calls of Ack were all on different messages, and on messages no longer pending. */
  ghost predicate AckedOnce(n: Near, ids: seq<SourceId>) {
    NoDup(n.acked) && forall k <- n.acked :: k < |ids| && !Kept(n, ids, k)
  }

  function Without(pending: map<SourceId, nat>, l: seq<SourceId>): map<SourceId, nat> {
    map id | id in pending && id !in l :: pending[id]
  }

  /** The effect of processAck on the pending map and on the calls made. */
  lemma {:induction false} ProcessEffect(n: Near, l: seq<SourceId>, ids: seq<SourceId>)
    requires Keyed(n, ids) && AckedOnce(n, ids)
    ensures Keyed(Process(n, l), ids) && AckedOnce(Process(n, l), ids)
    ensures Process(n, l).pending == Without(n.pending, l)
    ensures n.acked <= Process(n, l).acked
    ensures forall k: nat :: k in Process(n, l).acked <==> k in n.acked || (Kept(n, ids, k) && ids[k] in l)
    decreases |l|
  {
    if l != [] {
      assert l == [l[0]] + l[1..];
      if l[0] in n.pending {
        var k := n.pending[l[0]];
        var m := Near(n.pending - {l[0]}, n.acked + [k]);
        assert Kept(n, ids, k);
        assert forall j: nat :: Kept(m, ids, j) <==> Kept(n, ids, j) && j != k;
        ProcessEffect(m, l[1..], ids);
      } else {
        ProcessEffect(n, l[1..], ids);
      }
    }
  }

  // ---------------------------------------------------------------- the near side

  /** Every message accepted is pending, or was acked, or was overwritten while pending: exactly one. */
  ghost predicate OnePlace(s: State) {
    && (forall k: nat :: k < |s.ids| ==> Kept(s.near, s.ids, k) || k in s.near.acked || k in s.lost)
    && (forall k <- s.lost :: k < |s.ids| && !Kept(s.near, s.ids, k) && k !in s.near.acked)
  }

  ghost predicate NearInv(s: State) {
    Keyed(s.near, s.ids) && AckedOnce(s.near, s.ids) && OnePlace(s)
  }

  lemma AcceptNear(s: State, id: SourceId)
    requires NearInv(s) && Enabled(s, Accept(id))
    ensures NearInv(Apply(s, Accept(id)))
  {
    var t := Apply(s, Accept(id));
    var n := |s.ids|;
    forall k: nat | k < n
      ensures Kept(t.near, t.ids, k) <==> Kept(s.near, s.ids, k) && s.ids[k] != id
    {
    }
    assert Kept(t.near, t.ids, n);
  }

  lemma StepNear(s: State, e: Event)
    requires NearInv(s) && Enabled(s, e)
    ensures NearInv(Apply(s, e))
  {
    if e.Accept? {
      AcceptNear(s, e.id);
    } else if e.LocalAck? {
      ProcessEffect(s.near, s.toNear[0], s.ids);
    } else {
      assert Apply(s, e).near == s.near && Apply(s, e).ids == s.ids && Apply(s, e).lost == s.lost;
    }
  }

  // ---------------------------------------------------------------- the way of an ack

  ghost predicate AllIn(l: seq<SourceId>, ids: set<SourceId>) {
    forall id <- l :: id in ids
  }

  /** Acks under way, and acks made, are for ids whose Ack ran on the far side. */
  ghost predicate AcksTrue(s: State) {
    && AllIn(s.acks, s.farAcked) && AllIn(s.toAck, s.farAcked)
    && (forall l <- s.toNear :: l != [] && AllIn(l, s.farAcked))
    && forall k <- s.near.acked :: k < |s.ids| && s.ids[k] in s.farAcked
  }

  /** Nothing is acked on the far side that it did not receive, nothing received that was not sent, and
      nothing sent that was not accepted. */
  ghost predicate Chain(s: State) {
    && s.farAcked <= s.received + s.foreign
    && s.atFar <= s.received && s.received <= s.sent && AllIn(s.toFar, s.sent)
    && (forall id <- s.sent :: id in s.ids)
    && (s.pc.SendingOld? || s.pc.SendingNew? ==> s.pc.id in s.ids)
  }

  lemma StepAcks(s: State, e: Event)
    requires NearInv(s) && AcksTrue(s) && Enabled(s, e)
    ensures AcksTrue(Apply(s, e))
  {
    hide OnePlace;
    var t := Apply(s, e);
    if e.LocalAck? {
      ProcessEffect(s.near, s.toNear[0], s.ids);
      assert AllIn(s.toNear[0], s.farAcked);
      assert forall l <- t.toNear :: l in s.toNear;
    }
  }

  lemma StepChain(s: State, e: Event)
    requires NearInv(s) && Chain(s) && Enabled(s, e)
    ensures Chain(Apply(s, e))
  {
    hide OnePlace, AckedOnce, Process;
  }

  // ---------------------------------------------------------------- one epoch

  /** The pending messages that the loop still has to send in this epoch. */
  function Unsent(pc: Pc): set<SourceId> {
    match pc
    case Resending(todo) => todo
    case SendingOld(id, todo) => todo + {id}
    case SendingNew(id) => {id}
    case _ => {}
  }

  /** Whether the loop is past the resending of pending messages. */
  predicate Resent(pc: Pc) {
    pc.Receiving? || pc.SendingNew?
  }

  ghost predicate EpochInv(s: State) {
    Up(s.pc) ==>
      && s.near.pending.Keys <= s.sentNow + Unsent(s.pc)
      && forall k <- s.carried ::
           && k < |s.ids|
           && (k in s.near.acked || (if Resent(s.pc) then s.ids[k] in s.sentNow else Kept(s.near, s.ids, k)))
  }

  lemma AckEpoch(s: State)
    requires NearInv(s) && EpochInv(s) && Enabled(s, LocalAck)
    ensures EpochInv(Apply(s, LocalAck))
  {
    hide OnePlace, AckedOnce;
    ProcessEffect(s.near, s.toNear[0], s.ids);
    var t := Apply(s, LocalAck);
    forall k: nat | k in s.carried && !Resent(s.pc) && k !in t.near.acked
      ensures Kept(t.near, t.ids, k)
    {
      assert Kept(s.near, s.ids, k);
    }
  }

  lemma StepEpoch(s: State, e: Event)
    requires NearInv(s) && EpochInv(s) && Enabled(s, e)
    ensures EpochInv(Apply(s, e))
  {
    hide OnePlace, AckedOnce, Process;
    match e
    case LocalAck => AckEpoch(s);
    case Build =>
      forall k <- s.near.pending.Values
        ensures Kept(s.near, s.ids, k)
      {
        assert exists id :: id in s.near.pending && s.near.pending[id] == k;
      }
    case _ =>
  }

  function Flatten(ls: seq<seq<SourceId>>): seq<SourceId> {
    if ls == [] then [] else ls[0] + Flatten(ls[1..])
  }

  lemma {:induction false} FlattenAppend(ls: seq<seq<SourceId>>, l: seq<SourceId>)
    ensures Flatten(ls + [l]) == Flatten(ls) + l
  {
    if ls == [] {
      assert ls + [l] == [l] && Flatten([l]) == l + Flatten([]);
    } else {
      FlattenAppend(ls[1..], l);
      assert (ls + [l])[1..] == ls[1..] + [l];
    }
  }

  lemma FlattenHead(ls: seq<seq<SourceId>>)
    requires ls != []
    ensures Flatten(ls) == ls[0] + Flatten(ls[1..])
  {
  }

  /** The acks of this epoch that are still under way, the oldest first. */
  function UnderWay(s: State): seq<SourceId> {
    Flatten(s.toNear) + s.toAck + s.acks
  }

  /** Every Ack call of this epoch is under way or handled, as often as it was made. */
  ghost predicate PipeInv(s: State) {
    s.called == multiset(UnderWay(s)) + s.handled
  }

  lemma Joins(h: seq<SourceId>, f: seq<SourceId>, t: seq<SourceId>, a: seq<SourceId>)
    ensures h + f + t + a == h + (f + t + a)
    ensures f + (t + a) == f + t + a
    ensures f + t + [] + a == f + t + a
    ensures a != [] ==> f + (t + [a[0]]) + a[1..] == f + t + a
  {
  }

  lemma AckPipe(s: State)
    requires PipeInv(s) && Enabled(s, LocalAck)
    ensures PipeInv(Apply(s, LocalAck))
  {
    hide Process, Flatten;
    FlattenHead(s.toNear);
    Joins(s.toNear[0], Flatten(s.toNear[1..]), s.toAck, s.acks);
    assert UnderWay(s) == s.toNear[0] + UnderWay(Apply(s, LocalAck));
  }

  lemma CollectPipe(s: State)
    requires PipeInv(s) && Enabled(s, Collect)
    ensures PipeInv(Apply(s, Collect))
  {
    hide Flatten;
    Joins([], Flatten(s.toNear), s.toAck, s.acks);
    assert UnderWay(Apply(s, Collect)) == UnderWay(s);
  }

  lemma FlushPipe(s: State)
    requires PipeInv(s) && Enabled(s, Flush)
    ensures PipeInv(Apply(s, Flush))
  {
    hide Flatten;
    FlattenAppend(s.toNear, s.toAck);
    Joins([], Flatten(s.toNear), s.toAck, s.acks);
    assert UnderWay(Apply(s, Flush)) == UnderWay(s);
  }

  lemma FarAckPipe(s: State, id: SourceId)
    requires PipeInv(s) && Enabled(s, FarAck(id))
    ensures PipeInv(Apply(s, FarAck(id)))
  {
    hide Flatten;
    Joins([], Flatten(s.toNear) + s.toAck, s.acks, [id]);
    assert UnderWay(Apply(s, FarAck(id))) == UnderWay(s) + [id];
  }

  lemma StepPipe(s: State, e: Event)
    requires PipeInv(s) && Enabled(s, e)
    ensures PipeInv(Apply(s, e))
  {
    match e
    case LocalAck => AckPipe(s);
    case FarAck(id) => FarAckPipe(s, id);
    case Collect => CollectPipe(s);
    case Flush => FlushPipe(s);
    case Build =>
    case _ =>
      hide Flatten;
      var t := Apply(s, e);
      assert t.toNear == s.toNear && t.toAck == s.toAck && t.acks == s.acks;
      assert t.called == s.called && t.handled == s.handled;
  }

  ghost predicate Inv(s: State) {
    NearInv(s) && AcksTrue(s) && Chain(s) && EpochInv(s) && PipeInv(s)
  }

  lemma StepInv(s: State, e: Event)
    requires Inv(s) && Enabled(s, e)
    ensures Inv(Apply(s, e))
  {
    hide NearInv, AcksTrue, Chain, EpochInv, PipeInv;
    StepNear(s, e);
    StepAcks(s, e);
    StepChain(s, e);
    StepEpoch(s, e);
    StepPipe(s, e);
  }

  lemma InitInv(foreign: set<SourceId>)
    ensures Inv(Init(foreign)) && Init(foreign).foreign == foreign
  {
  }

  lemma {:induction false} RunInv(foreign: set<SourceId>, es: seq<Event>)
    requires Valid(foreign, es)
    ensures Inv(Run(foreign, es)) && Run(foreign, es).foreign == foreign
  {
    hide Inv, Init, Process;
    InitInv(foreign);
    if es != [] {
      RunInv(foreign, es[..|es| - 1]);
      StepInv(Run(foreign, es[..|es| - 1]), es[|es| - 1]);
    }
  }

  // ---------------------------------------------------------------- main results

  /** In every run, with any number of channel failures: a message accepted has its Ack called at most
      once; unless it was overwritten, it is pending or its Ack has been called, and not both. */
  lemma AckedOrPending(foreign: set<SourceId>, es: seq<Event>, k: nat)
    requires Valid(foreign, es) && k < |Run(foreign, es).ids|
    ensures var s := Run(foreign, es);
            && Occurrences(s.near.acked, k) == (if Kept(s.near, s.ids, k) || k in s.lost then 0 else 1)
            && !(Kept(s.near, s.ids, k) && k in s.lost)
  {
    RunInv(foreign, es);
    OccursOnce(Run(foreign, es).near.acked, k);
  }

  /** A message is overwritten exactly when another one with its id is accepted while it is pending. */
  lemma LostExactly(foreign: set<SourceId>, es: seq<Event>, e: Event, k: nat)
    requires Valid(foreign, es) && Enabled(Run(foreign, es), e)
    ensures var s := Run(foreign, es);
            k in Apply(s, e).lost <==> k in s.lost || (e.Accept? && Kept(s.near, s.ids, k) && s.ids[k] == e.id)
  {
    hide AcksTrue, Chain, EpochInv, PipeInv, OnePlace, AckedOnce, Process, Run, Valid;
    RunInv(foreign, es);
  }

  /** No message is accepted with the id of a pending one. */
  ghost predicate NeverReused(foreign: set<SourceId>, es: seq<Event>)
    requires Valid(foreign, es)
    decreases |es|
  {
    es == [] ||
    (var before := es[..|es| - 1];
     && NeverReused(foreign, before)
     && (es[|es| - 1].Accept? ==> es[|es| - 1].id !in Run(foreign, before).near.pending))
  }

  /** Every message accepted is acked or still pending exactly when no id of a pending message is reused. */
  lemma {:induction false} NothingLostIff(foreign: set<SourceId>, es: seq<Event>)
    requires Valid(foreign, es)
    ensures NeverReused(foreign, es) <==>
              forall k: nat :: k < |Run(foreign, es).ids| ==>
                Kept(Run(foreign, es).near, Run(foreign, es).ids, k) || k in Run(foreign, es).near.acked
  {
    hide AcksTrue, Chain, EpochInv, PipeInv, AckedOnce, Process, Keyed;
    NoneLost(foreign, es);
    RunInv(foreign, es);
    var s := Run(foreign, es);
    forall k: nat | k in s.lost
      ensures k < |s.ids| && !Kept(s.near, s.ids, k) && k !in s.near.acked
    {
    }
    if forall k: nat :: k < |s.ids| ==> Kept(s.near, s.ids, k) || k in s.near.acked {
      assert s.lost == {};
    }
  }

  lemma {:induction false} NoneLost(foreign: set<SourceId>, es: seq<Event>)
    requires Valid(foreign, es)
    ensures NeverReused(foreign, es) <==> Run(foreign, es).lost == {}
  {
    hide Process;
    if es != [] {
      NoneLost(foreign, es[..|es| - 1]);
    }
  }

  /** Ack is called on a message only after Ack has run for its id on the far side, which has received
      that id from this side unless it is an id of a predecessor. */
  lemma AckedAfterFarAck(foreign: set<SourceId>, es: seq<Event>, k: nat)
    requires Valid(foreign, es) && k in Run(foreign, es).near.acked
    ensures var s := Run(foreign, es);
            && k < |s.ids| && s.ids[k] in s.farAcked
            && (s.ids[k] in foreign || (s.ids[k] in s.received && s.ids[k] in s.sent))
  {
    RunInv(foreign, es);
  }

  /** Whenever the loop is about to send a newly accepted message, every message that was pending when the
      channel was built has been sent again on it or acked, and so has every other pending message. */
  lemma OldBeforeNew(foreign: set<SourceId>, es: seq<Event>)
    requires Valid(foreign, es) && Run(foreign, es).pc.SendingNew?
    ensures var s := Run(foreign, es);
            && (forall k <- s.carried :: k < |s.ids| && (k in s.near.acked || s.ids[k] in s.sentNow))
            && (forall id <- s.near.pending :: id in s.sentNow || id == s.pc.id)
  {
    RunInv(foreign, es);
  }

  /** What was sent on this channel is on it or has been received over it. */
  ghost predicate OnChannel(s: State) {
    Up(s.pc) ==> forall id :: id in s.sentNow <==> id in s.atFar || id in s.toFar
  }

  lemma StepChannel(s: State, e: Event)
    requires OnChannel(s) && Enabled(s, e)
    ensures OnChannel(Apply(s, e))
  {
    hide Process;
    if e.FarReceive? {
      assert s.toFar == [s.toFar[0]] + s.toFar[1..];
    }
  }

  /** Nothing counts as sent on a channel that is not on it and has not been received over it. */
  lemma {:induction false} SentOnChannel(foreign: set<SourceId>, es: seq<Event>)
    requires Valid(foreign, es)
    ensures OnChannel(Run(foreign, es))
  {
    hide Apply, Enabled;
    if es != [] {
      SentOnChannel(foreign, es[..|es| - 1]);
      StepChannel(Run(foreign, es[..|es| - 1]), es[|es| - 1]);
    }
  }

  /** The loop has ended exactly if the builder returned nothing or the output was closed. */
  lemma {:induction false} EndedIff(foreign: set<SourceId>, es: seq<Event>)
    requires Valid(foreign, es)
    ensures Run(foreign, es).pc == Down <==> BuildNothing in es || Shutdown in es
  {
    hide Apply, Enabled;
    if es != [] {
      EndedIff(foreign, es[..|es| - 1]);
      assert es == es[..|es| - 1] + [es[|es| - 1]];
      StepEnds(Run(foreign, es[..|es| - 1]), es[|es| - 1]);
    }
  }

  lemma StepEnds(s: State, e: Event)
    requires Enabled(s, e)
    ensures Apply(s, e).pc == Down <==> s.pc == Down || e.BuildNothing? || e.Shutdown?
  {
    hide Process;
  }

  // ---------------------------------------------------------------- distinct ids

  /** The ids accepted differ from each other and from those of predecessors. */
  ghost predicate Distinct(s: State) {
    NoDup(s.ids) && forall id <- s.ids :: id !in s.foreign
  }

  /** What is handled never becomes pending again. */
  ghost predicate HandledInv(s: State) {
    && s.lost == {}
    && forall id <- s.handled :: id !in s.near.pending && (id in s.ids || id in s.foreign)
  }

  lemma DistinctPrefix(s: State, e: Event)
    requires Enabled(s, e) && Distinct(Apply(s, e))
    ensures Distinct(s)
    ensures e.Accept? ==> e.id !in s.ids && e.id !in s.foreign
  {
    var t := Apply(s, e);
    if e.Accept? {
      assert t.ids == s.ids + [e.id];
      assert forall i :: 0 <= i < |s.ids| ==> s.ids[i] == t.ids[i];
      assert t.ids[|s.ids|] == e.id;
    }
  }

  lemma StepHandled(s: State, e: Event)
    requires Inv(s) && HandledInv(s) && Enabled(s, e) && Distinct(Apply(s, e))
    ensures HandledInv(Apply(s, e))
  {
    hide EpochInv, PipeInv, OnePlace, AckedOnce;
    DistinctPrefix(s, e);
    if e.LocalAck? {
      ProcessEffect(s.near, s.toNear[0], s.ids);
      assert AllIn(s.toNear[0], s.farAcked);
    }
  }

  lemma {:induction false} RunHandled(foreign: set<SourceId>, es: seq<Event>)
    requires Valid(foreign, es) && Distinct(Run(foreign, es))
    ensures HandledInv(Run(foreign, es))
  {
    if es != [] {
      var before := es[..|es| - 1];
      RunInv(foreign, before);
      DistinctPrefix(Run(foreign, before), es[|es| - 1]);
      RunHandled(foreign, before);
      StepHandled(Run(foreign, before), es[|es| - 1]);
    }
  }

  lemma FreshAccept(s: State, e: Event)
    requires Keyed(s.near, s.ids) && Enabled(s, e) && NoDup(Apply(s, e).ids)
    ensures NoDup(s.ids)
    ensures Apply(s, e).lost == s.lost
  {
    hide Process;
    var t := Apply(s, e);
    if e.Accept? {
      assert t.ids[..|s.ids|] == s.ids;
      assert t.ids[|s.ids|] == e.id;
      assert forall i :: 0 <= i < |s.ids| ==> s.ids[i] == t.ids[i];
    }
  }

  lemma {:induction false} NoDupLosesNothing(foreign: set<SourceId>, es: seq<Event>)
    requires Valid(foreign, es) && NoDup(Run(foreign, es).ids)
    ensures Run(foreign, es).lost == {}
  {
    hide NoDup, Keyed, OnePlace, AckedOnce, AcksTrue, Chain, EpochInv, PipeInv, Apply;
    if es != [] {
      RunInv(foreign, es[..|es| - 1]);
      FreshAccept(Run(foreign, es[..|es| - 1]), es[|es| - 1]);
      NoDupLosesNothing(foreign, es[..|es| - 1]);
    }
  }

  /** With distinct ids every message accepted is acked or still pending. */
  lemma DistinctLosesNothing(foreign: set<SourceId>, es: seq<Event>, k: nat)
    requires Valid(foreign, es) && NoDup(Run(foreign, es).ids) && k < |Run(foreign, es).ids|
    ensures var s := Run(foreign, es);
            Occurrences(s.near.acked, k) == (if Kept(s.near, s.ids, k) then 0 else 1)
  {
    AckedOrPending(foreign, es, k);
    NoDupLosesNothing(foreign, es);
  }

  /** ... and once nothing is under way in an epoch, every message that the far side acked in it has been
      acked here. */
  lemma DrainedEpoch(foreign: set<SourceId>, es: seq<Event>, k: nat)
    requires Valid(foreign, es) && Distinct(Run(foreign, es)) && UnderWay(Run(foreign, es)) == []
    requires k < |Run(foreign, es).ids| && Run(foreign, es).ids[k] in Run(foreign, es).called
    ensures Occurrences(Run(foreign, es).near.acked, k) == 1
  {
    RunInv(foreign, es);
    RunHandled(foreign, es);
    DistinctLosesNothing(foreign, es, k);
  }

  /** Without that a message is lost: one accepted with the id of a pending one replaces it. */
  lemma SameIdLoses()
    ensures exists es :: Valid({}, es) && 0 in Run({}, es).lost
  {
    hide Valid, Run;
    var es, s := Start();
    es, s := Step(es, s, Build);
    es, s := Step(es, s, EndResend);
    es, s := Step(es, s, Accept(7));
    es, s := Step(es, s, SendNew);
    es, s := Step(es, s, Accept(7));
    assert 0 in s.lost;
  }

  lemma Start() returns (es: seq<Event>, s: State)
    ensures Valid({}, es) && Run({}, es) == s == Init({})
  {
    es, s := [], Init({});
  }

  lemma Step(es: seq<Event>, s: State, e: Event) returns (es': seq<Event>, s': State)
    requires Valid({}, es) && Run({}, es) == s && Enabled(s, e)
    ensures Valid({}, es') && Run({}, es') == s' == Apply(s, e)
  {
    es', s' := es + [e], Apply(s, e);
    assert es'[..|es'| - 1] == es;
  }

  // ---------------------------------------------------------------- progress is always possible

  /** The run `es` can go on to the state `t`. */
  ghost predicate Leads(foreign: set<SourceId>, es: seq<Event>, t: State) {
    exists more: seq<Event> :: Valid(foreign, es + more) && Run(foreign, es + more) == t
  }

  lemma LeadsNow(foreign: set<SourceId>, es: seq<Event>)
    requires Valid(foreign, es)
    ensures Leads(foreign, es, Run(foreign, es))
  {
    assert es + [] == es;
    assert Valid(foreign, es + []) && Run(foreign, es + []) == Run(foreign, es);
  }

  lemma LeadsOn(foreign: set<SourceId>, es: seq<Event>, s: State, e: Event) returns (t: State)
    requires Leads(foreign, es, s) && Enabled(s, e)
    ensures t == Apply(s, e) && Leads(foreign, es, t)
  {
    hide Apply, Enabled;
    var more :| Valid(foreign, es + more) && Run(foreign, es + more) == s;
    var all := es + (more + [e]);
    assert all[..|all| - 1] == es + more && all[|all| - 1] == e;
    t := Apply(s, e);
    assert Valid(foreign, all) && Run(foreign, all) == t;
  }

  /** The channel and the acknowledger have nothing under way. */
  ghost predicate Quiet(s: State) {
    s.toFar == [] && s.acks == [] && s.toAck == [] && s.toNear == []
  }

  /** A message that was just sent on a quiet channel goes to the far side and is acked there. */
  lemma AckedThere(foreign: set<SourceId>, es: seq<Event>, s: State, id: SourceId) returns (t: State)
    requires Leads(foreign, es, s) && Up(s.pc)
    requires s.toFar == [id] && s.acks == [] && s.toAck == [] && s.toNear == []
    ensures Leads(foreign, es, t) && t.pc == s.pc && t.ids == s.ids && t.lost == s.lost && t.near == s.near
    ensures t.toFar == [] && t.acks == [id] && t.toAck == [] && t.toNear == []
    ensures id in t.farAcked && id in t.received
  {
    hide Leads, Process;
    t := LeadsOn(foreign, es, s, FarReceive);
    t := LeadsOn(foreign, es, t, FarAck(id));
    assert t.acks == [id] && t.toFar == [];
  }

  /** The ack comes back. */
  lemma AckComesBack(foreign: set<SourceId>, es: seq<Event>, s: State, id: SourceId) returns (t: State)
    requires Leads(foreign, es, s) && Up(s.pc)
    requires s.toFar == [] && s.acks == [id] && s.toAck == [] && s.toNear == []
    ensures Leads(foreign, es, t) && t.pc == s.pc && t.ids == s.ids && t.lost == s.lost && t.near == s.near
    ensures t.toFar == [] && t.acks == [] && t.toAck == [] && t.toNear == [[id]]
  {
    hide Leads, Process;
    t := LeadsOn(foreign, es, s, Collect);
    assert t.toAck == [id] && t.acks == [];
    t := LeadsOn(foreign, es, t, Flush);
  }

  /** ... and the message is acked here. */
  lemma RoundTripOf(foreign: set<SourceId>, es: seq<Event>, s: State, id: SourceId) returns (t: State)
    requires Leads(foreign, es, s) && Up(s.pc) && id in s.near.pending
    requires s.toFar == [id] && s.acks == [] && s.toAck == [] && s.toNear == []
    ensures Leads(foreign, es, t) && Quiet(t) && t.pc == s.pc && t.ids == s.ids && t.lost == s.lost
    ensures t.near == Near(s.near.pending - {id}, s.near.acked + [s.near.pending[id]])
  {
    hide Leads, Process;
    t := AckedThere(foreign, es, s, id);
    t := AckComesBack(foreign, es, t, id);
    t := LeadsOn(foreign, es, t, LocalAck);
    ProcessOne(s.near, id);
  }

  lemma ProcessOne(n: Near, id: SourceId)
    requires id in n.pending
    ensures Process(n, [id]) == Near(n.pending - {id}, n.acked + [n.pending[id]])
  {
    assert [id][1..] == [];
  }

  /** The resend loop can get every pending message acked. */
  lemma {:induction false} ResendAll(foreign: set<SourceId>, es: seq<Event>, s: State) returns (t: State)
    requires Leads(foreign, es, s) && s.pc.Resending? && s.near.pending.Keys <= s.pc.todo && Quiet(s)
    ensures Leads(foreign, es, t) && t.pc == Receiving && t.near.pending == map[] && Quiet(t)
    ensures t.ids == s.ids && t.lost == s.lost
    decreases |s.near.pending|
  {
    hide Leads;
    if s.near.pending == map[] {
      t := LeadsOn(foreign, es, s, EndResend);
    } else {
      var id :| id in s.near.pending;
      t := LeadsOn(foreign, es, s, Pick(id));
      t := LeadsOn(foreign, es, t, SendOld);
      assert t.toFar == [id];
      t := RoundTripOf(foreign, es, t, id);
      t := ResendAll(foreign, es, t);
    }
  }

  /** A channel can be built anew in every state but the last. */
  lemma Rebuilt(foreign: set<SourceId>, es: seq<Event>) returns (t: State)
    requires Valid(foreign, es) && !Run(foreign, es).pc.Down?
    ensures Leads(foreign, es, t) && Quiet(t) && t.pc == Resending(t.near.pending.Keys)
    ensures t.ids == Run(foreign, es).ids && t.lost == Run(foreign, es).lost
  {
    hide Leads, Run, Valid;
    LeadsNow(foreign, es);
    t := Run(foreign, es);
    if !t.pc.Building? {
      t := LeadsOn(foreign, es, t, Break);
    }
    t := LeadsOn(foreign, es, t, Build);
  }

  /** From every reachable state in which the loop has not ended, whatever has failed so far, it can still happen
      that every message accepted is acked, apart from those that were overwritten, and that the loop is ready
      for new ones. */
  lemma CanAckAll(foreign: set<SourceId>, es: seq<Event>)
    requires Valid(foreign, es) && !Run(foreign, es).pc.Down?
    ensures exists t :: Leads(foreign, es, t) && t.pc == Receiving && AllAcked(t) && t.ids == Run(foreign, es).ids
  {
    hide Leads, Run, Valid;
    var t := Rebuilt(foreign, es);
    t := ResendAll(foreign, es, t);
    Settled(foreign, es, t);
  }

  /** Every message accepted was acked, or overwritten while pending. */
  ghost predicate AllAcked(s: State) {
    forall k: nat :: k < |s.ids| ==> k in s.near.acked || k in s.lost
  }

  lemma Settled(foreign: set<SourceId>, es: seq<Event>, t: State)
    requires Leads(foreign, es, t) && t.near.pending == map[]
    ensures AllAcked(t)
  {
    var more :| Valid(foreign, es + more) && Run(foreign, es + more) == t;
    hide AcksTrue, Chain, EpochInv, PipeInv, AckedOnce, Keyed;
    RunInv(foreign, es + more);
  }

  /** ... and then a new message can be accepted and acked, and the loop be shut down. */
  lemma CanDeliver(foreign: set<SourceId>, es: seq<Event>, id: SourceId)
    requires Valid(foreign, es) && !Run(foreign, es).pc.Down?
    ensures exists t :: Leads(foreign, es, t) && t.pc == Down && AllAcked(t) && t.ids == Run(foreign, es).ids + [id]
  {
    hide Leads, Run, Valid;
    var t := Rebuilt(foreign, es);
    t := ResendAll(foreign, es, t);
    var n := |t.ids|;
    t := LeadsOn(foreign, es, t, Accept(id));
    assert t.near.pending == map[id := n];
    t := LeadsOn(foreign, es, t, SendNew);
    assert t.toFar == [id];
    t := RoundTripOf(foreign, es, t, id);
    assert t.near.pending == map[];
    t := LeadsOn(foreign, es, t, Shutdown);
    Settled(foreign, es, t);
  }

  // ---------------------------------------------------------------- the two objects

  lemma {:induction false} ProcessAppend(n: Near, a: seq<SourceId>, b: seq<SourceId>)
    ensures Process(n, a + b) == Process(Process(n, a), b)
    decreases |a|
  {
    if a == [] {
      assert a + b == b;
    } else {
      assert (a + b)[1..] == a[1..] + b && (a + b)[0] == a[0];
      if a[0] in n.pending {
        ProcessAppend(Near(n.pending - {a[0]}, n.acked + [n.pending[a[0]]]), a[1..], b);
      } else {
        ProcessAppend(n, a[1..], b);
      }
    }
  }

  lemma {:induction false} ProcessShrinks(n: Near, l: seq<SourceId>)
    ensures Process(n, l).pending.Keys <= n.pending.Keys
    decreases |l|
  {
    if l != [] {
      if l[0] in n.pending {
        ProcessShrinks(Near(n.pending - {l[0]}, n.acked + [n.pending[l[0]]]), l[1..]);
      } else {
        ProcessShrinks(n, l[1..]);
      }
    }
  }

  /** What a select on the channel can meet. When nothing more is listed, the channel has failed. */
  datatype Chosen = Arrives(l: seq<SourceId>) | Writable

  class RelentlessChannel {
    var pending: map<SourceId, nat>
    var acked: seq<nat>          // the Ack calls made
    var accepted: nat
    var out: seq<SourceId>       // written to the current channel

    ghost function View(): Near
      reads this
    {
      Near(pending, acked)
    }

    constructor ()
      ensures View() == Near(map[], []) && accepted == 0 && out == []
    {
      pending, acked, accepted, out := map[], [], 0, [];
    }

    method ProcessAck(l: seq<SourceId>)
      modifies this`pending, this`acked
      ensures View() == Process(old(View()), l)
    {
      var i := 0;
      while i < |l|
        invariant 0 <= i <= |l| && Process(View(), l[i..]) == Process(old(View()), l)
      {
        assert l[i..][0] == l[i] && l[i..][1..] == l[i + 1..];
        if l[i] in pending {
          acked := acked + [pending[l[i]]];
          pending := pending - {l[i]};
        }
        i := i + 1;
      }
    }

    /** Sends one message: all the acks that arrive before the channel takes it are handled, and it is given up
        exactly when the channel fails first. */
    method SendOne(id: SourceId, script: seq<Chosen>) returns (newChan: bool, rest: seq<Chosen>)
      modifies this`pending, this`acked, this`out
      ensures View() == Process(old(View()), AcksBefore(script))
      ensures newChan <==> Writable !in script
      ensures rest == AfterWritable(script)
      ensures out == if newChan then old(out) else old(out) + [id]
    {
      rest := script;
      while rest != []
        invariant Process(View(), AcksBefore(rest)) == Process(old(View()), AcksBefore(script)) && out == old(out)
        invariant AfterWritable(rest) == AfterWritable(script) && (Writable in rest <==> Writable in script)
        decreases |rest|
      {
        assert rest == [rest[0]] + rest[1..];
        match rest[0] {
          case Writable =>
            out := out + [id];
            return false, rest[1..];
          case Arrives(m) =>
            ProcessAppend(View(), m, AcksBefore(rest[1..]));
            ProcessAck(m);
        }
        rest := rest[1..];
      }
      newChan := true;
    }

    /** Resends everything pending, in any order, on a new channel, each message once. All the acks in the part
        of the script that it gets to are handled. Unless the channel fails before, every message still
        pending at the end has been sent. */
    method Resend(script: seq<Chosen>) returns (newChan: bool, rest: seq<Chosen>)
      modifies this`pending, this`acked, this`out
      ensures IsTail(rest, script)
      ensures View() == Process(old(View()), AcksIn(Used(script, rest))) && |out| == Writes(Used(script, rest))
      ensures NoDup(out) && forall id <- out :: id in old(pending)
      ensures !newChan ==> forall id <- pending :: id in out
      ensures newChan ==> rest == [] && exists id :: id in old(pending) && id !in out
    {
      hide Process, AcksIn, Writes, AcksBefore, AfterWritable;
      out, rest := [], script;
      var todo := pending.Keys;
      NothingUsed(script, View());
      while exists id :: id in todo && id in pending
        invariant IsTail(rest, script)
        invariant View() == Process(old(View()), AcksIn(Used(script, rest))) && |out| == Writes(Used(script, rest))
        invariant todo <= old(pending).Keys && NoDup(out)
        invariant forall id <- pending :: id in todo || id in out
        invariant forall id <- out :: id in old(pending) && id !in todo
        decreases |todo|
      {
        var id :| id in todo && id in pending;
        todo := todo - {id};
        ghost var before, tail := View(), rest;
        newChan, rest := SendOne(id, rest);
        ProcessShrinks(before, AcksBefore(tail));
        OneUsed(script, tail);
        ProcessAppend(old(View()), AcksIn(Used(script, tail)), AcksBefore(tail));
        if newChan {
          assert id in old(pending) && id !in out;
          return;
        }
      }
      newChan := false;
    }

    /** Accepts a message and sends it. */
    method SendAccepted(id: SourceId, script: seq<Chosen>) returns (newChan: bool, rest: seq<Chosen>)
      modifies this
      ensures accepted == old(accepted) + 1
      ensures View() == Process(Near(old(pending)[id := old(accepted)], old(acked)), AcksBefore(script))
      ensures newChan <==> Writable !in script
      ensures rest == AfterWritable(script)
      ensures out == if newChan then old(out) else old(out) + [id]
    {
      pending := pending[id := accepted];
      accepted := accepted + 1;
      newChan, rest := SendOne(id, script);
    }
  }

  /** The acks that arrive before the channel takes a message. */
  function AcksBefore(script: seq<Chosen>): seq<SourceId> {
    if script == [] || script[0].Writable? then [] else script[0].l + AcksBefore(script[1..])
  }

  function AfterWritable(script: seq<Chosen>): seq<Chosen> {
    if script == [] then [] else if script[0].Writable? then script[1..] else AfterWritable(script[1..])
  }

  function AcksIn(script: seq<Chosen>): seq<SourceId> {
    if script == [] then [] else AcksIn(script[..|script| - 1]) + ArrivedAt(script, |script| - 1)
  }

  function ArrivedAt(script: seq<Chosen>, i: nat): seq<SourceId>
    requires i < |script|
  {
    if script[i].Arrives? then script[i].l else []
  }

  function Writes(script: seq<Chosen>): nat {
    if script == [] then 0 else Writes(script[..|script| - 1]) + if script[|script| - 1].Writable? then 1 else 0
  }

  predicate IsTail(rest: seq<Chosen>, script: seq<Chosen>) {
    |rest| <= |script| && rest == script[|script| - |rest|..]
  }

  function Used(script: seq<Chosen>, rest: seq<Chosen>): seq<Chosen>
    requires |rest| <= |script|
  {
    script[..|script| - |rest|]
  }

  lemma NothingUsed(script: seq<Chosen>, n: Near)
    ensures IsTail(script, script) && AcksIn(Used(script, script)) == [] && Writes(Used(script, script)) == 0
    ensures Process(n, []) == n
  {
  }

  lemma {:induction false} OneUsed(script: seq<Chosen>, tail: seq<Chosen>)
    requires IsTail(tail, script)
    ensures IsTail(AfterWritable(tail), script)
    ensures AcksIn(Used(script, AfterWritable(tail))) == AcksIn(Used(script, tail)) + AcksBefore(tail)
    ensures Writes(Used(script, AfterWritable(tail))) ==
            Writes(Used(script, tail)) + if Writable in tail then 1 else 0
    ensures Writable !in tail ==> AfterWritable(tail) == []
    decreases |tail|
  {
    if tail != [] {
      hide AcksIn, Writes;
      NextUsed(script, tail);
      assert tail == [tail[0]] + tail[1..];
      if !tail[0].Writable? {
        OneUsed(script, tail[1..]);
        Joins([], AcksIn(Used(script, tail)), tail[0].l, AcksBefore(tail[1..]));
      }
    }
  }

  lemma NextUsed(script: seq<Chosen>, tail: seq<Chosen>)
    requires IsTail(tail, script) && tail != []
    ensures IsTail(tail[1..], script)
    ensures AcksIn(Used(script, tail[1..])) ==
            AcksIn(Used(script, tail)) + if tail[0].Arrives? then tail[0].l else []
    ensures Writes(Used(script, tail[1..])) == Writes(Used(script, tail)) + if tail[0].Writable? then 1 else 0
  {
    var n := |script| - |tail|;
    assert script[..n + 1][..n] == script[..n] && script[..n + 1][n] == tail[0];
  }

  /** What the acknowledger's loop can meet: a call of Ack, an id in its channel of acks, or the ticker. */
  datatype Signal = Called(id: SourceId) | Queued | Tick(stopped: bool)

  function CalledIn(script: seq<Signal>): seq<SourceId> {
    if script == [] then []
    else (if script[0].Called? then [script[0].id] else []) + CalledIn(script[1..])
  }

  class RelentlessAcknowledger {
    var acks: seq<SourceId>
    var toAck: seq<SourceId>
    var out: seq<seq<SourceId>>   // the LocalAck messages written

    /** Everything acked, in the order of the calls. */
    ghost function All(): seq<SourceId>
      reads this
    {
      Flatten(out) + toAck + acks
    }

    constructor ()
      ensures All() == []
    {
      acks, toAck, out := [], [], [];
    }

    /** Writes the ids gathered as one LocalAck, never an empty one; if it is stopped first, it keeps them. */
    method Flush(stopped: bool)
      modifies this`toAck, this`out
      ensures All() == old(All())
      ensures !stopped ==> toAck == []
      ensures out == if stopped || old(toAck) == [] then old(out) else old(out) + [old(toAck)]
    {
      if |toAck| > 0 && !stopped {
        FlattenAppend(out, toAck);
        out := out + [toAck];
        toAck := [];
      }
    }

    /** One turn of the loop. */
    method Turn(sig: Signal)
      modifies this
      ensures All() == old(All()) + (if sig.Called? then [sig.id] else [])
      ensures |acks| == AcksLeft(old(|acks|), sig)
      ensures sig.Queued? && old(acks) != [] ==> acks == old(acks)[1..] && toAck == old(toAck) + [old(acks)[0]]
      ensures sig.Tick? ==> acks == old(acks) && (toAck == [] <==> !sig.stopped || old(toAck) == [])
      ensures out == if sig.Tick? && !sig.stopped && old(toAck) != [] then old(out) + [old(toAck)] else old(out)
    {
      Joins([], Flatten(out), toAck, acks);
      match sig {
        case Called(id) =>
          Joins([], Flatten(out) + toAck, acks, [id]);
          acks := acks + [id];
        case Queued =>
          if acks != [] {
            toAck, acks := toAck + [acks[0]], acks[1..];
          }
        case Tick(stopped) => Flush(stopped);
      }
    }

    /** The whole loop: no ack is dropped, repeated or reordered, and only those are left in the channel that the
        loop has not come to. The last flush may be stopped; otherwise nothing gathered is kept. */
    method AcknowledgeLoop(script: seq<Signal>, stopped: bool)
      modifies this
      ensures All() == old(All()) + CalledIn(script)
      ensures |acks| == AllAcksLeft(old(|acks|), script)
      ensures !stopped ==> toAck == []
    {
      for i := 0 to |script|
        invariant All() == old(All()) + CalledIn(script[..i])
        invariant |acks| == AllAcksLeft(old(|acks|), script[..i])
      {
        Turn(script[i]);
        CalledNext(script, i);
        assert script[..i + 1][..i] == script[..i];
        Joins([], old(All()), CalledIn(script[..i]), if script[i].Called? then [script[i].id] else []);
      }
      assert script[..|script|] == script;
      Flush(stopped);
    }
  }

  /** How many ids are in the channel of acks after a signal. */
  function AcksLeft(n: nat, sig: Signal): (left: nat)
    ensures sig.Called? ==> left == n + 1
    ensures sig.Queued? && n > 0 ==> left + 1 == n
    ensures sig.Tick? || (sig.Queued? && n == 0) ==> left == n
  {
    match sig
    case Called(_) => n + 1
    case Queued => if n == 0 then 0 else n - 1
    case Tick(_) => n
  }

  function AllAcksLeft(n: nat, script: seq<Signal>): nat {
    if script == [] then n else AcksLeft(AllAcksLeft(n, script[..|script| - 1]), script[|script| - 1])
  }

  lemma {:induction false} CalledNext(script: seq<Signal>, i: nat)
    requires i < |script|
    ensures CalledIn(script[..i + 1]) == CalledIn(script[..i]) + (if script[i].Called? then [script[i].id] else [])
  {
    if i > 0 {
      CalledNext(script[1..], i - 1);
      assert script[..i + 1][1..] == script[1..][..i] && script[..i][1..] == script[1..][..i - 1];
    }
  }
}
