/** Client and server of streaming connections together: the client of `StreamClient` and the pipeline of
    `StreamWire`, over any number of connections that may break at any point.
 */
module StreamSession {
  import opened Ledger
  import C = StreamClient
  import W = StreamWire

  datatype Session = Session(
    client: C.Client,
    wire: W.Wire,        // of the current or latest connection
    doneSent: bool,      // notifyLoop has sent DoneSending and returned
    donesInFlight: nat,
    reached: set<Id>)    // history: messages of contacts that a server has read in full

  datatype Event =
    | Connect                    // the initial exchange succeeds
    | Local(ce: C.Event)         // a step of the client alone
    | Number(ce: C.Event)        // writeLoop numbers a batch, possibly an empty one
    | WriteOk
    | WriteFail(delivered: bool) // writeLoop sees an error, the batch may have arrived all the same
    | Server(we: W.Event)        // a step of the server alone
    | RecvAck
    | SendDone
    | RecvDone

  predicate IsLocal(e: C.Event) {
    !(e.ConnectOk? || e.Beacon? || e.Record? || e.Write? || e.WriterFail? || e.RecvAck? || e.RecvDone?)
  }

  predicate IsServer(e: W.Event) {
    e.Read? || e.Start? || e.FinishOk? || e.FinishFail? || e.Send?
  }

  /** What the client, or the server, can do by itself. */
  predicate Willing(s: Session, e: Event) {
    match e
    case Connect => C.Enabled(s.client, C.ConnectOk)
    case Local(ce) => IsLocal(ce) && C.Enabled(s.client, ce)
    case Number(ce) => (ce.Beacon? || ce.Record?) && C.Enabled(s.client, ce)
    case WriteOk => C.Enabled(s.client, C.Write)
    case WriteFail(_) => C.Enabled(s.client, C.WriterFail)
    case Server(we) => IsServer(we) && W.Enabled(s.wire, we)
    case RecvAck => C.Enabled(s.client, C.RecvAck) && W.Enabled(s.wire, W.Recv)
    case SendDone => !s.doneSent
    case RecvDone => s.client.connected && s.client.reader == C.Reading && s.donesInFlight > 0
  }

  /** What the connection asks for in addition; see `NeverRefused`. */
  predicate Enabled(s: Session, e: Event) {
    && Willing(s, e)
    && (e.Number? ==> W.Enabled(s.wire, W.Store))
    && (e.WriteOk? || e.WriteFail? ==> W.Enabled(s.wire, W.Write))
    && (e.RecvDone? ==> C.Enabled(s.client, C.RecvDone))
  }

  /** The messages of batch `n`. */
  function BatchOf(batches: seq<seq<Id>>, n: nat): seq<Id> {
    if 1 <= n <= |batches| then batches[n - 1] else []
  }

  function Ids(l: seq<Id>): set<Id> {
    set id | id in l
  }

  function Apply(s: Session, e: Event): Session
    requires Enabled(s, e)
  {
    match e
    case Connect =>
      Session(C.Apply(s.client, C.ConnectOk), W.Init(), false, 0, s.reached + Ids(s.client.toSend))
    case Local(ce) => s.(client := C.Apply(s.client, ce))
    case Number(ce) => s.(client := C.Apply(s.client, ce), wire := W.Apply(s.wire, W.Store))
    case WriteOk => s.(client := C.Apply(s.client, C.Write), wire := W.Apply(s.wire, W.Write))
    case WriteFail(delivered) =>
      s.(client := C.Apply(s.client, C.WriterFail),
         wire := W.Apply(s.wire, if delivered then W.Write else W.WriteLost))
    case Server(we) =>
      s.(wire := W.Apply(s.wire, we),
         reached := if we.Read? then s.reached + Ids(BatchOf(s.client.batches, s.wire.read + 1)) else s.reached)
    case RecvAck => s.(client := C.Apply(s.client, C.RecvAck), wire := W.Apply(s.wire, W.Recv))
    case SendDone => s.(doneSent := true, donesInFlight := s.donesInFlight + 1)
    case RecvDone => s.(client := C.Apply(s.client, C.RecvDone), donesInFlight := s.donesInFlight - 1)
  }

  // ---------------------------------------------------------------- invariant

  /** The two sides of the connection count the same batches. */
  ghost predicate Linked(c: C.Client, w: W.Wire) {
    && c.connected ==>
      && c.wcnt == w.stored + 1
      && c.rcnt == w.recv + 1
      && |c.batches| == w.stored
      && (c.writer == C.Writing <==> w.unwritten == 1) && w.unwritten <= 1
      && (w.lost > 0 ==> c.writer == C.WriterGone)
      && (forall i <- c.pending :: 1 <= i <= w.stored && c.pending[i] == c.batches[i - 1])
  }

  ghost predicate Reached(s: Session) {
    && (forall id <- s.client.acked :: id in s.reached)
    && (forall id <- s.client.hand :: id in s.reached)
    && (s.client.connected ==>
          forall n :: 1 <= n <= s.wire.read ==> forall id <- BatchOf(s.client.batches, n) :: id in s.reached)
  }

  ghost predicate DoneOnce(s: Session) {
    && s.donesInFlight <= 1
    && (s.donesInFlight > 0 ==> s.doneSent)
    && (s.client.connected && s.client.serverDone ==> s.doneSent && s.donesInFlight == 0)
  }

  ghost predicate Inv(s: Session) {
    && C.Books(s.client) && C.Control(s.client) && W.Inv(s.wire)
    && Linked(s.client, s.wire) && Reached(s) && DoneOnce(s)
  }

  /** The step of the client that a step of the session is, if it is one. */
  function ClientStep(e: Event): C.Event
    requires !e.Server? && !e.SendDone?
  {
    match e
    case Connect => C.ConnectOk
    case Local(ce) => ce
    case Number(ce) => ce
    case WriteOk => C.Write
    case WriteFail(_) => C.WriterFail
    case RecvAck => C.RecvAck
    case RecvDone => C.RecvDone
  }

  lemma StepClient(s: Session, e: Event)
    requires Inv(s) && Enabled(s, e)
    ensures C.Books(Apply(s, e).client) && C.Control(Apply(s, e).client)
  {
    hide C.Books, C.Control, W.Inv, C.Apply, W.Apply, Reached, Linked;
    if !e.Server? && !e.SendDone? {
      C.StepBooks(s.client, ClientStep(e));
      C.StepControl(s.client, ClientStep(e));
    }
  }

  lemma StepWire(s: Session, e: Event)
    requires Inv(s) && Enabled(s, e)
    ensures W.Inv(Apply(s, e).wire)
  {
    hide C.Books, C.Control, W.Inv, C.Apply, W.Apply, Reached, DoneOnce;
    match e
    case Connect => W.RunInv([]);
    case Number(_) => W.StepInv(s.wire, W.Store);
    case WriteOk => W.StepInv(s.wire, W.Write);
    case WriteFail(delivered) => W.StepInv(s.wire, if delivered then W.Write else W.WriteLost);
    case Server(we) => W.StepInv(s.wire, we);
    case RecvAck => W.StepInv(s.wire, W.Recv);
    case _ =>
  }

  /** What the client does alone. */
  lemma LocalFrame(c: C.Client, e: C.Event)
    requires IsLocal(e) && C.Enabled(c, e)
    ensures var d := C.Apply(c, e);
            && d.connected == (c.connected && !e.Disconnect?)
            && d.wcnt == c.wcnt && d.rcnt == c.rcnt && d.batches == c.batches
            && d.serverDone == c.serverDone
  {
    hide Move;
    match e
    case ConnectTake | ConnectFail | GroupTake =>
    case WriterStop | WriterExit | Cancel =>
    case AckOne | AckEnd | AwaitCanceled | AwaitDone | ReadFail =>
    case NackBatch(_) =>
    case Disconnect =>
  }

  lemma LocalWriter(c: C.Client, e: C.Event)
    requires IsLocal(e) && C.Enabled(c, e) && c.connected
    ensures C.Apply(c, e).writer == C.Writing <==> c.writer == C.Writing
    ensures c.writer == C.WriterGone ==> C.Apply(c, e).writer == C.WriterGone
  {
    hide Move;
    match e
    case ConnectTake | ConnectFail | GroupTake =>
    case WriterStop | WriterExit | Cancel =>
    case AckOne | AckEnd | AwaitCanceled | AwaitDone | ReadFail =>
    case NackBatch(_) =>
    case Disconnect =>
  }

  lemma LocalPending(c: C.Client, e: C.Event)
    requires IsLocal(e) && C.Enabled(c, e)
    ensures var d := C.Apply(c, e);
            forall i <- d.pending :: i in c.pending && d.pending[i] == c.pending[i]
  {
    hide Move;
    if !e.NackBatch? {
      assert C.Apply(c, e).pending == c.pending;
    }
  }

  lemma LocalAcks(c: C.Client, e: C.Event)
    requires IsLocal(e) && C.Enabled(c, e)
    ensures var d := C.Apply(c, e);
            && (forall id <- d.acked :: id in c.acked || id in c.hand)
            && (forall id <- d.hand :: id in c.hand)
  {
    hide Move;
    if e.AckOne? {
      assert c.hand[0] in c.hand;
    }
  }

  lemma LinkedLocal(s: Session, ce: C.Event)
    requires Inv(s) && Enabled(s, Local(ce))
    ensures var s' := Apply(s, Local(ce)); Linked(s'.client, s'.wire) && Reached(s') && DoneOnce(s')
  {
    hide C.Books, C.Control, W.Inv, C.Apply, C.Enabled, W.Apply;
    LocalFrame(s.client, ce);
    LocalPending(s.client, ce);
    if s.client.connected {
      LocalWriter(s.client, ce);
    }
    LocalAcks(s.client, ce);
    assert Apply(s, Local(ce)) == s.(client := C.Apply(s.client, ce));
  }

  lemma LinkedNumber(s: Session, ce: C.Event)
    requires Inv(s) && Enabled(s, Number(ce))
    ensures var s' := Apply(s, Number(ce)); Linked(s'.client, s'.wire) && Reached(s') && DoneOnce(s')
  {
    hide C.Books, C.Control, W.Placed, W.Logged, W.Workers, W.InFlight, Move;
    var s' := Apply(s, Number(ce));
    forall n | 1 <= n <= s'.wire.read
      ensures forall id <- BatchOf(s'.client.batches, n) :: id in s'.reached
    {
      assert BatchOf(s'.client.batches, n) == BatchOf(s.client.batches, n);
    }
  }

  lemma LinkedWrite(s: Session, e: Event)
    requires Inv(s) && Enabled(s, e) && (e.WriteOk? || e.WriteFail?)
    ensures var s' := Apply(s, e); Linked(s'.client, s'.wire) && Reached(s') && DoneOnce(s')
  {
    hide C.Books, C.Control, W.Inv;
  }

  lemma LinkedServer(s: Session, we: W.Event)
    requires Inv(s) && Enabled(s, Server(we))
    ensures var s' := Apply(s, Server(we)); Linked(s'.client, s'.wire) && Reached(s') && DoneOnce(s')
  {
    hide C.Books, C.Control, W.Inv;
  }

  lemma RecvFrame(s: Session)
    requires Inv(s) && Enabled(s, RecvAck)
    ensures var t := Apply(s, RecvAck);
            && t.client == C.Apply(s.client, C.RecvAck)
            && t.wire == s.wire.(recv := s.wire.recv + 1)
            && t.reached == s.reached && t.doneSent == s.doneSent && t.donesInFlight == s.donesInFlight
            && 1 <= s.client.rcnt <= s.wire.read
  {
    hide C.Books, C.Control, C.Apply, W.Logged, W.Workers, W.InFlight, W.Placed, Reached, DoneOnce;
  }

  lemma LinkedRecv(s: Session)
    requires Inv(s) && Enabled(s, RecvAck)
    ensures var s' := Apply(s, RecvAck); Linked(s'.client, s'.wire) && Reached(s') && DoneOnce(s')
  {
    hide C.Books, C.Control, C.Apply, W.Apply, Apply, W.Inv;
    RecvFrame(s);
    C.Pops(s.client);
    var n := s.client.rcnt;
    if n in s.client.pending {
      assert BatchOf(s.client.batches, n) == s.client.pending[n];
    }
    assert forall id <- C.Ready(s.client) :: id in s.reached;
  }

  lemma LinkedOther(s: Session, e: Event)
    requires Inv(s) && Enabled(s, e) && (e.Connect? || e.SendDone? || e.RecvDone?)
    ensures var s' := Apply(s, e); Linked(s'.client, s'.wire) && Reached(s') && DoneOnce(s')
  {
    hide C.Books, W.Inv;
  }

  lemma StepInv(s: Session, e: Event)
    requires Inv(s) && Enabled(s, e)
    ensures Inv(Apply(s, e))
  {
    hide C.Books, C.Control, W.Inv, Reached, Linked, DoneOnce, Apply;
    StepClient(s, e);
    StepWire(s, e);
    match e
    case Local(ce) => LinkedLocal(s, ce);
    case Number(ce) => LinkedNumber(s, ce);
    case WriteOk => LinkedWrite(s, e);
    case WriteFail(_) => LinkedWrite(s, e);
    case Server(we) => LinkedServer(s, we);
    case RecvAck => LinkedRecv(s);
    case _ => LinkedOther(s, e);
  }

  // ---------------------------------------------------------------- runs

  function Init(): Session {
    Session(C.Init(), W.Init(), false, 0, {})
  }

  ghost predicate Valid(es: seq<Event>)
    decreases |es|, 0
  {
    es == [] || (Valid(es[..|es| - 1]) && Enabled(Run(es[..|es| - 1]), es[|es| - 1]))
  }

  ghost function Run(es: seq<Event>): Session
    requires Valid(es)
    decreases |es|, 1
  {
    if es == [] then Init() else Apply(Run(es[..|es| - 1]), es[|es| - 1])
  }

  lemma {:induction false} RunInv(es: seq<Event>)
    requires Valid(es)
    ensures Inv(Run(es))
  {
    hide C.Books, C.Control, W.Inv, Apply;
    if es == [] {
      C.RunInv([]);
      W.RunInv([]);
    } else {
      hide Inv;
      RunInv(es[..|es| - 1]);
      StepInv(Run(es[..|es| - 1]), es[|es| - 1]);
    }
  }

  // ---------------------------------------------------------------- main results

  /** In every reachable state the two sides agree: whatever the client is ready to number, write or
      receive, the connection allows. In particular DoneSending arrives at most once in a connection, so
      that readLoop does not close serverDone a second time. */
  lemma NeverRefused(es: seq<Event>, e: Event)
    requires Valid(es) && Willing(Run(es), e)
    ensures Enabled(Run(es), e)
  {
    hide Valid, Run;
    RunInv(es);
    Agreed(Run(es), e);
  }

  lemma Agreed(s: Session, e: Event)
    requires Inv(s) && Willing(s, e)
    ensures Enabled(s, e)
  {
    hide C.Books, C.Control, W.Inv, Reached;
  }

  /** A message is acked only after a server has read in full the contact that carries it, however often
      connections break and whatever processing fails; and then nothing else is called on it. */
  lemma AckedWasRead(es: seq<Event>, id: Id)
    requires Valid(es) && id in Run(es).client.acked
    ensures id in Run(es).reached && C.Calls(Run(es).client, id) == 1
  {
    RunInv(es);
    var c := Run(es).client;
    C.HeldOrSettled(c, id);
    OccursOnce(c.acked, id);
    OccursOnce(c.nacked, id);
  }

  /** No message is lost: every message taken has been read by a server, or was given back to the retry
      loop, or is still held by the client. */
  lemma NothingLost(es: seq<Event>, id: Id)
    requires Valid(es) && id < Run(es).client.taken
    ensures id in Run(es).reached || id in Run(es).client.nacked || C.HeldSomewhere(Run(es).client, id)
  {
    RunInv(es);
    C.HeldOrSettled(Run(es).client, id);
  }

  // ---------------------------------------------------------------- the fate of a batch

  /** Batch `n` when `recv` acks have arrived: acked if its ack was among them, and otherwise pending until the
      teardown gives it back. */
  ghost predicate Fated(c: C.Client, n: nat, recv: nat)
    requires 1 <= n <= |c.batches|
  {
    var b := c.batches[n - 1];
    if n <= recv then
      n !in c.pending && forall id <- b :: id in c.ledger && (c.ledger[id] == C.Acked || c.ledger[id] == C.InHand)
    else
      b == [] || n in c.pending || (C.LoopsGone(c) && forall id <- b :: id in c.ledger && c.ledger[id] == C.Nacked)
  }

  ghost predicate Fate(c: C.Client, recv: nat) {
    c.connected ==> forall n: nat :: 1 <= n <= |c.batches| ==> Fated(c, n, recv)
  }

  /** The step does not touch what batches there are and where their messages are. */
  ghost predicate Untouched(c: C.Client, d: C.Client) {
    && d.batches == c.batches && d.pending == c.pending && d.ledger == c.ledger && d.connected == c.connected
    && (C.LoopsGone(c) ==> C.LoopsGone(d))
  }

  lemma UntouchedFate(c: C.Client, d: C.Client, recv: nat)
    requires Fate(c, recv) && Untouched(c, d)
    ensures Fate(d, recv)
  {
    forall n: nat | d.connected && 1 <= n <= |d.batches|
      ensures Fated(d, n, recv)
    {
      assert Fated(c, n, recv);
    }
  }

  predicate Touches(e: C.Event) {
    e.ConnectTake? || e.ConnectFail? || e.ConnectOk? || e.GroupTake? || e.Beacon? || e.Record? || e.RecvAck?
    || e.AckOne? || e.NackBatch? || e.Disconnect?
  }

  lemma UntouchedStep(c: C.Client, e: C.Event)
    requires C.Enabled(c, e) && !Touches(e)
    ensures Untouched(c, C.Apply(c, e))
  {
    hide Move;
    if e.Write? || e.WriterFail? || e.WriterStop? || e.WriterExit? {
      UntouchedWriter(c, e);
    } else if e.AckEnd? || e.AwaitDone? {
      UntouchedReader(c, e);
    }
  }

  lemma UntouchedReader(c: C.Client, e: C.Event)
    requires C.Enabled(c, e) && (e.AckEnd? || e.AwaitDone?)
    ensures Untouched(c, C.Apply(c, e))
  {
    hide Move;
  }

  lemma UntouchedWriter(c: C.Client, e: C.Event)
    requires C.Enabled(c, e) && (e.Write? || e.WriterFail? || e.WriterStop? || e.WriterExit?)
    ensures Untouched(c, C.Apply(c, e))
  {
    hide Move;
  }

  /** The messages of a pending batch are where the ledger says. */
  lemma PendingLedger(c: C.Client, n: nat)
    requires C.Books(c) && n in c.pending
    ensures forall id <- c.pending[n] :: id in c.ledger && c.ledger[id] == C.Batch(n)
  {
    Here(c.ledger, c.pending[n], C.Batch(n));
  }

  lemma GroupTakeFate(c: C.Client, recv: nat)
    requires C.Books(c) && Fate(c, recv) && C.Enabled(c, C.GroupTake)
    ensures Fate(C.Apply(c, C.GroupTake), recv)
  {
    var d := C.Apply(c, C.GroupTake);
    forall n: nat | 1 <= n <= |d.batches|
      ensures Fated(d, n, recv)
    {
      assert Fated(c, n, recv);
    }
  }

  lemma AckOneFate(c: C.Client, recv: nat)
    requires C.Books(c) && Fate(c, recv) && C.Enabled(c, C.AckOne)
    ensures Fate(C.Apply(c, C.AckOne), recv)
  {
    var d := C.Apply(c, C.AckOne);
    Here(c.ledger, c.hand, C.InHand);
    forall n: nat | 1 <= n <= |d.batches|
      ensures Fated(d, n, recv)
    {
      assert Fated(c, n, recv);
    }
  }

  lemma NackFate(c: C.Client, recv: nat, i: nat)
    requires C.Books(c) && Fate(c, recv) && C.Enabled(c, C.NackBatch(i))
    requires forall j <- c.pending :: 1 <= j <= |c.batches| && c.pending[j] == c.batches[j - 1]
    ensures Fate(C.Apply(c, C.NackBatch(i)), recv)
  {
    var d := C.Apply(c, C.NackBatch(i));
    PendingLedger(c, i);
    forall n: nat | 1 <= n <= |d.batches|
      ensures Fated(d, n, recv)
    {
      assert Fated(c, n, recv);
    }
  }

  lemma NumberFate(c: C.Client, recv: nat, e: C.Event)
    requires C.Books(c) && Fate(c, recv) && C.Enabled(c, e) && (e.Beacon? || e.Record?)
    requires c.wcnt == |c.batches| + 1 && recv <= |c.batches|
    requires forall j <- c.pending :: 1 <= j <= |c.batches| && c.pending[j] == c.batches[j - 1]
    ensures Fate(C.Apply(c, e), recv)
  {
    var d := C.Apply(c, e);
    Here(c.ledger, c.group, C.Group);
    forall n: nat | 1 <= n <= |d.batches|
      ensures Fated(d, n, recv)
    {
      if n <= |c.batches| {
        assert Fated(c, n, recv) && d.batches[n - 1] == c.batches[n - 1];
      }
    }
  }

  lemma RecvFate(c: C.Client, recv: nat)
    requires C.Books(c) && Fate(c, recv) && C.Enabled(c, C.RecvAck) && c.rcnt == recv + 1
    requires forall j <- c.pending :: 1 <= j <= |c.batches| && c.pending[j] == c.batches[j - 1]
    ensures Fate(C.Apply(c, C.RecvAck), recv + 1)
  {
    var d, more := C.Apply(c, C.RecvAck), recv + 1;
    if c.rcnt in c.pending {
      PendingLedger(c, c.rcnt);
    }
    forall n: nat | 1 <= n <= |d.batches|
      ensures Fated(d, n, more)
    {
      assert Fated(c, n, recv);
      if n in c.pending {
        PendingLedger(c, n);
      }
    }
  }

  lemma LocalFate(s: Session, ce: C.Event)
    requires Inv(s) && Enabled(s, Local(ce)) && Fate(s.client, s.wire.recv)
    ensures Fate(C.Apply(s.client, ce), s.wire.recv)
  {
    hide C.Books, C.Control, W.Inv, Fate, C.Apply;
    if ce.GroupTake? {
      GroupTakeFate(s.client, s.wire.recv);
    } else if ce.AckOne? {
      AckOneFate(s.client, s.wire.recv);
    } else if ce.NackBatch? {
      NackFate(s.client, s.wire.recv, ce.i);
    } else if ce.ConnectTake? || ce.ConnectFail? || ce.Disconnect? {
      ApartFate(s.client, ce, s.wire.recv);
    } else {
      UntouchedStep(s.client, ce);
      UntouchedFate(s.client, C.Apply(s.client, ce), s.wire.recv);
    }
  }

  lemma ApartFate(c: C.Client, e: C.Event, recv: nat)
    requires C.Enabled(c, e) && (e.ConnectTake? || e.ConnectFail? || e.Disconnect?)
    ensures Fate(C.Apply(c, e), recv)
  {
    hide Move;
  }

  lemma NewFate(c: C.Client)
    requires C.Enabled(c, C.ConnectOk)
    ensures Fate(C.Apply(c, C.ConnectOk), 0)
  {
    hide Move;
  }

  lemma RecvWithin(s: Session)
    requires Inv(s) && s.client.connected
    ensures s.wire.recv <= |s.client.batches|
  {
    hide C.Books, C.Control, Reached, DoneOnce, W.Placed, W.Logged, W.Workers, W.InFlight;
  }

  lemma StepFate(s: Session, e: Event)
    requires Inv(s) && Enabled(s, e) && Fate(s.client, s.wire.recv)
    ensures Fate(Apply(s, e).client, Apply(s, e).wire.recv)
  {
    hide C.Books, C.Control, W.Inv, Fate, C.Apply, Reached, DoneOnce;
    match e
    case Connect => NewFate(s.client);
    case Local(ce) => LocalFate(s, ce);
    case Number(ce) =>
      RecvWithin(s);
      NumberFate(s.client, s.wire.recv, ce);
    case WriteOk =>
      UntouchedStep(s.client, C.Write);
      UntouchedFate(s.client, C.Apply(s.client, C.Write), s.wire.recv);
    case WriteFail(_) =>
      UntouchedStep(s.client, C.WriterFail);
      UntouchedFate(s.client, C.Apply(s.client, C.WriterFail), s.wire.recv);
    case RecvAck => RecvFate(s.client, s.wire.recv);
    case RecvDone =>
      UntouchedStep(s.client, C.RecvDone);
      UntouchedFate(s.client, C.Apply(s.client, C.RecvDone), s.wire.recv);
    case _ =>
  }

  lemma {:induction false} RunFate(es: seq<Event>)
    requires Valid(es)
    ensures Fate(Run(es).client, Run(es).wire.recv)
  {
    hide Inv, Apply;
    if es != [] {
      RunFate(es[..|es| - 1]);
      RunInv(es[..|es| - 1]);
      StepFate(Run(es[..|es| - 1]), es[|es| - 1]);
    }
  }

  /** On a connection the messages of a batch are acked exactly when as many acks have arrived as the number of the
      batch; the others are pending until both loops have returned, and then given back. */
  lemma BatchAckedIff(es: seq<Event>, n: nat, id: Id)
    requires Valid(es) && Run(es).client.connected && 1 <= n <= |Run(es).client.batches|
    requires id in Run(es).client.batches[n - 1]
    ensures var c := Run(es).client;
            && (id in c.acked || id in c.hand <==> n <= Run(es).wire.recv)
            && (n > Run(es).wire.recv ==>
                  (n in c.pending && id in c.pending[n]) || (C.LoopsGone(c) && id in c.nacked))
  {
    hide Valid, Run;
    RunInv(es);
    RunFate(es);
    FateOf(Run(es), n, id);
  }

  lemma FateOf(s: Session, n: nat, id: Id)
    requires C.Books(s.client) && Linked(s.client, s.wire) && Fate(s.client, s.wire.recv) && s.client.connected
    requires 1 <= n <= |s.client.batches| && id in s.client.batches[n - 1]
    ensures var c := s.client;
            && (id in c.acked || id in c.hand <==> n <= s.wire.recv)
            && (n > s.wire.recv ==> (n in c.pending && id in c.pending[n]) || (C.LoopsGone(c) && id in c.nacked))
  {
    assert Fated(s.client, n, s.wire.recv);
    if n in s.client.pending {
      PendingLedger(s.client, n);
    }
  }

  // ---------------------------------------------------------------- what was read

  ghost predicate InBatch(batches: seq<seq<Id>>, n: nat, id: Id) {
    1 <= n <= |batches| && id in batches[n - 1]
  }

  /** Batches have no message in common, with each other and with what is still to be sent. */
  ghost predicate Apart(c: C.Client) {
    && (forall n: nat, id: Id :: InBatch(c.batches, n, id) ==> id < c.taken && id !in c.group && id !in c.toSend)
    && (forall m: nat, n: nat, id: Id :: InBatch(c.batches, m, id) && InBatch(c.batches, n, id) ==> m == n)
    && (forall id <- c.group :: id < c.taken)
    && (forall id <- c.toSend :: id < c.taken)
  }

  /** Nothing is reached before its contact is read. */
  ghost predicate Unread(s: Session) {
    && Apart(s.client)
    && (forall id <- s.reached :: id < s.client.taken && id !in s.client.group && id !in s.client.toSend)
    && (forall n: nat, id: Id :: InBatch(s.client.batches, n, id) && n > s.wire.read ==> id !in s.reached)
  }

  lemma LocalUnread(s: Session, ce: C.Event)
    requires Unread(s) && Enabled(s, Local(ce)) && C.Control(s.client)
    ensures Unread(Apply(s, Local(ce)))
  {
    hide W.Apply, W.Enabled, Move, InBatch;
    LocalFrame(s.client, ce);
    LocalSends(s.client, ce);
    hide C.Apply, C.Enabled;
  }

  /** What the client alone does to the messages to be sent. */
  lemma LocalSends(c: C.Client, e: C.Event)
    requires IsLocal(e) && C.Enabled(c, e)
    ensures var d := C.Apply(c, e);
            && d.taken >= c.taken
            && (forall id <- d.group :: id in c.group || (id == c.taken && d.taken == c.taken + 1))
            && (forall id <- d.toSend :: id in c.toSend || (id == c.taken && d.taken == c.taken + 1))
  {
    hide Move;
    C.TakenStep(c, e);
    if !(e.ConnectTake? || e.ConnectFail? || e.GroupTake?) {
      SendsKept(c, e);
    }
  }

  lemma SendsKept(c: C.Client, e: C.Event)
    requires IsLocal(e) && C.Enabled(c, e) && !(e.ConnectTake? || e.ConnectFail? || e.GroupTake?)
    ensures C.Apply(c, e).group == c.group && C.Apply(c, e).toSend == c.toSend
  {
    hide Move;
    match e
    case WriterStop | WriterExit | Cancel =>
    case AckOne | AckEnd | AwaitCanceled | AwaitDone | ReadFail =>
    case NackBatch(_) =>
    case Disconnect =>
  }

  lemma NumberSends(c: C.Client, e: C.Event)
    requires C.Enabled(c, e) && (e.Beacon? || e.Record?)
    ensures var d := C.Apply(c, e);
            d.batches == c.batches + [c.group] && d.group == [] && d.toSend == c.toSend && d.taken == c.taken
  {
    hide Move;
  }

  lemma NumberUnread(s: Session, ce: C.Event)
    requires Unread(s) && C.Control(s.client) && Enabled(s, Number(ce)) && s.wire.read <= |s.client.batches|
    ensures Unread(Apply(s, Number(ce)))
  {
    NumberSends(s.client, ce);
    assert s.client.toSend == [];
    hide C.Apply, C.Enabled, C.Control;
    var old_, new_ := s.client.batches, Apply(s, Number(ce)).client.batches;
    forall n: nat, id: Id
      ensures InBatch(new_, n, id) <==> InBatch(old_, n, id) || (n == |new_| && id in s.client.group)
    {
    }
    hide InBatch;
  }

  lemma ServerUnread(s: Session, we: W.Event)
    requires Unread(s) && Enabled(s, Server(we))
    ensures Unread(Apply(s, Server(we)))
  {
    hide C.Apply, C.Enabled;
    var next := s.wire.read + 1;
    assert forall id :: id in BatchOf(s.client.batches, next) <==> InBatch(s.client.batches, next, id);
    hide InBatch, BatchOf;
  }

  lemma OtherSends(c: C.Client, e: C.Event)
    requires C.Enabled(c, e) && (e.Write? || e.WriterFail? || e.RecvAck? || e.RecvDone?)
    ensures var d := C.Apply(c, e);
            d.batches == c.batches && d.group == c.group && d.toSend == c.toSend && d.taken == c.taken
  {
    hide Move;
  }

  lemma ConnectSends(c: C.Client)
    requires C.Enabled(c, C.ConnectOk)
    ensures var d := C.Apply(c, C.ConnectOk);
            d.batches == [] && d.group == c.group && d.toSend == [] && d.taken == c.taken
  {
    hide Move;
  }

  lemma OtherUnread(s: Session, e: Event)
    requires Unread(s) && C.Control(s.client) && Enabled(s, e) && !e.Local? && !e.Number? && !e.Server?
    ensures Unread(Apply(s, e))
  {
    if e.Connect? {
      ConnectSends(s.client);
    } else if !e.SendDone? {
      OtherSends(s.client, ClientStep(e));
    }
    hide C.Apply, C.Enabled;
  }

  lemma ReadWithin(s: Session)
    requires Inv(s) && s.client.connected
    ensures s.wire.read <= |s.client.batches|
  {
    hide C.Books, C.Control, Reached, DoneOnce, W.Placed, W.Logged, W.Workers, W.InFlight;
  }

  lemma StepUnread(s: Session, e: Event)
    requires Inv(s) && Unread(s) && Enabled(s, e)
    ensures Unread(Apply(s, e))
  {
    hide Unread, Apply, C.Apply, W.Inv, Linked, Reached, DoneOnce, C.Books, C.Control;
    match e
    case Local(ce) => LocalUnread(s, ce);
    case Number(ce) =>
      ReadWithin(s);
      NumberUnread(s, ce);
    case Server(we) => ServerUnread(s, we);
    case _ => OtherUnread(s, e);
  }

  lemma {:induction false} RunUnread(es: seq<Event>)
    requires Valid(es)
    ensures Unread(Run(es))
  {
    hide Inv, Apply;
    if es != [] {
      RunUnread(es[..|es| - 1]);
      RunInv(es[..|es| - 1]);
      StepUnread(Run(es[..|es| - 1]), es[|es| - 1]);
    }
  }

  /** On a connection the messages of a batch count as read exactly when the server has read as many batches. */
  lemma BatchReadIff(es: seq<Event>, n: nat, id: Id)
    requires Valid(es) && Run(es).client.connected && 1 <= n <= |Run(es).client.batches|
    requires id in Run(es).client.batches[n - 1]
    ensures id in Run(es).reached <==> n <= Run(es).wire.read
  {
    hide Valid, Run, C.Books, C.Control, W.Inv;
    RunInv(es);
    RunUnread(es);
    var s := Run(es);
    assert InBatch(s.client.batches, n, id);
    assert BatchOf(s.client.batches, n) == s.client.batches[n - 1];
  }

  // ---------------------------------------------------------------- a run

  lemma Start() returns (es: seq<Event>, s: Session)
    ensures Valid(es) && Run(es) == s == Init()
  {
    es, s := [], Init();
  }

  lemma Step(es: seq<Event>, s: Session, e: Event) returns (es': seq<Event>, s': Session)
    requires Valid(es) && Run(es) == s && Enabled(s, e)
    ensures Valid(es') && Run(es') == s' == Apply(s, e)
  {
    hide Apply, Enabled;
    es', s' := es + [e], Apply(s, e);
    assert es'[..|es'| - 1] == es;
  }

  /** The client connects and takes a message. */
  lemma Opened() returns (es: seq<Event>, s: Session)
    ensures Valid(es) && Run(es) == s
    ensures s.client.connected && s.client.reader == C.Reading && s.client.writer == C.Grouping
    ensures s.client.rcnt == 1 && s.client.wcnt == 1 && !s.client.seenDone && !s.client.serverDone
    ensures s.client.group == [0] && s.client.pending == map[] && s.client.batches == [] && s.client.acked == []
    ensures s.wire == W.Init() && !s.doneSent && s.donesInFlight == 0
  {
    hide Valid, Run, Move;
    es, s := Start();
    es, s := Step(es, s, Connect);
    assert s.client.group == [] && s.client.acked == [];
    es, s := Step(es, s, Local(C.GroupTake));
  }

  /** ... writes it as batch 1. */
  lemma Sent() returns (es: seq<Event>, s: Session)
    ensures Valid(es) && Run(es) == s
    ensures s.client.connected && s.client.reader == C.Reading && s.client.rcnt == 1
    ensures !s.client.seenDone && !s.client.serverDone
    ensures s.client.pending == map[1 := [0]] && s.client.batches == [[0]] && s.client.acked == []
    ensures s.wire == W.Init().(stored := 1, toServer := [1]) && !s.doneSent && s.donesInFlight == 0
  {
    hide Valid, Run, Move;
    es, s := Opened();
    es, s := Step(es, s, Number(C.Record));
    assert s.wire == W.Init().(stored := 1, unwritten := 1);
    es, s := Step(es, s, WriteOk);
  }

  /** The server reads it and a worker takes it. */
  lemma Read() returns (es: seq<Event>, s: Session)
    ensures Valid(es) && Run(es) == s
    ensures s.client.connected && s.client.reader == C.Reading && s.client.rcnt == 1
    ensures !s.client.seenDone && !s.client.serverDone && s.client.pending == map[1 := [0]] && s.client.acked == []
    ensures s.wire == W.Init().(stored := 1, read := 1, running := map[1 := 1])
    ensures 0 in s.reached && !s.doneSent && s.donesInFlight == 0
  {
    hide Valid, Run, Move, C.Apply;
    es, s := Sent();
    es, s := Step(es, s, Server(W.Read));
    assert s.wire == W.Init().(stored := 1, read := 1, queue := [1], waiting := {1}) && 0 in s.reached;
    es, s := Step(es, s, Server(W.Start(1)));
    assert s.wire.waiting == {} && s.wire.queue == [];
  }

  /** The worker processes it and sends its ack. */
  lemma Answered() returns (es: seq<Event>, s: Session)
    ensures Valid(es) && Run(es) == s
    ensures s.client.connected && s.client.reader == C.Reading && s.client.rcnt == 1
    ensures !s.client.seenDone && !s.client.serverDone && s.client.pending == map[1 := [0]] && s.client.acked == []
    ensures s.wire.recv == 0 && |s.wire.acks| == 1 && 0 in s.reached && !s.doneSent && s.donesInFlight == 0
  {
    hide Valid, Run, Move, C.Apply;
    es, s := Read();
    es, s := Step(es, s, Server(W.FinishOk(1)));
    assert s.wire.ready == map[1 := 1] && s.wire.acks == [] && s.wire.recv == 0;
    es, s := Step(es, s, Server(W.Send(1)));
  }

  /** The client receives the ack and acks the message. */
  lemma Acknowledged() returns (es: seq<Event>, s: Session)
    ensures Valid(es) && Run(es) == s && s.client.connected && s.client.reader == C.Reading
    ensures s.client.acked == [0] && 0 in s.reached && !s.client.serverDone && !s.doneSent && s.donesInFlight == 0
  {
    hide Valid, Run, Move;
    es, s := Answered();
    es, s := Step(es, s, RecvAck);
    assert s.client.hand == [0] && s.client.reader == C.Acking(false);
    hide W.Apply, W.Enabled;
    es, s := Step(es, s, Local(C.AckOne));
    es, s := Step(es, s, Local(C.AckEnd));
  }

  /** A message can be taken, written, read and processed by the server and acked, and then DoneSending arrive. */
  lemma EndToEnd()
    ensures exists es :: Valid(es) && Run(es).client.acked == [0] && 0 in Run(es).reached && Run(es).client.serverDone
  {
    hide Valid, Run, Move, W.Apply, W.Enabled;
    var es, s := Acknowledged();
    es, s := Step(es, s, SendDone);
    es, s := Step(es, s, RecvDone);
    assert s.client.acked == [0] && s.client.serverDone;
  }
}
