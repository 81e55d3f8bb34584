/** The client side of a streaming connection, fleetspeak/src/client/https/streaming.go: the messages
    taken by `connect`, `groupMessages` and `writeLoop`, acknowledged by `readLoop` and given back by the
    teardown in `connectLoop`.

    The goroutines interleave freely. What arrives from the server is arbitrary, except that DoneSending comes
    at most once in a connection: a second one would make readLoop panic. Fleetspeak's server sends only one,
    which `StreamSession` shows.
 */
module StreamClient {
  import opened Ledger
  import opened Thresholds
  import opened Sequences

  /** Where a MessageInfo can be. */
  datatype Place =
    | ToSend          // gathered by connect
    | Group           // gathered by groupMessages, not yet recorded by writeLoop
    | Batch(i: nat)   // in pending[i]
    | InHand          // removed from pending by readLoop, which is about to ack it
    | Acked
    | Nacked

  datatype Writer =
    | Grouping        // in groupMessages
    | Writing         // recorded the group in pending, has to write it
    | Stepped         // closed writingDone and waits for the connection to end
    | WriterGone

  datatype Reader =
    | Reading
    | AwaitWriter     // saw DoneSending, waits for writingDone or the end of the connection
    | Acking(last: bool) // acks the messages in hand; `last` if it returns afterwards
    | ReaderGone

  datatype Client = Client(
    connected: bool,                // the read and write loops have been started and not yet torn down
    toSend: seq<Id>,
    group: seq<Id>,
    pending: map<nat, seq<Id>>,
    wcnt: nat,                      // `cnt` of writeLoop
    rcnt: nat,                      // `cnt` of readLoop
    hand: seq<Id>,
    writer: Writer,
    reader: Reader,
    serverDone: bool,
    seenDone: bool,                 // `writingDone` of readLoop
    canceled: bool,                 // the connection's context has ended
    clean: bool,                    // history: readLoop returned after seeing writingDone with nothing pending
    taken: nat,                     // history: number of messages taken from the Outbox
    acked: seq<Id>,                 // history: Ack calls
    nacked: seq<Id>,                // history: Nack calls
    batches: seq<seq<Id>>,          // history: what was recorded as batch 1, 2, ... of this connection
    ledger: map<Id, Place>)         // history: where every message taken is


  datatype Event =
    | ConnectTake      // connect takes a message for the initial exchange
    | ConnectFail      // the initial exchange fails
    | ConnectOk        // the initial exchange succeeds and the loops are started
    | GroupTake        // writeLoop takes a message
    | Beacon           // writeLoop is woken up with nothing to send
    | Record           // writeLoop records its group as the next batch
    | Write            // ... and writes it
    | WriterStop       // groupMessages returns because of serverDone or the end of the connection
    | WriterFail       // writeLoop returns without having written the batch
    | WriterExit       // a stepped writeLoop returns
    | Cancel           // the connection ends: deadline, Reset, Stop
    | RecvAck          // readLoop reads a record with an AckIndex
    | AckOne
    | AckEnd
    | RecvDone         // readLoop reads a record with DoneSending
    | AwaitCanceled
    | AwaitDone
    | ReadFail         // readLoop returns because of a read error
    | NackBatch(i: nat) // teardown
    | Disconnect

  predicate WritingDone(c: Client) {
    c.writer == Stepped || c.writer == WriterGone
  }

  predicate LoopsGone(c: Client) {
    c.connected && c.writer == WriterGone && c.reader == ReaderGone
  }

  predicate Enabled(c: Client, e: Event) {
    match e
    case ConnectTake => !c.connected && |c.toSend| < SEND_COUNT_THRESHOLD
    case ConnectFail => !c.connected
    case ConnectOk => !c.connected
    case GroupTake => c.connected && c.writer == Grouping && |c.group| < SEND_COUNT_THRESHOLD
    case Beacon => c.connected && c.writer == Grouping && c.group == []
    case Record => c.connected && c.writer == Grouping && c.group != []
    case Write => c.connected && c.writer == Writing
    case WriterStop => c.connected && c.writer == Grouping && c.group == [] && (c.serverDone || c.canceled)
    case WriterFail => c.connected && c.writer == Writing
    case WriterExit => c.connected && c.writer == Stepped && c.canceled
    case Cancel => c.connected
    case RecvAck => c.connected && c.reader == Reading
    case AckOne => c.connected && c.reader.Acking? && c.hand != []
    case AckEnd => c.connected && c.reader.Acking? && c.hand == []
    case RecvDone => c.connected && c.reader == Reading && !c.serverDone
    case AwaitCanceled => c.connected && c.reader == AwaitWriter && c.canceled
    case AwaitDone => c.connected && c.reader == AwaitWriter && WritingDone(c)
    case ReadFail => c.connected && c.reader == Reading
    case NackBatch(i) => LoopsGone(c) && i in c.pending
    case Disconnect => LoopsGone(c) && c.pending == map[]
  }

  function Ready(c: Client): seq<Id> {
    if c.rcnt in c.pending then c.pending[c.rcnt] else []
  }

  function Apply(c: Client, e: Event): Client
    requires Enabled(c, e)
  {
    match e
    case ConnectTake =>
      c.(toSend := c.toSend + [c.taken], taken := c.taken + 1, ledger := c.ledger[c.taken := ToSend])
    case ConnectFail =>
      c.(toSend := [], nacked := c.nacked + c.toSend, ledger := Move(c.ledger, c.toSend, Nacked))
    case ConnectOk =>
      c.(toSend := [], acked := c.acked + c.toSend, ledger := Move(c.ledger, c.toSend, Acked),
         connected := true, wcnt := 1, rcnt := 1, writer := Grouping, reader := Reading,
         serverDone := false, seenDone := false, canceled := false, clean := false, batches := [])
    case GroupTake =>
      c.(group := c.group + [c.taken], taken := c.taken + 1, ledger := c.ledger[c.taken := Group])
    case Beacon => c.(batches := c.batches + [[]], wcnt := c.wcnt + 1, writer := Writing)
    case Record =>
      c.(pending := c.pending[c.wcnt := c.group], group := [], batches := c.batches + [c.group],
         wcnt := c.wcnt + 1, writer := Writing, ledger := Move(c.ledger, c.group, Batch(c.wcnt)))
    case Write => c.(writer := Grouping)
    case WriterStop => c.(writer := if c.canceled then WriterGone else Stepped)
    case WriterFail => c.(writer := WriterGone, canceled := true)
    case WriterExit => c.(writer := WriterGone)
    case Cancel => c.(canceled := true)
    case RecvAck =>
      var rest := c.pending - {c.rcnt};
      c.(hand := Ready(c), pending := rest, rcnt := c.rcnt + 1, reader := Acking(c.seenDone && rest == map[]),
         ledger := Move(c.ledger, Ready(c), InHand))
    case AckOne =>
      c.(hand := c.hand[1..], acked := c.acked + [c.hand[0]], ledger := Move(c.ledger, [c.hand[0]], Acked))
    case AckEnd =>
      if c.reader.last then c.(reader := ReaderGone, clean := true, canceled := true) else c.(reader := Reading)
    case RecvDone => c.(serverDone := true, reader := AwaitWriter)
    case AwaitCanceled => c.(reader := ReaderGone)
    case AwaitDone =>
      if c.pending == map[] then c.(seenDone := true, reader := ReaderGone, clean := true, canceled := true)
      else c.(seenDone := true, reader := Reading)
    case ReadFail => c.(reader := ReaderGone, canceled := true)
    case NackBatch(i) =>
      c.(pending := c.pending - {i}, nacked := c.nacked + c.pending[i], ledger := Move(c.ledger, c.pending[i], Nacked))
    case Disconnect => c.(connected := false)
  }

  function Init(): Client {
    Client(false, [], [], map[], 1, 1, [], WriterGone, ReaderGone, false, false, false, false, 0, [], [], [], map[])
  }

  ghost predicate Valid(es: seq<Event>)
    decreases |es|, 0
  {
    es == [] || (Valid(es[..|es| - 1]) && Enabled(Run(es[..|es| - 1]), es[|es| - 1]))
  }

  ghost function Run(es: seq<Event>): Client
    requires Valid(es)
    decreases |es|, 1
  {
    if es == [] then Init() else Apply(Run(es[..|es| - 1]), es[|es| - 1])
  }

  // ---------------------------------------------------------------- the books

  ghost predicate PendingAt(ledger: map<Id, Place>, pending: map<nat, seq<Id>>) {
    && (forall i <- pending :: At(ledger, pending[i], Batch(i)))
    && (forall id <- ledger :: ledger[id].Batch? ==> ledger[id].i in pending)
  }

  ghost predicate Books(c: Client) {
    && Numbered(c.ledger, c.taken)
    && At(c.ledger, c.toSend, ToSend)
    && At(c.ledger, c.group, Group)
    && At(c.ledger, c.hand, InHand)
    && At(c.ledger, c.acked, Acked)
    && At(c.ledger, c.nacked, Nacked)
    && PendingAt(c.ledger, c.pending)
  }

  ghost predicate Control(c: Client) {
    && (if c.connected then c.toSend == [] else c.group == [] && c.hand == [] && c.pending == map[])
    && (c.writer != Grouping ==> c.group == [])
    && (!c.reader.Acking? ==> c.hand == [])
    && (forall i <- c.pending :: i < c.wcnt)
    && (c.connected && c.seenDone ==> WritingDone(c))
    && (c.connected && c.reader.Acking? && c.reader.last ==> c.seenDone && c.pending == map[])
    && (c.connected && c.clean ==> c.reader == ReaderGone && WritingDone(c) && c.pending == map[])
    && |c.toSend| <= SEND_COUNT_THRESHOLD && |c.group| <= SEND_COUNT_THRESHOLD
    && (forall b <- c.batches :: |b| <= SEND_COUNT_THRESHOLD)
  }

  lemma KeepPending(ledger: map<Id, Place>, pending: map<nat, seq<Id>>, l: seq<Id>, p: Place, q: Place)
    requires PendingAt(ledger, pending) && !p.Batch? && !q.Batch?
    requires forall id <- l :: id in ledger && ledger[id] == p
    ensures PendingAt(Move(ledger, l, q), pending)
  {
    forall i <- pending
      ensures At(Move(ledger, l, q), pending[i], Batch(i))
    {
      MoveOther(ledger, l, pending[i], p, q, Batch(i));
    }
  }

  lemma TakePending(ledger: map<Id, Place>, pending: map<nat, seq<Id>>, taken: nat, p: Place)
    requires PendingAt(ledger, pending) && Numbered(ledger, taken) && !p.Batch?
    ensures PendingAt(ledger[taken := p], pending)
  {
    forall i <- pending
      ensures At(ledger[taken := p], pending[i], Batch(i))
    {
      TakeOther(ledger, taken, pending[i], p, Batch(i));
    }
  }

  lemma PopPending(ledger: map<Id, Place>, pending: map<nat, seq<Id>>, i: nat, q: Place)
    requires PendingAt(ledger, pending) && i in pending && !q.Batch?
    ensures PendingAt(Move(ledger, pending[i], q), pending - {i})
  {
    Here(ledger, pending[i], Batch(i));
    forall j <- pending - {i}
      ensures At(Move(ledger, pending[i], q), pending[j], Batch(j))
    {
      MoveOther(ledger, pending[i], pending[j], Batch(i), q, Batch(j));
    }
  }

  lemma PushPending(ledger: map<Id, Place>, pending: map<nat, seq<Id>>, i: nat, l: seq<Id>, p: Place)
    requires PendingAt(ledger, pending) && i !in pending && At(ledger, l, p) && !p.Batch?
    ensures PendingAt(Move(ledger, l, Batch(i)), pending[i := l])
  {
    Here(ledger, l, p);
    assert At(ledger, [], Batch(i));
    MoveIn(ledger, l, [], p, Batch(i));
    assert [] + l == l;
    forall j <- pending
      ensures At(Move(ledger, l, Batch(i)), pending[j], Batch(j))
    {
      MoveOther(ledger, l, pending[j], p, Batch(i), Batch(j));
    }
  }

  /** The effect on the books of moving the messages `l` from `p` to `q`, both outside pending. */
  lemma MoveBooks(c: Client, l: seq<Id>, p: Place, q: Place)
    requires Books(c) && NoDup(l) && (forall id <- l :: id in c.ledger && c.ledger[id] == p)
    requires p != q
    ensures var m := Move(c.ledger, l, q);
            && Numbered(m, c.taken)
            && (p != ToSend && q != ToSend ==> At(m, c.toSend, ToSend))
            && (p != Group && q != Group ==> At(m, c.group, Group))
            && (p != InHand && q != InHand ==> At(m, c.hand, InHand))
            && (p != Acked ==> At(m, if q == Acked then c.acked + l else c.acked, Acked))
            && (p != Nacked ==> At(m, if q == Nacked then c.nacked + l else c.nacked, Nacked))
            && (!p.Batch? && !q.Batch? ==> PendingAt(m, c.pending))
  {
    hide At, Move, Numbered, PendingAt;
    MoveNumbered(c.ledger, l, q, c.taken);
    if p != ToSend && q != ToSend { MoveOther(c.ledger, l, c.toSend, p, q, ToSend); }
    if p != Group && q != Group { MoveOther(c.ledger, l, c.group, p, q, Group); }
    if p != InHand && q != InHand { MoveOther(c.ledger, l, c.hand, p, q, InHand); }
    if q == Acked {
      MoveIn(c.ledger, l, c.acked, p, q);
    } else if p != Acked {
      MoveOther(c.ledger, l, c.acked, p, q, Acked);
    }
    if q == Nacked {
      MoveIn(c.ledger, l, c.nacked, p, q);
    } else if p != Nacked {
      MoveOther(c.ledger, l, c.nacked, p, q, Nacked);
    }
    if !p.Batch? && !q.Batch? { KeepPending(c.ledger, c.pending, l, p, q); }
  }

  lemma TakeBooks(c: Client, p: Place)
    requires Books(c) && (p == ToSend || p == Group)
    ensures var m := c.ledger[c.taken := p];
            && Numbered(m, c.taken + 1)
            && At(m, if p == ToSend then c.toSend + [c.taken] else c.toSend, ToSend)
            && At(m, if p == Group then c.group + [c.taken] else c.group, Group)
            && At(m, c.hand, InHand) && At(m, c.acked, Acked) && At(m, c.nacked, Nacked)
            && PendingAt(m, c.pending)
  {
    hide At, Numbered, PendingAt;
    if p == ToSend {
      TakeIn(c.ledger, c.taken, c.toSend, p);
      TakeOther(c.ledger, c.taken, c.group, p, Group);
    } else {
      TakeIn(c.ledger, c.taken, c.group, p);
      TakeOther(c.ledger, c.taken, c.toSend, p, ToSend);
    }
    TakeOther(c.ledger, c.taken, c.hand, p, InHand);
    TakeOther(c.ledger, c.taken, c.acked, p, Acked);
    TakeOther(c.ledger, c.taken, c.nacked, p, Nacked);
    TakePending(c.ledger, c.pending, c.taken, p);
  }

  lemma ConnectBooks(c: Client, e: Event)
    requires Books(c) && Enabled(c, e) && (e.ConnectFail? || e.ConnectOk?)
    ensures Books(Apply(c, e))
  {
    var q := if e.ConnectOk? then Acked else Nacked;
    Here(c.ledger, c.toSend, ToSend);
    MoveBooks(c, c.toSend, ToSend, q);
    MoveAll(c.ledger, c.toSend, ToSend, q);
  }

  lemma RecordBooks(c: Client)
    requires Books(c) && Control(c) && Enabled(c, Record)
    ensures Books(Apply(c, Record))
  {
    Here(c.ledger, c.group, Group);
    MoveBooks(c, c.group, Group, Batch(c.wcnt));
    MoveAll(c.ledger, c.group, Group, Batch(c.wcnt));
    PushPending(c.ledger, c.pending, c.wcnt, c.group, Group);
  }

  lemma RecvAckBooks(c: Client)
    requires Books(c) && Control(c) && Enabled(c, RecvAck)
    ensures Books(Apply(c, RecvAck))
  {
    var l := Ready(c);
    if c.rcnt in c.pending {
      Here(c.ledger, l, Batch(c.rcnt));
      MoveBooks(c, l, Batch(c.rcnt), InHand);
      MoveIn(c.ledger, l, c.hand, Batch(c.rcnt), InHand);
      assert c.hand + l == l;
      PopPending(c.ledger, c.pending, c.rcnt, InHand);
    } else {
      assert Move(c.ledger, [], InHand) == c.ledger;
      assert c.pending - {c.rcnt} == c.pending;
    }
  }

  lemma AckOneBooks(c: Client)
    requires Books(c) && Enabled(c, AckOne)
    ensures Books(Apply(c, AckOne))
  {
    Here(c.ledger, c.hand, InHand);
    MoveBooks(c, [c.hand[0]], InHand, Acked);
    MoveFirst(c.ledger, c.hand, InHand, Acked);
  }

  lemma NackBatchBooks(c: Client, i: nat)
    requires Books(c) && Enabled(c, NackBatch(i))
    ensures Books(Apply(c, NackBatch(i)))
  {
    Here(c.ledger, c.pending[i], Batch(i));
    MoveBooks(c, c.pending[i], Batch(i), Nacked);
    PopPending(c.ledger, c.pending, i, Nacked);
  }

  lemma StepBooks(c: Client, e: Event)
    requires Books(c) && Control(c) && Enabled(c, e)
    ensures Books(Apply(c, e))
  {
    match e
    case ConnectTake => TakeBooks(c, ToSend);
    case GroupTake => TakeBooks(c, Group);
    case ConnectFail => ConnectBooks(c, e);
    case ConnectOk => ConnectBooks(c, e);
    case Record => RecordBooks(c);
    case RecvAck => RecvAckBooks(c);
    case AckOne => AckOneBooks(c);
    case NackBatch(i) => NackBatchBooks(c, i);
    case _ =>
  }

  /** What receiving an ack changes, and what it does not. */
  lemma Pops(c: Client)
    requires Enabled(c, RecvAck)
    ensures var d := Apply(c, RecvAck);
            && d.hand == Ready(c) && d.pending == c.pending - {c.rcnt} && d.rcnt == c.rcnt + 1
            && d.reader == Acking(c.seenDone && d.pending == map[])
            && d.connected && d.group == c.group && d.wcnt == c.wcnt && d.seenDone == c.seenDone
            && d.acked == c.acked && d.nacked == c.nacked && d.taken == c.taken
            && d.writer == c.writer && d.serverDone == c.serverDone && d.batches == c.batches
  {
    hide Move;
  }

  predicate ReaderEvent(e: Event) {
    e.RecvAck? || e.AckOne? || e.AckEnd? || e.RecvDone? || e.AwaitCanceled? || e.AwaitDone? || e.ReadFail?
  }

  lemma ReaderControl(c: Client, e: Event)
    requires Control(c) && Enabled(c, e) && ReaderEvent(e)
    ensures Control(Apply(c, e))
  {
    hide Move;
    if e.RecvAck? {
      RecvAckControl(c);
    } else if e.AckOne? || e.AckEnd? {
      AckingControl(c, e);
    }
  }

  lemma RecvAckControl(c: Client)
    requires Control(c) && Enabled(c, RecvAck)
    ensures Control(Apply(c, RecvAck))
  {
    hide Move, Ready;
  }

  lemma AckingControl(c: Client, e: Event)
    requires Control(c) && Enabled(c, e) && (e.AckOne? || e.AckEnd?)
    ensures Control(Apply(c, e))
  {
    hide Move;
  }

  lemma BatchControl(c: Client, e: Event)
    requires Control(c) && Enabled(c, e) && (e.Beacon? || e.Record? || e.NackBatch? || e.ConnectOk?)
    ensures Control(Apply(c, e))
  {
  }

  lemma StepControl(c: Client, e: Event)
    requires Control(c) && Enabled(c, e)
    ensures Control(Apply(c, e))
  {
    if ReaderEvent(e) {
      ReaderControl(c, e);
    } else if e.Beacon? || e.Record? || e.NackBatch? || e.ConnectOk? {
      BatchControl(c, e);
    }
  }

  lemma {:induction false} RunInv(es: seq<Event>)
    requires Valid(es)
    ensures Books(Run(es)) && Control(Run(es))
  {
    if es != [] {
      RunInv(es[..|es| - 1]);
      StepBooks(Run(es[..|es| - 1]), es[|es| - 1]);
      StepControl(Run(es[..|es| - 1]), es[|es| - 1]);
    }
  }

  // ---------------------------------------------------------------- main results

  ghost predicate HeldSomewhere(c: Client, id: Id) {
    id in c.toSend || id in c.group || id in c.hand || exists i :: i in c.pending && id in c.pending[i]
  }

  lemma HeldOrSettled(c: Client, id: Id)
    requires Books(c) && id < c.taken
    ensures HeldSomewhere(c, id) <==> id !in c.acked && id !in c.nacked
    ensures !(id in c.acked && id in c.nacked)
  {
    var p := c.ledger[id];
    if p.Batch? {
      assert At(c.ledger, c.pending[p.i], Batch(p.i));
      assert id in c.pending[p.i];
    }
  }

  function Calls(c: Client, id: Id): nat {
    Occurrences(c.acked, id) + Occurrences(c.nacked, id)
  }

  /** In every reachable state a message that was taken is either held somewhere and neither Ack nor Nack
      has been called, or exactly one of them has been called, once; and between connections, when
      nothing is held, that is so for all messages. */
  lemma ExactlyOnce(es: seq<Event>, id: Id)
    requires Valid(es) && id < Run(es).taken
    ensures var c := Run(es);
            && Calls(c, id) == (if HeldSomewhere(c, id) then 0 else 1)
            && (!c.connected && c.toSend == [] ==> Calls(c, id) == 1)
  {
    RunInv(es);
    var c := Run(es);
    HeldOrSettled(c, id);
    assert NoDup(c.acked) && NoDup(c.nacked);
    OccursOnce(c.acked, id);
    OccursOnce(c.nacked, id);
  }

  /** When readLoop has returned because writeLoop was done and nothing was pending, there is nothing
      left to nack: the teardown only disconnects, and every message has been settled. */
  lemma CleanShutdown(es: seq<Event>, id: Id)
    requires Valid(es) && Run(es).connected && Run(es).clean
    ensures var c := Run(es);
            && (forall i :: !Enabled(c, NackBatch(i)))
            && (id < c.taken ==> id in c.acked || id in c.nacked)
  {
    RunInv(es);
    if id < Run(es).taken {
      HeldOrSettled(Run(es), id);
    }
  }

  /** No batch exceeds the number of messages that the server accepts in one contact. */
  lemma BatchesFit(es: seq<Event>)
    requires Valid(es)
    ensures forall b <- Run(es).batches :: |b| <= SEND_COUNT_THRESHOLD
  {
    RunInv(es);
  }

  // ---------------------------------------------------------------- orderly shutdown

  /** Nothing goes wrong: no failed exchange, read or write, and nobody ends the connection. */
  predicate Calm(e: Event) {
    !e.ConnectFail? && !e.Cancel? && !e.ReadFail? && !e.WriterFail?
  }

  ghost predicate CalmInv(c: Client) {
    && c.nacked == []
    && (c.connected ==>
          && (c.canceled ==> c.clean)
          && (c.reader == ReaderGone ==> c.clean)
          && (c.writer == WriterGone ==> c.canceled)
          && (c.clean ==> c.seenDone)
          && (c.seenDone && c.pending == map[] ==> c.reader == ReaderGone || c.reader == Acking(true)))
  }

  lemma CalmReader(c: Client, e: Event)
    requires Control(c) && CalmInv(c) && Enabled(c, e) && Calm(e) && ReaderEvent(e)
    ensures CalmInv(Apply(c, e))
  {
    hide Move, Ready;
  }

  lemma CalmOther(c: Client, e: Event)
    requires Control(c) && CalmInv(c) && Enabled(c, e) && Calm(e) && !ReaderEvent(e)
    ensures CalmInv(Apply(c, e))
  {
    hide Move, Ready;
  }

  lemma {:induction false} CalmRun(es: seq<Event>)
    requires Valid(es) && forall e <- es :: Calm(e)
    ensures CalmInv(Run(es))
  {
    hide Control, CalmInv, Books, Apply, Init;
    if es == [] {
      CalmInit();
    } else {
      var e := es[|es| - 1];
      assert Calm(e);
      CalmRun(es[..|es| - 1]);
      RunInv(es[..|es| - 1]);
      if ReaderEvent(e) {
        CalmReader(Run(es[..|es| - 1]), e);
      } else {
        CalmOther(Run(es[..|es| - 1]), e);
      }
    }
  }

  lemma CalmInit()
    ensures CalmInv(Init())
  {
  }

  /** As long as nothing goes wrong no message is given back, and readLoop returns exactly when writeLoop is done
      and every batch has been acked: having seen DoneSending it reads on while anything is pending. */
  lemma OrderlyShutdown(es: seq<Event>)
    requires Valid(es) && forall e <- es :: Calm(e)
    ensures var c := Run(es);
            && c.nacked == []
            && (c.connected && c.reader == ReaderGone ==> c.seenDone && c.pending == map[])
            && (c.connected && c.seenDone ==>
                  (c.reader == ReaderGone || c.reader == Acking(true) <==> c.pending == map[]))
  {
    hide Valid, Run, Books;
    CalmRun(es);
    RunInv(es);
  }

  /** A loop that returns ends the connection for the other one. */
  ghost predicate Together(c: Client) {
    c.connected && (c.reader == ReaderGone || c.writer == WriterGone) ==> c.canceled
  }

  lemma StepTogether(c: Client, e: Event)
    requires Control(c) && Together(c) && Enabled(c, e)
    ensures Together(Apply(c, e))
  {
    hide Move, Ready;
  }

  lemma {:induction false} RunTogether(es: seq<Event>)
    requires Valid(es)
    ensures Together(Run(es))
  {
    hide Control, Books, Apply;
    if es != [] {
      RunTogether(es[..|es| - 1]);
      RunInv(es[..|es| - 1]);
      StepTogether(Run(es[..|es| - 1]), es[|es| - 1]);
    }
  }

  /** When one of the loops has returned, the other one, if it waits for something else than the network, can return
      too, without waiting for the server. */
  lemma BothReturn(es: seq<Event>)
    requires Valid(es) && Run(es).connected && (Run(es).reader == ReaderGone || Run(es).writer == WriterGone)
    ensures var c := Run(es);
            && c.canceled
            && (c.writer == Stepped ==> Enabled(c, WriterExit))
            && (c.writer == Grouping && c.group == [] ==>
                  Enabled(c, WriterStop) && Apply(c, WriterStop).writer == WriterGone)
            && (c.reader == AwaitWriter ==> Enabled(c, AwaitCanceled))
  {
    hide Valid, Run;
    RunTogether(es);
  }

  // ---------------------------------------------------------------- progress is always possible

  /** The run `es` can go on to the state `t`. */
  ghost predicate Leads(es: seq<Event>, t: Client) {
    exists more: seq<Event> :: Valid(es + more) && Run(es + more) == t
  }

  lemma LeadsNow(es: seq<Event>)
    requires Valid(es)
    ensures Leads(es, Run(es))
  {
    assert es + [] == es;
    assert Valid(es + []) && Run(es + []) == Run(es);
  }

  lemma LeadsOn(es: seq<Event>, s: Client, e: Event) returns (t: Client)
    requires Leads(es, s) && Enabled(s, e)
    ensures t == Apply(s, e) && Leads(es, t)
  {
    hide Apply, Enabled;
    var more :| Valid(es + more) && Run(es + more) == s;
    var all := es + (more + [e]);
    assert all[..|all| - 1] == es + more && all[|all| - 1] == e;
    t := Apply(s, e);
    assert Valid(all) && Run(all) == t;
  }

  lemma LeadsInv(es: seq<Event>, t: Client)
    requires Leads(es, t)
    ensures Books(t) && Control(t)
  {
    var more :| Valid(es + more) && Run(es + more) == t;
    RunInv(es + more);
  }

  /** readLoop can finish acking the messages in hand. */
  lemma {:induction false} HandAcked(es: seq<Event>, s: Client) returns (t: Client)
    requires Leads(es, s) && s.connected && s.reader.Acking?
    ensures Leads(es, t) && t == s.(hand := [], acked := s.acked + s.hand, ledger := t.ledger)
    decreases |s.hand|
  {
    hide Leads, Move;
    if s.hand == [] {
      t := s;
      assert s.acked + s.hand == s.acked;
    } else {
      t := LeadsOn(es, s, AckOne);
      assert t == s.(hand := s.hand[1..], acked := s.acked + [s.hand[0]], ledger := t.ledger);
      t := HandAcked(es, t);
      assert s.acked + [s.hand[0]] + s.hand[1..] == s.acked + s.hand;
    }
  }

  /** readLoop can return. */
  lemma ReaderOut(es: seq<Event>, s: Client) returns (t: Client)
    requires Leads(es, s) && s.connected && s.canceled
    ensures Leads(es, t) && t.connected && t.canceled && t.reader == ReaderGone
    ensures t.writer == s.writer && t.group == s.group
  {
    hide Leads, Move, Ready;
    t := s;
    if t.reader.Acking? {
      t := HandAcked(es, t);
      t := LeadsOn(es, t, AckEnd);
    }
    if t.reader == Reading {
      t := LeadsOn(es, t, ReadFail);
    } else if t.reader == AwaitWriter {
      t := LeadsOn(es, t, AwaitCanceled);
    }
  }

  /** writeLoop can return. */
  lemma WriterOut(es: seq<Event>, s: Client) returns (t: Client)
    requires Leads(es, s) && s.connected && s.canceled && s.reader == ReaderGone
    ensures Leads(es, t) && LoopsGone(t)
  {
    hide Leads, Move, Ready;
    t := s;
    if t.writer == Grouping && t.group != [] {
      t := LeadsOn(es, t, Record);
    }
    if t.writer == Writing {
      t := LeadsOn(es, t, WriterFail);
    } else if t.writer == Grouping {
      t := LeadsOn(es, t, WriterStop);
    } else if t.writer == Stepped {
      t := LeadsOn(es, t, WriterExit);
    }
  }

  /** The teardown can finish. */
  lemma {:induction false} TornDown(es: seq<Event>, s: Client) returns (t: Client)
    requires Leads(es, s) && LoopsGone(s)
    ensures Leads(es, t) && !t.connected
    decreases |s.pending|
  {
    hide Leads, Move, Ready;
    if s.pending == map[] {
      t := LeadsOn(es, s, Disconnect);
    } else {
      var i :| i in s.pending;
      t := LeadsOn(es, s, NackBatch(i));
      assert t.pending == s.pending - {i} && LoopsGone(t);
      t := TornDown(es, t);
    }
  }

  /** From every reachable state the connection can end, with every message taken settled. */
  lemma Disconnected(es: seq<Event>) returns (t: Client)
    requires Valid(es)
    ensures Leads(es, t) && !t.connected && t.toSend == [] && Books(t) && Control(t)
  {
    hide Leads, Valid, Run, Books, Control, Move, Ready;
    LeadsNow(es);
    t := Run(es);
    if t.connected {
      t := LeadsOn(es, t, Cancel);
      t := ReaderOut(es, t);
      t := WriterOut(es, t);
      t := TornDown(es, t);
    }
    if t.toSend != [] {
      t := LeadsOn(es, t, ConnectFail);
    }
    LeadsInv(es, t);
  }

  /** A new connection. */
  lemma Connected(es: seq<Event>, s: Client) returns (t: Client)
    requires Leads(es, s) && !s.connected && s.toSend == [] && Control(s)
    ensures Leads(es, t) && t.connected && t.writer == Grouping && t.reader == Reading && t.wcnt == 1 && t.rcnt == 1
    ensures t.toSend == [] && t.group == [] && t.hand == [] && t.pending == map[] && !t.seenDone
    ensures t.acked == s.acked && t.taken == s.taken && t.nacked == s.nacked && !t.serverDone && !t.canceled
  {
    hide Leads, Move;
    t := LeadsOn(es, s, ConnectOk);
    assert s.acked + s.toSend == s.acked;
  }

  /** A message can be taken and written as batch 1. */
  lemma Written(es: seq<Event>, s: Client) returns (t: Client)
    requires Leads(es, s) && s.connected && s.writer == Grouping && s.reader == Reading && s.wcnt == 1 && s.rcnt == 1
    requires s.toSend == [] && s.group == [] && s.hand == [] && s.pending == map[] && !s.seenDone
    ensures Leads(es, t) && t.connected && t.writer == Grouping && t.reader == Reading && t.rcnt == 1
    ensures t.toSend == [] && t.group == [] && t.hand == [] && t.pending == map[1 := [s.taken]] && !t.seenDone
    ensures t.acked == s.acked && t.taken == s.taken + 1 && t.nacked == s.nacked
    ensures t.serverDone == s.serverDone && t.canceled == s.canceled
  {
    hide Leads, Move;
    t := LeadsOn(es, s, GroupTake);
    assert t.group == [s.taken];
    t := LeadsOn(es, t, Record);
    t := LeadsOn(es, t, Write);
  }

  /** ... and be acked. */
  lemma Delivered(es: seq<Event>, s: Client) returns (t: Client)
    requires Leads(es, s) && !s.connected && s.toSend == [] && Control(s)
    ensures Leads(es, t) && t.acked == s.acked + [s.taken] && t.taken == s.taken + 1 && t.reader == Reading
    ensures t.toSend == [] && t.group == [] && t.hand == [] && t.pending == map[]
  {
    hide Leads, Move, Control;
    t := Connected(es, s);
    t := Written(es, t);
    t := LeadsOn(es, t, RecvAck);
    assert t.hand == [s.taken] && t.reader == Acking(false);
    t := HandAcked(es, t);
    t := LeadsOn(es, t, AckEnd);
  }

  /** From every reachable state, whatever went wrong so far, it can still happen that every message taken is
      settled and another one is taken, sent and acked. */
  lemma CanDeliver(es: seq<Event>)
    requires Valid(es)
    ensures exists t :: Leads(es, t) && t.taken > Run(es).taken && t.taken - 1 in t.acked && AllSettled(t)
  {
    hide Leads, Valid, Run, Books, Control, AllSettled;
    var s := Disconnected(es);
    TakenGrows(es, s);
    var t := Delivered(es, s);
    LeadsInv(es, t);
    NothingHeld(t);
    assert t.acked[|s.acked|] == s.taken;
  }

  /** With a batch under way DoneSending arrives: writeLoop steps down and readLoop reads on. */
  lemma SteppedDown(es: seq<Event>, s: Client) returns (t: Client)
    requires Leads(es, s) && s.connected && s.writer == Grouping && s.reader == Reading && !s.serverDone && !s.canceled
    requires s.group == [] && s.pending != map[]
    ensures Leads(es, t) && t == s.(serverDone := true, seenDone := true, writer := Stepped)
  {
    hide Leads, Move, Ready;
    t := LeadsOn(es, s, RecvDone);
    t := LeadsOn(es, t, WriterStop);
    t := LeadsOn(es, t, AwaitDone);
  }

  /** Its ack arrives: readLoop returns, and the connection ends with nothing given back. */
  lemma EndedCleanly(es: seq<Event>, s: Client) returns (t: Client)
    requires Leads(es, s) && s.connected && s.reader == Reading && s.writer == Stepped && s.seenDone && s.hand == []
    requires s.rcnt in s.pending && s.pending - {s.rcnt} == map[]
    ensures Leads(es, t) && !t.connected && t.clean && t.nacked == s.nacked && t.acked == s.acked + s.pending[s.rcnt]
  {
    hide Leads, Move;
    t := LeadsOn(es, s, RecvAck);
    assert t.reader == Acking(true) && t.hand == s.pending[s.rcnt];
    t := HandAcked(es, t);
    t := LeadsOn(es, t, AckEnd);
    t := LeadsOn(es, t, WriterExit);
    t := LeadsOn(es, t, Disconnect);
  }

  /** From every reachable state it can still happen that a connection is made and shut down in an orderly way:
      DoneSending arrives while a batch is under way, the batch is acked all the same, and nothing is given
      back. */
  lemma CanShutDown(es: seq<Event>)
    requires Valid(es)
    ensures exists s, t :: Leads(es, s) && !s.connected && Leads(es, t) && !t.connected && t.clean &&
                           t.nacked == s.nacked && t.acked == s.acked + [s.taken]
  {
    hide Leads, Valid, Run, Books, Control;
    var s := Disconnected(es);
    var t := Connected(es, s);
    var u := Written(es, t);
    assert 1 in u.pending;
    u := SteppedDown(es, u);
    assert u.pending - {1} == map[];
    u := EndedCleanly(es, u);
  }

  ghost predicate AllSettled(c: Client) {
    forall id: Id :: id < c.taken ==> Calls(c, id) == 1
  }

  lemma NothingHeld(c: Client)
    requires Books(c) && c.toSend == [] && c.group == [] && c.hand == [] && c.pending == map[]
    ensures AllSettled(c)
  {
    forall id: Id | id < c.taken
      ensures Calls(c, id) == 1
    {
      HeldOrSettled(c, id);
      OccursOnce(c.acked, id);
      OccursOnce(c.nacked, id);
    }
  }

  lemma TakenGrows(es: seq<Event>, t: Client)
    requires Valid(es) && Leads(es, t)
    ensures Run(es).taken <= t.taken
  {
    var more :| Valid(es + more) && Run(es + more) == t;
    TakenMore(es, more);
  }

  lemma {:induction false} TakenMore(es: seq<Event>, more: seq<Event>)
    requires Valid(es) && Valid(es + more)
    ensures Run(es).taken <= Run(es + more).taken
  {
    if more == [] {
      assert es + more == es;
    } else {
      var all := es + more;
      assert all[..|all| - 1] == es + more[..|more| - 1];
      TakenMore(es, more[..|more| - 1]);
      TakenStep(Run(all[..|all| - 1]), all[|all| - 1]);
    }
  }

  /** Only taking a message counts one. */
  lemma TakenStep(c: Client, e: Event)
    requires Enabled(c, e)
    ensures Apply(c, e).taken == c.taken + if e.ConnectTake? || e.GroupTake? then 1 else 0
  {
    hide Move;
    match e
    case ConnectTake | GroupTake =>
    case ConnectFail | ConnectOk | Beacon | Record | Write =>
    case WriterStop | WriterFail | WriterExit | Cancel =>
    case RecvAck | AckOne | AckEnd | RecvDone | AwaitCanceled | AwaitDone | ReadFail =>
    case NackBatch(_) =>
    case Disconnect =>
  }
}
