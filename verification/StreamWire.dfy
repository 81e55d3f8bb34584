/** One streaming connection seen as a pipeline of numbered batches: the client writes them in order, the
    server's `readLoop` (fleetspeak/src/server/https/streaming_message_server.go) reads and processes them
    concurrently and sends back acks, and the client's `readLoop` counts the acks.

    A worker goroutine is started for every batch read and will ack the number of that batch, but it takes
    whatever batch is first in `batchCh`; a batch whose processing fails is not acked.
 */
module StreamWire {
  import opened Ledger
  import opened Sequences

  datatype Ack = Ack(index: nat, batch: nat) // the AckIndex, and the batch whose processing caused it

  datatype Wire = Wire(
    stored: nat,               // batches numbered by the client's writeLoop
    unwritten: nat,            // 1 while the last of them has not been written yet
    lost: nat,                 // batches whose write failed
    toServer: seq<nat>,        // batches in flight
    read: nat,                 // `cnt` of the server's readLoop
    queue: seq<nat>,           // batchCh
    waiting: set<nat>,         // workers that have not taken a batch yet, by the number they will ack
    running: map<nat, nat>,    // workers with the batch they took
    processed: seq<nat>,       // history: batches processed successfully
    failed: seq<nat>,          // history: batches whose processing failed
    ready: map<nat, nat>,      // workers about to send their ack, with the batch they processed
    acks: seq<Ack>,            // history: the acks put on the out channel, in order
    recv: nat)                 // acks received by the client

  datatype Event =
    | Store            // the client numbers a batch
    | Write            // ... and writes it
    | WriteLost        // ... or fails to
    | Read             // the server reads the next batch and starts a worker for it
    | Start(w: nat)    // worker w takes a batch
    | FinishOk(w: nat)
    | FinishFail(w: nat)
    | Send(w: nat)     // worker w sends its ack
    | Recv             // the client receives the next ack

  predicate Enabled(s: Wire, e: Event) {
    match e
    case Store => s.unwritten == 0 && s.lost == 0
    case Write => s.unwritten == 1
    case WriteLost => s.unwritten == 1
    case Read => s.toServer != []
    case Start(w) => w in s.waiting && s.queue != []
    case FinishOk(w) => w in s.running
    case FinishFail(w) => w in s.running
    case Send(w) => w in s.ready
    case Recv => s.recv < |s.acks|
  }

  function Apply(s: Wire, e: Event): Wire
    requires Enabled(s, e)
  {
    match e
    case Store => s.(stored := s.stored + 1, unwritten := 1)
    case Write => s.(unwritten := 0, toServer := s.toServer + [s.stored])
    case WriteLost => s.(unwritten := 0, lost := 1)
    case Read =>
      s.(toServer := s.toServer[1..], read := s.read + 1, queue := s.queue + [s.toServer[0]],
         waiting := s.waiting + {s.read + 1})
    case Start(w) =>
      s.(waiting := s.waiting - {w}, queue := s.queue[1..], running := s.running[w := s.queue[0]])
    case FinishOk(w) =>
      s.(running := s.running - {w}, processed := s.processed + [s.running[w]], ready := s.ready[w := s.running[w]])
    case FinishFail(w) => s.(running := s.running - {w}, failed := s.failed + [s.running[w]])
    case Send(w) => s.(ready := s.ready - {w}, acks := s.acks + [Ack(w, s.ready[w])])
    case Recv => s.(recv := s.recv + 1)
  }

  function Init(): Wire {
    Wire(0, 0, 0, [], 0, [], {}, map[], [], [], map[], [], 0)
  }

  ghost predicate Valid(es: seq<Event>)
    decreases |es|, 0
  {
    es == [] || (Valid(es[..|es| - 1]) && Enabled(Run(es[..|es| - 1]), es[|es| - 1]))
  }

  ghost function Run(es: seq<Event>): Wire
    requires Valid(es)
    decreases |es|, 1
  {
    if es == [] then Init() else Apply(Run(es[..|es| - 1]), es[|es| - 1])
  }

  // ---------------------------------------------------------------- invariants

  /** The sizes of the stages add up. */
  ghost predicate Stages(s: Wire) {
    && s.stored == s.unwritten + s.lost + |s.toServer| + s.read
    && (s.unwritten == 1 ==> s.lost == 0)
    && s.read == |s.queue| + |s.running| + |s.failed| + |s.processed|
    && |s.waiting| == |s.queue|
    && |s.processed| == |s.ready| + |s.acks|
    && s.recv <= |s.acks|
  }

  /** Batches travel in order. */
  ghost predicate InFlight(s: Wire) {
    forall k :: 0 <= k < |s.toServer| ==> s.toServer[k] == s.read + 1 + k
  }

  /** Every worker has its own number and sends one ack. */
  ghost predicate Workers(s: Wire) {
    && (forall w <- s.waiting :: w <= s.read && w !in s.running && w !in s.ready)
    && (forall w <- s.running :: w <= s.read && w !in s.ready)
    && (forall w <- s.ready :: w <= s.read)
  }

  /** A worker processes batch `b`. */
  predicate Busy(running: map<nat, nat>, b: nat) {
    exists w :: w in running && running[w] == b
  }

  /** No batch is with two workers. */
  ghost predicate Own(m: map<nat, nat>) {
    forall v, w :: v in m && w in m && v != w ==> m[v] != m[w]
  }

  /** A batch that has been taken from the queue. */
  predicate Dealt(running: map<nat, nat>, processed: seq<nat>, failed: seq<nat>, b: nat) {
    Busy(running, b) || b in processed || b in failed
  }

  /** The queue holds the latest batches, and every batch before them is with one worker, or was
      processed, or failed: one of these, once. */
  ghost predicate Placed(s: Wire) {
    && |s.queue| <= s.read
    && var taken := s.read - |s.queue|;
    && (forall k :: 0 <= k < |s.queue| ==> s.queue[k] == taken + 1 + k)
    && NoDup(s.processed) && NoDup(s.failed) && Own(s.running)
    && (forall b <- s.processed :: 1 <= b <= taken && b !in s.failed)
    && (forall b <- s.failed :: 1 <= b <= taken)
    && (forall w <- s.running ::
          1 <= s.running[w] <= taken && s.running[w] !in s.processed && s.running[w] !in s.failed)
    && (forall b: nat :: 1 <= b <= taken ==> Dealt(s.running, s.processed, s.failed, b))
  }

  /** Every ack sent or about to be sent stands for a processed batch of its own. */
  ghost predicate Logged(s: Wire) {
    && Own(s.ready)
    && (forall w <- s.ready :: s.ready[w] in s.processed)
    && (forall k :: 0 <= k < |s.acks| ==> s.acks[k].batch in s.processed)
    && (forall j, k :: 0 <= j < k < |s.acks| ==> s.acks[j].batch != s.acks[k].batch)
    && (forall w, k :: w in s.ready && 0 <= k < |s.acks| ==> s.ready[w] != s.acks[k].batch)
  }

  ghost predicate Inv(s: Wire) {
    Stages(s) && InFlight(s) && Workers(s) && Placed(s) && Logged(s)
  }

  // ---------------------------------------------------------------- every step keeps them

  lemma StepInFlight(s: Wire, e: Event)
    requires InFlight(s) && Stages(s) && Enabled(s, e)
    ensures InFlight(Apply(s, e))
  {
    if e.Read? {
      var t := Apply(s, e);
      assert forall k :: 0 <= k < |t.toServer| ==> t.toServer[k] == s.toServer[k + 1];
    }
  }

  lemma StepWorkers(s: Wire, e: Event)
    requires Workers(s) && Enabled(s, e)
    ensures Workers(Apply(s, e))
  {
  }

  lemma ReadPlaced(s: Wire)
    requires Placed(s) && InFlight(s) && Enabled(s, Read)
    ensures Placed(Apply(s, Read))
  {
    hide Dealt;
    assert s.toServer[0] == s.read + 1;
  }

  lemma StartPlaced(s: Wire, w: nat)
    requires Placed(s) && Workers(s) && Enabled(s, Start(w))
    ensures Placed(Apply(s, Start(w)))
  {
    var t := Apply(s, Start(w));
    var b := s.queue[0];
    assert forall k :: 0 <= k < |t.queue| ==> t.queue[k] == s.queue[k + 1];
    assert t.running[w] == b;
    forall c: nat | 1 <= c <= t.read - |t.queue|
      ensures Dealt(t.running, t.processed, t.failed, c)
    {
      if c != b {
        assert Dealt(s.running, s.processed, s.failed, c);
        if v :| v in s.running && s.running[v] == c {
          assert t.running[v] == c;
        }
      }
    }
  }

  /** The log `l` with batch `b` appended. */
  lemma Append(l: seq<nat>, b: nat)
    requires NoDup(l) && b !in l
    ensures NoDup(l + [b])
    ensures forall c :: c in l + [b] <==> c in l || c == b
  {
  }

  lemma FinishPlaced(s: Wire, w: nat)
    requires Placed(s) && Enabled(s, FinishOk(w))
    ensures Placed(Apply(s, FinishOk(w))) && Placed(Apply(s, FinishFail(w)))
  {
    var b := s.running[w];
    Append(s.processed, b);
    Append(s.failed, b);
    hide NoDup;
    var rest := s.running - {w};
    forall c: nat | 1 <= c <= s.read - |s.queue|
      ensures Dealt(rest, s.processed + [b], s.failed, c) && Dealt(rest, s.processed, s.failed + [b], c)
    {
      assert Dealt(s.running, s.processed, s.failed, c);
      if c != b && Busy(s.running, c) {
        var v :| v in s.running && s.running[v] == c;
        assert v in rest && rest[v] == c;
      }
    }
  }

  lemma StepPlaced(s: Wire, e: Event)
    requires Placed(s) && InFlight(s) && Workers(s) && Enabled(s, e)
    ensures Placed(Apply(s, e))
  {
    match e
    case Read => ReadPlaced(s);
    case Start(w) => StartPlaced(s, w);
    case FinishOk(w) => FinishPlaced(s, w);
    case FinishFail(w) => FinishPlaced(s, w);
    case _ =>
  }

  lemma FinishLogged(s: Wire, w: nat)
    requires Logged(s) && Placed(s) && Workers(s) && Enabled(s, FinishOk(w))
    ensures Logged(Apply(s, FinishOk(w)))
  {
    var b := s.running[w];
    Append(s.processed, b);
  }

  lemma SendLogged(s: Wire, w: nat)
    requires Logged(s) && Enabled(s, Send(w))
    ensures Logged(Apply(s, Send(w)))
  {
  }

  lemma StepLogged(s: Wire, e: Event)
    requires Logged(s) && Placed(s) && Workers(s) && Enabled(s, e)
    ensures Logged(Apply(s, e))
  {
    match e
    case FinishOk(w) => FinishLogged(s, w);
    case Send(w) => SendLogged(s, w);
    case _ =>
  }

  lemma MapRemove(m: map<nat, nat>, w: nat)
    requires w in m
    ensures |m - {w}| == |m| - 1
  {
    assert (m - {w}).Keys == m.Keys - {w};
  }

  lemma MapAdd(m: map<nat, nat>, w: nat, b: nat)
    requires w !in m
    ensures |m[w := b]| == |m| + 1
  {
    assert m[w := b].Keys == m.Keys + {w};
  }

  lemma StartStages(s: Wire, w: nat)
    requires Stages(s) && Enabled(s, Start(w)) && w !in s.running
    ensures Stages(Apply(s, Start(w)))
  {
    MapAdd(s.running, w, s.queue[0]);
    assert |s.waiting - {w}| == |s.waiting| - 1;
  }

  lemma FinishStages(s: Wire, w: nat)
    requires Stages(s) && Enabled(s, FinishOk(w)) && w !in s.ready
    ensures Stages(Apply(s, FinishOk(w))) && Stages(Apply(s, FinishFail(w)))
  {
    MapRemove(s.running, w);
    MapAdd(s.ready, w, s.running[w]);
  }

  lemma SendStages(s: Wire, w: nat)
    requires Stages(s) && Enabled(s, Send(w))
    ensures Stages(Apply(s, Send(w)))
  {
    MapRemove(s.ready, w);
  }

  lemma ReadStages(s: Wire)
    requires Stages(s) && Workers(s) && Enabled(s, Read)
    ensures Stages(Apply(s, Read))
  {
    assert s.read + 1 !in s.waiting;
  }

  lemma StepStages(s: Wire, e: Event)
    requires Stages(s) && Workers(s) && Enabled(s, e)
    ensures Stages(Apply(s, e))
  {
    match e
    case Read => ReadStages(s);
    case Start(w) => StartStages(s, w);
    case FinishOk(w) => FinishStages(s, w);
    case FinishFail(w) => FinishStages(s, w);
    case Send(w) => SendStages(s, w);
    case _ =>
  }

  lemma StepInv(s: Wire, e: Event)
    requires Inv(s) && Enabled(s, e)
    ensures Inv(Apply(s, e))
  {
    hide Stages, InFlight, Workers, Placed, Logged;
    StepStages(s, e);
    StepInFlight(s, e);
    StepWorkers(s, e);
    StepPlaced(s, e);
    StepLogged(s, e);
  }

  lemma {:induction false} RunInv(es: seq<Event>)
    requires Valid(es)
    ensures Inv(Run(es))
  {
    if es != [] {
      RunInv(es[..|es| - 1]);
      StepInv(Run(es[..|es| - 1]), es[|es| - 1]);
    }
  }

  // ---------------------------------------------------------------- accounting

  function BatchSet(l: seq<nat>): set<nat> {
    set b | b in l
  }

  lemma {:induction false} BatchSetCard(l: seq<nat>)
    requires NoDup(l)
    ensures |BatchSet(l)| == |l|
  {
    if l != [] {
      var n := |l| - 1;
      assert l == l[..n] + [l[n]];
      assert l[n] !in l[..n];
      BatchSetCard(l[..n]);
      assert BatchSet(l) == BatchSet(l[..n]) + {l[n]};
    }
  }

  /** Every batch read is in exactly one stage, once: waiting in the queue, with one worker, failed, or
      processed. */
  lemma OneStage(es: seq<Event>, b: nat)
    requires Valid(es) && 1 <= b <= Run(es).read
    ensures var s := Run(es);
            && Occurrences(s.queue, b) + (if Busy(s.running, b) then 1 else 0)
               + Occurrences(s.failed, b) + Occurrences(s.processed, b) == 1
            && Own(s.running)
  {
    RunInv(es);
    StageOf(Run(es), b);
  }

  lemma StageOf(s: Wire, b: nat)
    requires Placed(s) && 1 <= b <= s.read
    ensures Occurrences(s.queue, b) + (if Busy(s.running, b) then 1 else 0)
            + Occurrences(s.failed, b) + Occurrences(s.processed, b) == 1
    ensures b in s.processed <==> !Outstanding(s, b)
  {
    var taken := s.read - |s.queue|;
    OccursOnce(s.queue, b);
    OccursOnce(s.failed, b);
    OccursOnce(s.processed, b);
    if b > taken {
      assert s.queue[b - taken - 1] == b;
    } else {
      assert Dealt(s.running, s.processed, s.failed, b);
    }
  }

  /** Always: acks received by the client <= different batches processed <= batches read <= batches written,
      and the acks received stand for different batches, all of them processed. */
  lemma AckAccounting(es: seq<Event>)
    requires Valid(es)
    ensures var s := Run(es);
            && s.recv <= |BatchSet(s.processed)| <= s.read <= s.stored - s.unwritten - s.lost
            && s.recv <= |s.acks|
            && (forall k :: 0 <= k < s.recv ==> s.acks[k].batch in s.processed)
            && (forall j, k :: 0 <= j < k < s.recv ==> s.acks[j].batch != s.acks[k].batch)
  {
    RunInv(es);
    BatchSetCard(Run(es).processed);
  }

  /** Nothing is under way any more. */
  ghost predicate Drained(s: Wire) {
    && s.unwritten == 0 && s.lost == 0 && s.toServer == [] && s.queue == [] && s.running == map[] && s.ready == map[]
    && s.recv == |s.acks|
  }

  /** A drained connection has acked all batches but as many as failed; without failures, all of them. */
  lemma DrainedAcksAll(es: seq<Event>)
    requires Valid(es) && Drained(Run(es))
    ensures var s := Run(es);
            && s.recv == s.stored - |BatchSet(s.failed)|
            && forall b :: 1 <= b <= s.stored ==> (b in s.processed <==> b !in s.failed)
  {
    hide Workers, InFlight, Logged;
    RunInv(es);
    var s := Run(es);
    BatchSetCard(s.failed);
    forall b | 1 <= b <= s.stored
      ensures b in s.processed <==> b !in s.failed
    {
      assert Dealt(s.running, s.processed, s.failed, b);
    }
  }

  // ---------------------------------------------------------------- what an ack is worth

  /** Batch `b` has been read and not been processed. */
  predicate Outstanding(s: Wire, b: nat) {
    b in s.queue || Busy(s.running, b) || b in s.failed
  }

  /** Every batch that the client has acked was processed: the client acks batch k when it receives the
      k-th ack, whatever that says. */
  ghost predicate Exact(s: Wire) {
    forall b :: 1 <= b <= s.recv ==> b in s.processed
  }

  function Recvs(m: nat): seq<Event> {
    seq(m, i => Recv)
  }

  /** At every moment of the run that is so, and stays so when the client receives what has been sent. */
  ghost predicate AlwaysExact(es: seq<Event>) {
    forall n: nat, m: nat :: n <= |es| && Valid(es[..n] + Recvs(m)) ==> Exact(Run(es[..n] + Recvs(m)))
  }

  /** The next ack would make the client ack a batch that is outstanding. The server can tell. */
  ghost predicate Early(s: Wire) {
    exists b :: 1 <= b <= |s.acks| + 1 && Outstanding(s, b)
  }

  /** No ack is sent early. */
  ghost predicate NoneEarly(es: seq<Event>)
    requires Valid(es)
    decreases |es|
  {
    es == [] ||
    (NoneEarly(es[..|es| - 1]) && (es[|es| - 1].Send? ==> !Early(Run(es[..|es| - 1]))))
  }

  lemma {:induction false} RecvsRun(es: seq<Event>, m: nat)
    requires Valid(es)
    ensures Valid(es + Recvs(m)) <==> m == 0 || Run(es).recv + m <= |Run(es).acks|
    ensures Valid(es + Recvs(m)) ==> Run(es + Recvs(m)) == Run(es).(recv := Run(es).recv + m)
  {
    var all := es + Recvs(m);
    if m == 0 {
      assert all == es;
    } else {
      RecvsRun(es, m - 1);
      assert all[..|all| - 1] == es + Recvs(m - 1);
      assert all[|all| - 1] == Recv;
    }
  }

  ghost predicate Covered(s: Wire) {
    forall b :: 1 <= b <= |s.acks| ==> b in s.processed
  }

  lemma StepCovered(s: Wire, e: Event)
    requires Inv(s) && Covered(s) && Enabled(s, e) && (e.Send? ==> !Early(s))
    ensures Covered(Apply(s, e))
  {
    if e.Send? {
      assert |s.ready| > 0;
      forall b | 1 <= b <= |s.acks| + 1
        ensures b in s.processed
      {
        assert !Outstanding(s, b);
        StageOf(s, b);
      }
    }
  }

  lemma {:induction false} NoneEarlyCovered(es: seq<Event>)
    requires Valid(es) && NoneEarly(es)
    ensures Covered(Run(es))
  {
    if es != [] {
      NoneEarlyCovered(es[..|es| - 1]);
      RunInv(es[..|es| - 1]);
      StepCovered(Run(es[..|es| - 1]), es[|es| - 1]);
    }
  }

  lemma {:induction false} PrefixNoneEarly(es: seq<Event>, n: nat)
    requires Valid(es) && NoneEarly(es) && n <= |es|
    ensures Valid(es[..n]) && NoneEarly(es[..n])
  {
    if n == |es| {
      assert es[..n] == es;
    } else {
      PrefixNoneEarly(es[..|es| - 1], n);
      assert es[..|es| - 1][..n] == es[..n];
    }
  }

  lemma {:induction false} ExactNoneEarly(es: seq<Event>)
    requires Valid(es) && AlwaysExact(es)
    ensures NoneEarly(es)
  {
    if es != [] {
      var before := es[..|es| - 1];
      forall n: nat, m: nat | n <= |before| && Valid(before[..n] + Recvs(m))
        ensures Exact(Run(before[..n] + Recvs(m)))
      {
        assert before[..n] == es[..n];
      }
      ExactNoneEarly(before);
      if es[|es| - 1].Send? {
        NotEarly(es);
      }
    }
  }

  lemma CoveredNotEarly(s: Wire, w: nat)
    requires Placed(s) && Stages(s) && Enabled(s, Send(w)) && Covered(Apply(s, Send(w)))
    ensures !Early(s)
  {
    assert |s.ready| > 0;
    forall b | 1 <= b <= |s.acks| + 1
      ensures !Outstanding(s, b)
    {
      assert b in Apply(s, Send(w)).processed;
      StageOf(s, b);
    }
  }

  lemma ExactCovered(es: seq<Event>)
    requires Valid(es) && AlwaysExact(es)
    ensures Covered(Run(es))
  {
    hide Valid, Run, Placed, Logged, Workers, InFlight;
    RunInv(es);
    var t := Run(es);
    var m := |t.acks| - t.recv;
    RecvsRun(es, m);
    assert es[..|es|] == es;
    assert Exact(Run(es + Recvs(m)));
  }

  lemma NotEarly(es: seq<Event>)
    requires Valid(es) && AlwaysExact(es) && es != [] && es[|es| - 1].Send?
    ensures !Early(Run(es[..|es| - 1]))
  {
    hide AlwaysExact, Apply, Placed, Stages, Logged, Workers, InFlight, Early, Covered;
    ExactCovered(es);
    RunInv(es[..|es| - 1]);
    CoveredNotEarly(Run(es[..|es| - 1]), es[|es| - 1].w);
  }

  /** Every batch that the client acks was processed, at every moment and whenever the acks arrive, exactly
      when the server sends no ack while one of the batches up to the number of that ack is queued, in
      work or failed. The order of the acks and their indexes do not matter. */
  lemma AckedProcessedIff(es: seq<Event>)
    requires Valid(es)
    ensures AlwaysExact(es) <==> NoneEarly(es)
  {
    if NoneEarly(es) {
      forall n: nat, m: nat | n <= |es| && Valid(es[..n] + Recvs(m))
        ensures Exact(Run(es[..n] + Recvs(m)))
      {
        PrefixNoneEarly(es, n);
        NoneEarlyCovered(es[..n]);
        RecvsRun(es[..n], m);
        RunInv(es[..n]);
      }
    }
    if AlwaysExact(es) {
      ExactNoneEarly(es);
    }
  }

  // ---------------------------------------------------------------- what its index is worth

  /** Every ack is sent in the order of the batches. */
  ghost predicate SentInOrder(es: seq<Event>)
    requires Valid(es)
    decreases |es|
  {
    es == [] ||
    var s, e := Run(es[..|es| - 1]), es[|es| - 1];
    SentInOrder(es[..|es| - 1]) && (e.Send? ==> e.w == |s.acks| + 1)
  }

  /** Every worker that sends an ack has processed the batch that it was started for. */
  ghost predicate SentOwn(es: seq<Event>)
    requires Valid(es)
    decreases |es|
  {
    es == [] ||
    var s, e := Run(es[..|es| - 1]), es[|es| - 1];
    SentOwn(es[..|es| - 1]) && (e.Send? ==> s.ready[e.w] == e.w)
  }

  /** Every worker takes the batch that it was started for. */
  ghost predicate StartedOwn(es: seq<Event>)
    requires Valid(es)
    decreases |es|
  {
    es == [] ||
    var s, e := Run(es[..|es| - 1]), es[|es| - 1];
    StartedOwn(es[..|es| - 1]) && (e.Start? ==> s.queue[0] == e.w)
  }

  ghost predicate Indexed(acks: seq<Ack>) {
    forall k :: 0 <= k < |acks| ==> acks[k].index == k + 1
  }

  ghost predicate Named(acks: seq<Ack>) {
    forall k :: 0 <= k < |acks| ==> acks[k].index == acks[k].batch
  }

  /** The k-th ack is that of worker k, for batch k. */
  ghost predicate InStep(acks: seq<Ack>) {
    forall k :: 0 <= k < |acks| ==> acks[k] == Ack(k + 1, k + 1)
  }

  /** The AckIndex of every ack equals the client's counter exactly when the acks are sent in order,
      however far the server reads ahead and whatever fails. */
  lemma {:induction false} IndexIsCounterIff(es: seq<Event>)
    requires Valid(es)
    ensures Indexed(Run(es).acks) <==> SentInOrder(es)
  {
    if es != [] {
      IndexIsCounterIff(es[..|es| - 1]);
      Grows(Run(es[..|es| - 1]), es[|es| - 1]);
    }
  }

  /** The AckIndex of every ack names the batch that was processed for it exactly when every sender has
      processed its own batch. */
  lemma {:induction false} IndexNamesBatchIff(es: seq<Event>)
    requires Valid(es)
    ensures Named(Run(es).acks) <==> SentOwn(es)
  {
    if es != [] {
      IndexNamesBatchIff(es[..|es| - 1]);
      Grows(Run(es[..|es| - 1]), es[|es| - 1]);
    }
  }

  lemma Grows(s: Wire, e: Event)
    requires Enabled(s, e)
    ensures !e.Send? ==> Apply(s, e).acks == s.acks
    ensures e.Send? ==> Apply(s, e).acks == s.acks + [Ack(e.w, s.ready[e.w])]
    ensures e.Send? ==> Apply(s, e).acks[..|s.acks|] == s.acks && Apply(s, e).acks[|s.acks|] == Ack(e.w, s.ready[e.w])
  {
  }

  /** Both together: acks come in step with the batches, each for its own. */
  lemma AcksExactIff(es: seq<Event>)
    requires Valid(es)
    ensures InStep(Run(es).acks) <==> SentInOrder(es) && SentOwn(es)
  {
    IndexIsCounterIff(es);
    IndexNamesBatchIff(es);
    var acks := Run(es).acks;
    if Indexed(acks) && Named(acks) {
      forall k | 0 <= k < |acks|
        ensures acks[k] == Ack(k + 1, k + 1)
      {
        assert acks[k].index == k + 1;
      }
    }
  }

  ghost predicate KeepOwn(s: Wire) {
    && (forall w <- s.running :: s.running[w] == w)
    && (forall w <- s.ready :: s.ready[w] == w)
  }

  lemma {:induction false} StartedOwnSentOwn(es: seq<Event>)
    requires Valid(es) && StartedOwn(es)
    ensures KeepOwn(Run(es)) && SentOwn(es)
  {
    if es != [] {
      StartedOwnSentOwn(es[..|es| - 1]);
    }
  }

  // ---------------------------------------------------------------- in-order processing

  /** The step keeps to the order of the batches: a worker takes its own batch, finishes it when no earlier one
      is queued or in work, without a failure, and of the workers that have finished the first one sends.
      Workers may run side by side, and the server may read ahead. */
  ghost predicate InTurn(s: Wire, e: Event)
    requires Enabled(s, e)
  {
    match e
    case Start(w) => s.queue[0] == w
    case FinishOk(w) => forall b :: 1 <= b < s.running[w] ==> b !in s.queue && !Busy(s.running, b)
    case FinishFail(_) => false
    case Send(w) => forall v <- s.ready :: s.ready[w] <= s.ready[v]
    case _ => true
  }

  ghost predicate AllInTurn(es: seq<Event>)
    requires Valid(es)
    decreases |es|
  {
    es == [] || (AllInTurn(es[..|es| - 1]) && InTurn(Run(es[..|es| - 1]), es[|es| - 1]))
  }

  ghost predicate OrderInv(s: Wire) {
    && s.failed == []
    && KeepOwn(s)
    && (forall k :: 0 <= k < |s.processed| ==> s.processed[k] == k + 1)
    && InStep(s.acks)
    && |s.acks| <= |s.processed|
    && (forall b :: |s.acks| < b <= |s.processed| ==> b in s.ready)
    && (forall w <- s.ready :: |s.acks| < w <= |s.processed|)
  }

  lemma Counted(l: seq<nat>, b: nat)
    requires forall k :: 0 <= k < |l| ==> l[k] == k + 1
    ensures 1 <= b <= |l| ==> b in l
  {
    if 1 <= b <= |l| {
      assert l[b - 1] == b;
    }
  }

  /** The batch that finishes is the next one. */
  lemma NextFinished(s: Wire, w: nat)
    requires Placed(s) && OrderInv(s) && Enabled(s, FinishOk(w)) && InTurn(s, FinishOk(w))
    ensures w == |s.processed| + 1
  {
    var p := |s.processed|;
    assert s.running[w] == w && w !in s.processed && 1 <= w;
    Counted(s.processed, w);
    if w > 1 {
      assert Dealt(s.running, s.processed, s.failed, w - 1);
      var k :| 0 <= k < p && s.processed[k] == w - 1;
    }
  }

  lemma NextSent(s: Wire, w: nat)
    requires OrderInv(s) && Enabled(s, Send(w)) && InTurn(s, Send(w))
    ensures w == |s.acks| + 1 && s.ready[w] == w
  {
    assert |s.acks| + 1 in s.ready;
    assert s.ready[|s.acks| + 1] == |s.acks| + 1;
  }

  lemma FinishOrder(s: Wire, w: nat)
    requires Placed(s) && OrderInv(s) && Enabled(s, FinishOk(w)) && InTurn(s, FinishOk(w))
    ensures OrderInv(Apply(s, FinishOk(w)))
  {
    NextFinished(s, w);
    hide Placed, InTurn;
    var t := Apply(s, FinishOk(w));
    assert t.processed == s.processed + [w];
    assert t.ready == s.ready[w := w];
  }

  lemma SendOrder(s: Wire, w: nat)
    requires OrderInv(s) && Enabled(s, Send(w)) && InTurn(s, Send(w))
    ensures OrderInv(Apply(s, Send(w)))
  {
    NextSent(s, w);
    hide InTurn;
    var t := Apply(s, Send(w));
    assert t.acks == s.acks + [Ack(w, w)];
  }

  lemma StepOrder(s: Wire, e: Event)
    requires Placed(s) && OrderInv(s) && Enabled(s, e) && InTurn(s, e)
    ensures OrderInv(Apply(s, e))
  {
    hide Placed;
    match e
    case FinishOk(w) => FinishOrder(s, w);
    case Send(w) => SendOrder(s, w);
    case _ =>
  }

  /** In-order, failure-free processing puts the acks in order: every AckIndex is the client's counter and
      names the batch processed, and every batch that the client acks was processed. */
  lemma {:induction false} InOrderIsExact(es: seq<Event>)
    requires Valid(es) && AllInTurn(es)
    ensures SentInOrder(es) && SentOwn(es) && InStep(Run(es).acks) && Exact(Run(es)) && OrderInv(Run(es))
  {
    hide Placed, Stages, Logged, Workers, InFlight, Exact, OrderInv, InTurn, Apply;
    RunInv(es);
    if es == [] {
      NothingYet();
    } else {
      var before, e := es[..|es| - 1], es[|es| - 1];
      InOrderIsExact(before);
      RunInv(before);
      StepOrder(Run(before), e);
      if e.Send? {
        NextSent(Run(before), e.w);
      }
    }
    OrderedAcks(Run(es));
    ExactAcks(Run(es));
  }

  lemma NothingYet()
    ensures OrderInv(Init())
  {
  }

  lemma OrderedAcks(s: Wire)
    requires OrderInv(s)
    ensures InStep(s.acks)
  {
  }

  /** One batch at a time: a worker takes its batch only when no other worker has one or has still to send its
      ack, and no batch fails. The server may read ahead. */
  ghost predicate Alone(s: Wire, e: Event)
    requires Enabled(s, e)
  {
    !e.FinishFail? && (e.Start? ==> s.queue[0] == e.w && s.running == map[] && s.ready == map[])
  }

  ghost predicate AllAlone(es: seq<Event>)
    requires Valid(es)
    decreases |es|
  {
    es == [] || (AllAlone(es[..|es| - 1]) && Alone(Run(es[..|es| - 1]), es[|es| - 1]))
  }

  ghost predicate OneWorker(s: Wire) {
    && (s.running == map[] || s.ready == map[])
    && (forall v, w :: v in s.running && w in s.running ==> v == w)
    && (forall v, w :: v in s.ready && w in s.ready ==> v == w)
  }

  lemma StepAlone(s: Wire, e: Event)
    requires Placed(s) && OneWorker(s) && Enabled(s, e) && Alone(s, e)
    ensures OneWorker(Apply(s, e)) && InTurn(s, e)
  {
    if e.FinishOk? {
      assert s.running - {e.w} == map[];
      forall b | 1 <= b < s.running[e.w]
        ensures b !in s.queue && !Busy(s.running, b)
      {
      }
    }
  }

  /** One batch at a time is in order. */
  lemma {:induction false} AloneIsInOrder(es: seq<Event>)
    requires Valid(es) && AllAlone(es)
    ensures AllInTurn(es) && OneWorker(Run(es))
  {
    hide Stages, Logged, Workers, InFlight, InTurn, Alone, Apply, Placed;
    if es != [] {
      AloneIsInOrder(es[..|es| - 1]);
      RunInv(es[..|es| - 1]);
      StepAlone(Run(es[..|es| - 1]), es[|es| - 1]);
    }
  }

  lemma ExactAcks(s: Wire)
    requires Logged(s) && Stages(s) && InStep(s.acks)
    ensures Exact(s)
  {
    forall b | 1 <= b <= s.recv
      ensures b in s.processed
    {
      assert s.acks[b - 1].batch == b;
    }
  }

  // ---------------------------------------------------------------- witnesses

  lemma Step(es: seq<Event>, s: Wire, e: Event) returns (es': seq<Event>, s': Wire)
    requires Valid(es) && Run(es) == s && Enabled(s, e)
    ensures Valid(es') && Run(es') == s' == Apply(s, e)
  {
    es', s' := es + [e], Apply(s, e);
    assert es'[..|es'| - 1] == es;
  }

  /** Two batches written and read, with a worker waiting for each. */
  lemma TwoBatches() returns (es: seq<Event>, s: Wire)
    ensures Valid(es) && Run(es) == s
    ensures s == Init().(stored := 2, read := 2, queue := [1, 2], waiting := {1, 2})
  {
    hide Valid, Run;
    es, s := Start0();
    es, s := Step(es, s, Store);
    es, s := Step(es, s, Write);
    es, s := Step(es, s, Store);
    es, s := Step(es, s, Write);
    es, s := Step(es, s, Read);
    es, s := Step(es, s, Read);
  }

  lemma Start0() returns (es: seq<Event>, s: Wire)
    ensures Valid(es) && Run(es) == s == Init()
  {
    es, s := [], Init();
  }

  /** Batch 1 fails, batch 2 succeeds: the client counts one ack and acks batch 1. */
  lemma FailedBatchIsAcked()
    ensures exists es :: Valid(es) && Run(es).recv == 1 && 1 in Run(es).failed && 1 !in Run(es).processed
  {
    hide Valid, Run;
    var es, s := TwoBatches();
    es, s := Step(es, s, Start(1));
    es, s := Step(es, s, FinishFail(1));
    assert s == Init().(stored := 2, read := 2, queue := [2], waiting := {2}, failed := [1]);
    es, s := Step(es, s, Start(2));
    es, s := Step(es, s, FinishOk(2));
    es, s := Step(es, s, Send(2));
    es, s := Step(es, s, Recv);
    assert s.failed == [1] && s.processed == [2] && s.recv == 1;
  }

  /** An AckIndex does not even identify the batch processed: worker 2 may take batch 1. */
  lemma AckIndexNamesAnotherBatch()
    ensures exists es :: Valid(es) && Run(es).acks == [Ack(2, 1)]
  {
    hide Valid, Run;
    var es, s := TwoBatches();
    es, s := Step(es, s, Start(2));
    es, s := Step(es, s, FinishOk(2));
    es, s := Step(es, s, Send(2));
    assert s.acks == [Ack(2, 1)];
  }

  /** Acks sent out of order are harmless as long as none is sent early: here the ack for batch 2 comes
      first, and yet whatever the client acks was processed. */
  lemma OutOfOrderYetProcessed()
    ensures exists es :: Valid(es) && Run(es).acks == [Ack(2, 2), Ack(1, 1)] && Run(es).recv == 2 && Exact(Run(es))
  {
    hide Valid, Run;
    var es, s := TwoBatches();
    es, s := Step(es, s, Start(1));
    es, s := Step(es, s, Start(2));
    es, s := Step(es, s, FinishOk(1));
    es, s := Step(es, s, FinishOk(2));
    es, s := Step(es, s, Send(2));
    es, s := Step(es, s, Send(1));
    es, s := Step(es, s, Recv);
    es, s := Step(es, s, Recv);
    assert s.acks == [Ack(2, 2), Ack(1, 1)] && s.processed == [1, 2] && s.recv == 2;
  }
}
