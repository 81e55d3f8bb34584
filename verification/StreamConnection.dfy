/** The connection object of fleetspeak/src/client/https/streaming.go and the code that updates it in place:
    grouping, recording, acknowledging and the teardown. Its methods are proved against the steps of
    `StreamClient`.
 */
module StreamConnection {
  import opened Ledger
  import opened Sums
  import opened StreamClient
  import opened Thresholds
  import opened Options

  /** The size in bytes at which groupMessages stops; `rate` is ten seconds' worth of the last rate
      measured, if that is a positive number. */
  function Threshold(rate: Option<int>): (t: int)
    ensures rate.None? ==> t == SEND_BYTES_THRESHOLD / 2
    ensures rate.Some? ==> MIN_SEND_BYTES_THRESHOLD <= t <= SEND_BYTES_THRESHOLD / 2
    ensures rate.Some? && MIN_SEND_BYTES_THRESHOLD <= rate.value <= SEND_BYTES_THRESHOLD / 2 ==> t == rate.value
  {
    var half := SEND_BYTES_THRESHOLD / 2;
    if rate.None? then half
    else
      var t := if rate.value < half then rate.value else half;
      if t < MIN_SEND_BYTES_THRESHOLD then MIN_SEND_BYTES_THRESHOLD else t
  }

  /** The bytes that the first `k` of the messages with these sizes count for. */
  function GroupBytes(sizes: seq<nat>, k: nat): nat
    requires k <= |sizes|
  {
    2 + Sum(sizes[..k])
  }

  lemma SumNext(sizes: seq<nat>, k: nat)
    requires k < |sizes|
    ensures Sum(sizes[..k + 1]) == Sum(sizes[..k]) + sizes[k]
  {
    assert sizes[..k + 1] == sizes[..k] + [sizes[k]];
    SumAppend(sizes[..k], [sizes[k]]);
    assert Sum([sizes[k]]) == sizes[k];
  }

  // ---------------------------------------------------------------- steps taken together

  /** The state after `k` messages have been taken from the Outbox for a group. */
  ghost function TakeMany(c: Client, k: nat): (d: Client)
    requires c.connected && c.writer == Grouping && |c.group| + k <= SEND_COUNT_THRESHOLD
    ensures |d.group| == |c.group| + k && d.connected && d.writer == Grouping
  {
    if k == 0 then c else Apply(TakeMany(c, k - 1), GroupTake)
  }

  /** The state after readLoop has acked all the messages in hand. */
  ghost function AckHand(c: Client): Client
    requires c.connected && c.reader.Acking?
    decreases |c.hand|
  {
    if c.hand == [] then Apply(c, AckEnd)
    else
      AckMoves(c);
      AckHand(Apply(c, AckOne))
  }

  lemma {:induction false} AckHandEffect(c: Client)
    requires c.connected && c.reader.Acking?
    ensures AckHand(c).acked == c.acked + c.hand && AckHand(c).pending == c.pending
    ensures AckHand(c).reader == if c.reader.last then ReaderGone else Reading
    decreases |c.hand|
  {
    hide Apply, Move;
    if c.hand == [] {
      AckEnds(c);
    } else {
      AckMoves(c);
      AckHandEffect(Apply(c, AckOne));
    }
  }

  lemma AckEnds(c: Client)
    requires Enabled(c, AckEnd)
    ensures Apply(c, AckEnd) ==
              if c.reader.last then c.(reader := ReaderGone, clean := true, canceled := true) else c.(reader := Reading)
  {
  }

  lemma AckMoves(c: Client)
    requires Enabled(c, AckOne)
    ensures Apply(c, AckOne) == c.(
              hand := c.hand[1..], acked := c.acked + [c.hand[0]], ledger := Move(c.ledger, [c.hand[0]], Acked))
  {
  }

  ghost predicate Sound(c: Client) {
    Books(c) && Control(c)
  }

  lemma StepSound(c: Client, e: Event)
    requires Sound(c) && Enabled(c, e)
    ensures Sound(Apply(c, e))
  {
    StepBooks(c, e);
    StepControl(c, e);
  }

  // ---------------------------------------------------------------- the object

  class Connection {
    var group: seq<Id>
    var pending: map<nat, seq<Id>>
    var wcnt: nat
    var rcnt: nat
    var toAck: seq<Id>
    var writingDone: bool   // as seen by readLoop
    var acked: seq<Id>      // the Ack calls made
    var nacked: seq<Id>     // the Nack calls made
    var taken: nat
    ghost var model: Client

    /** The fields are those of a sound state of the client. */
    ghost predicate Valid()
      reads this
    {
      && Sound(model) && model.connected
      && group == model.group && pending == model.pending && wcnt == model.wcnt && rcnt == model.rcnt
      && toAck == model.hand && writingDone == model.seenDone && acked == model.acked && nacked == model.nacked
      && taken == model.taken
    }

    /** The end of connect: the messages of the initial exchange are acked and nothing is pending. */
    constructor (before: Client)
      requires Sound(before) && !before.connected
      ensures Valid() && model == Apply(before, ConnectOk)
      ensures acked == before.acked + before.toSend && nacked == before.nacked
    {
      hide Books, Move;
      StepSound(before, ConnectOk);
      group, pending, wcnt, rcnt, toAck, writingDone := [], map[], 1, 1, [], false;
      acked, nacked, taken := before.acked + before.toSend, before.nacked, before.taken;
      model := Apply(before, ConnectOk);
    }

    /** A message is received from the Outbox. */
    method TakeOne()
      requires Valid() && model.writer == Grouping && |group| < SEND_COUNT_THRESHOLD
      modifies this`group, this`taken, this`model
      ensures Valid() && model == Apply(old(model), GroupTake)
      ensures model.writer == Grouping && |group| == |old(group)| + 1
    {
      hide Sound;
      StepSound(model, GroupTake);
      group, taken := group + [taken], taken + 1;
      model := Apply(model, GroupTake);
    }

    /** groupMessages, where `sizes` are the sizes of the messages that arrive before it has to return. It
        takes the shortest nonempty prefix of them that fills a group, or all of them if none does. */
    method GroupMessages(sizes: seq<nat>, rate: Option<int>) returns (k: nat)
      requires Valid() && model.writer == Grouping && group == [] && sizes != []
      modifies this`group, this`taken, this`model
      ensures 1 <= k <= |sizes| && k <= SEND_COUNT_THRESHOLD
      ensures Valid() && model == TakeMany(old(model), k)
      ensures forall j :: 1 <= j < k ==> GroupBytes(sizes, j) < Threshold(rate)
      ensures k == |sizes| || k == SEND_COUNT_THRESHOLD || GroupBytes(sizes, k) >= Threshold(rate)
    {
      hide Sound, Apply, Threshold, Sum;
      TakeOne();
      k := 1;
      var size := 2 + sizes[0];
      SumNext(sizes, 0);
      SumEmpty(sizes);
      assert TakeMany(old(model), 0) == old(model);
      while size < Threshold(rate) && |group| < SEND_COUNT_THRESHOLD && k < |sizes|
        invariant 1 <= k <= |sizes| && |group| == k <= SEND_COUNT_THRESHOLD && model.writer == Grouping
        invariant size == GroupBytes(sizes, k)
        invariant forall j :: 1 <= j < k ==> GroupBytes(sizes, j) < Threshold(rate)
        invariant Valid() && model == TakeMany(old(model), k)
        decreases |sizes| - k
      {
        SumNext(sizes, k);
        TakeOne();
        size := size + sizes[k];
        k := k + 1;
      }
    }

    /** writeLoop numbers its group, and remembers it if there is one. */
    method RecordGroup()
      requires Valid() && model.writer == Grouping
      modifies this`pending, this`wcnt, this`group, this`model
      ensures Valid() && group == [] && wcnt == old(wcnt) + 1
      ensures pending == if old(group) == [] then old(pending) else old(pending)[old(wcnt) := old(group)]
      ensures model == Apply(old(model), if old(group) == [] then Beacon else Record)
    {
      hide Sound, Move;
      if group != [] {
        StepSound(model, Record);
        pending := pending[wcnt := group];
        group := [];
        model := Apply(model, Record);
      } else {
        StepSound(model, Beacon);
        model := Apply(model, Beacon);
      }
      wcnt := wcnt + 1;
    }

    /** readLoop removes the batch that its own counter names from pending, whatever the ack says. */
    method PopBatch()
      requires Valid() && model.reader == Reading
      modifies this`toAck, this`pending, this`rcnt, this`model
      ensures Valid() && model == Apply(old(model), RecvAck)
      ensures model.reader == Acking(writingDone && pending == map[])
      ensures pending == old(pending) - {old(rcnt)}
      ensures toAck == Ready(old(model))
    {
      hide Sound, Move, Apply, Control, Books;
      ghost var next := Apply(model, RecvAck);
      StepSound(model, RecvAck);
      Pops(model);
      toAck := if rcnt in pending then pending[rcnt] else [];
      pending := pending - {rcnt};
      rcnt := rcnt + 1;
      model := next;
    }

    method AckFirst()
      requires Valid() && model.reader.Acking? && toAck != []
      modifies this`acked, this`toAck, this`model
      ensures Valid() && model == Apply(old(model), AckOne) && model.reader == old(model.reader)
      ensures toAck == old(toAck)[1..] && acked == old(acked) + [old(toAck)[0]]
    {
      hide Sound, Move;
      StepSound(model, AckOne);
      acked := acked + [toAck[0]];
      toAck := toAck[1..];
      model := Apply(model, AckOne);
    }

    method AckAll()
      requires Valid() && model.reader.Acking?
      modifies this`acked, this`toAck, this`model
      ensures Valid() && model == AckHand(old(model)) && acked == old(acked) + old(toAck)
    {
      hide Sound, Move, Apply, Control;
      while toAck != []
        invariant Valid() && model.reader.Acking? && AckHand(model) == AckHand(old(model))
        invariant acked + toAck == old(acked) + old(toAck)
        decreases |toAck|
      {
        AckFirst();
      }
      StepSound(model, AckEnd);
      AckEnds(model);
      model := Apply(model, AckEnd);
    }

    /** readLoop handles an ack: it acks the messages of that batch and tells whether it returns. */
    method HandleAck() returns (done: bool)
      requires Valid() && model.reader == Reading
      modifies this`toAck, this`pending, this`rcnt, this`acked, this`model
      ensures Valid() && model == AckHand(Apply(old(model), RecvAck))
      ensures acked == old(acked) + Ready(old(model))
      ensures pending == old(pending) - {old(rcnt)}
      ensures done <==> writingDone && pending == map[]
      ensures done <==> model.reader == ReaderGone
    {
      hide Sound, Move, Apply, Control, Ready;
      PopBatch();
      AckHandEffect(model);
      var l := |pending|;
      AckAll();
      done := writingDone && l == 0;
    }

    /** Nacks the messages of one batch of the map. */
    method NackOne(i: nat)
      requires Valid() && LoopsGone(model) && i in pending
      modifies this`nacked, this`pending, this`model
      ensures Valid() && model == Apply(old(model), NackBatch(i)) && LoopsGone(model)
      ensures pending == old(pending) - {i} && nacked == old(nacked) + old(pending)[i]
    {
      hide Sound, Move;
      StepSound(model, NackBatch(i));
      var l := pending[i];
      for k := 0 to |l|
        invariant nacked == old(nacked) + l[..k] && pending == old(pending) && model == old(model)
      {
        nacked := nacked + [l[k]];
      }
      assert l[..|l|] == l;
      pending := pending - {i};
      model := Apply(model, NackBatch(i));
    }

    /** connectLoop nacks whatever is pending once both loops have returned. Then exactly one of Ack and
        Nack has been called on every message taken. */
    method Teardown()
      requires Valid() && LoopsGone(model)
      modifies this`nacked, this`pending, this`model
      ensures Valid() && pending == map[] && old(nacked) <= nacked
      ensures forall id: Id :: id < taken ==> Occurrences(acked, id) + Occurrences(nacked, id) == 1
    {
      hide Sound, Apply;
      while pending != map[]
        invariant Valid() && LoopsGone(model) && old(nacked) <= nacked
        decreases |pending|
      {
        var i :| i in pending;
        NackOne(i);
      }
      forall id: Id | id < taken
        ensures Occurrences(acked, id) + Occurrences(nacked, id) == 1
      {
        Settled(model, id);
      }
    }
  }

  lemma SumEmpty(sizes: seq<nat>)
    ensures Sum(sizes[..0]) == 0
  {
  }

  lemma Settled(c: Client, id: Id)
    requires Sound(c) && c.connected && c.pending == map[] && LoopsGone(c) && id < c.taken
    ensures Calls(c, id) == 1
  {
    HeldOrSettled(c, id);
    OccursOnce(c.acked, id);
    OccursOnce(c.nacked, id);
  }
}
