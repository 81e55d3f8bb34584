/** Broadcast allocation accounting: fleetspeak/src/server/db/store.go and
    fleetspeak/src/server/sqlite/broadcaststore.go.

    Each transaction is one step on the rows of one broadcast: its `broadcasts` row, its
    `broadcast_allocations` rows and its `broadcast_sent` clients. A transaction that returns an
    error is rolled back and leaves the rows alone. The column `allocated` is called `reserved` here.
 */
module Broadcasts {
  import opened Sums

  type AllocationId = nat
  type ClientId = nat
  type BroadcastId = nat

  const UNLIMITED: nat := 0x7fff_ffff_ffff_ffff

  datatype Allocation = Allocation(sent: nat, limit: nat)

  datatype Broadcast = Broadcast(
    sent: nat,
    reserved: nat,
    limit: nat,
    allocs: map<AllocationId, Allocation>,
    clients: set<ClientId>)

  // ---------------------------------------------------------------- store.go

  /** `product` is the truncated float32 product of the remaining limit and the requested fraction;
      every claim below holds for all its values. */
  function ComputeAllocation(limit: nat, reserved: nat, sent: nat, product: nat): (r: (nat, nat))
    ensures limit != UNLIMITED ==> r.1 == reserved + r.0
    ensures limit != UNLIMITED ==> (r.0 == 0 <==> sent >= limit || reserved >= limit)
    ensures limit != UNLIMITED && r.0 > 0 ==> sent + r.0 <= limit && reserved + r.0 <= limit
    ensures limit != UNLIMITED && r.0 > 0 ==> // all that is left, or what was asked for and at least one
              sent + r.0 == limit || reserved + r.0 == limit || r.0 == product || (r.0 == 1 && product == 0)
    ensures limit != UNLIMITED ==> r.0 <= product || r.0 <= 1
    ensures limit == UNLIMITED ==> r == (UNLIMITED, reserved)
  {
    if limit == UNLIMITED then (UNLIMITED, reserved)
    else
      var a := if sent > reserved then sent else reserved;
      if a > limit then (0, reserved)
      else
        var wanted := if product == 0 then 1 else product;
        var toAllocate := if wanted > limit - a then limit - a else wanted;
        (toAllocate, toAllocate + reserved)
  }

  datatype Cleaned = NewAllocated(n: nat) | AllocationTooLarge

  function ComputeCleanup(allocationLimit: nat, reserved: nat): (r: Cleaned)
    ensures r == AllocationTooLarge <==> reserved < allocationLimit != UNLIMITED
    ensures r.NewAllocated? ==> r.n == reserved || r.n + allocationLimit == reserved
    ensures r.NewAllocated? && allocationLimit > 0 ==> (r.n == reserved <==> allocationLimit == UNLIMITED)
  {
    if allocationLimit == UNLIMITED then NewAllocated(reserved)
    else if allocationLimit > reserved then AllocationTooLarge
    else NewAllocated(reserved - allocationLimit)
  }

  // ---------------------------------------------------------------- transactions

  datatype SaveResult = Saved | BroadcastDisabled | AllocationFull | AllocationExpired | AlreadySent

  function CreateAllocation(b: Broadcast, aid: AllocationId, product: nat): Broadcast {
    var (n, total) := ComputeAllocation(b.limit, b.reserved, b.sent, product);
    if n == 0 || aid in b.allocs then b
    else b.(reserved := total, allocs := b.allocs[aid := Allocation(0, n)])
  }

  function SaveMessage(b: Broadcast, aid: AllocationId, c: ClientId, expired: bool): (SaveResult, Broadcast) {
    if aid !in b.allocs then (BroadcastDisabled, b)
    else
      var a := b.allocs[aid];
      if a.sent >= a.limit then (AllocationFull, b)
      else if expired then (AllocationExpired, b)
      else if c in b.clients then (AlreadySent, b) // primary key of broadcast_sent
      else (Saved, b.(clients := b.clients + {c}, allocs := b.allocs[aid := a.(sent := a.sent + 1)]))
  }

  /** A save that is not tied to an allocation is refused once the limit is 0. */
  function SaveUnallocated(b: Broadcast, c: ClientId): (SaveResult, Broadcast) {
    if b.limit == 0 then (BroadcastDisabled, b)
    else if c in b.clients then (AlreadySent, b)
    else (Saved, b.(clients := b.clients + {c}))
  }

  function CleanupAllocation(b: Broadcast, aid: AllocationId, finalSent: nat): Broadcast {
    if aid !in b.allocs then b
    else
      match ComputeCleanup(b.allocs[aid].limit, b.reserved)
      case AllocationTooLarge => b
      case NewAllocated(n) => b.(sent := b.sent + finalSent, reserved := n, allocs := b.allocs - {aid})
  }

  ghost function LimitsOf(allocs: map<AllocationId, Allocation>): map<AllocationId, nat> {
    map a | a in allocs :: allocs[a].limit
  }

  ghost function SentsOf(allocs: map<AllocationId, Allocation>): map<AllocationId, nat> {
    map a | a in allocs :: allocs[a].sent
  }

  ghost function Limits(b: Broadcast): map<AllocationId, nat> {
    LimitsOf(b.allocs)
  }

  ghost function Sents(b: Broadcast): map<AllocationId, nat> {
    SentsOf(b.allocs)
  }

  ghost function Disable(b: Broadcast): Broadcast {
    var totalLimit := Total(Limits(b));
    b.(limit := 0,
       sent := b.sent + Total(Sents(b)),
       reserved := if b.reserved >= totalLimit then b.reserved - totalLimit else 0,
       allocs := map[])
  }

  // ---------------------------------------------------------------- runs

  datatype Event =
    | Create(aid: AllocationId, product: nat)
    | Save(aid: AllocationId, client: ClientId, expired: bool)
    | Cleanup(aid: AllocationId, finalSent: nat)
    | DisableAll

  ghost function Apply(b: Broadcast, e: Event): Broadcast {
    match e
    case Create(aid, product) => CreateAllocation(b, aid, product)
    case Save(aid, c, expired) => SaveMessage(b, aid, c, expired).1
    case Cleanup(aid, finalSent) => CleanupAllocation(b, aid, finalSent)
    case DisableAll => Disable(b)
  }

  ghost function Run(b: Broadcast, es: seq<Event>): Broadcast {
    if es == [] then b else Apply(Run(b, es[..|es| - 1]), es[|es| - 1])
  }

  function Init(limit: nat): Broadcast {
    Broadcast(0, 0, limit, map[], {})
  }

  /** Cleanup reports the number of messages the allocation actually sent. A late cleanup, of an
      allocation that is gone, may report anything. */
  ghost predicate HonestStep(b: Broadcast, e: Event) {
    e.Cleanup? && e.aid in b.allocs ==> e.finalSent == b.allocs[e.aid].sent
  }

  ghost predicate Honest(b: Broadcast, es: seq<Event>) {
    forall i :: 0 <= i < |es| ==> HonestStep(Run(b, es[..i]), es[i])
  }

  ghost predicate FiniteLimit(limit: nat) {
    1 <= limit < UNLIMITED
  }

  /** Every allocation row is counted exactly once in `allocated`, and every client reached is
      counted exactly once in `sent` or in an allocation row. */
  ghost predicate Balanced(b: Broadcast) {
    && b.reserved == Total(Limits(b))
    && b.sent + Total(Sents(b)) == |b.clients|
    && (forall a <- b.allocs :: b.allocs[a].sent <= b.allocs[a].limit < UNLIMITED)
  }

  ghost predicate Inv(b: Broadcast, limit: nat) {
    && Balanced(b)
    && (b.limit == limit || (b.limit == 0 && b.allocs == map[]))
    && b.reserved <= limit
    && b.sent + b.reserved <= 2 * limit - 1
  }

  // ---------------------------------------------------------------- preservation, step by step

  lemma CreateBalanced(b: Broadcast, aid: AllocationId, product: nat)
    requires Balanced(b) && b.limit < UNLIMITED
    ensures Balanced(CreateAllocation(b, aid, product))
  {
    var b' := CreateAllocation(b, aid, product);
    if b' != b {
      var n := b'.allocs[aid].limit;
      assert Limits(b') == Limits(b)[aid := n];
      assert Sents(b') == Sents(b)[aid := 0];
      TotalInsert(Limits(b), aid, n);
      TotalInsert(Sents(b), aid, 0);
    }
  }

  lemma SaveBalanced(b: Broadcast, aid: AllocationId, c: ClientId, expired: bool)
    requires Balanced(b)
    ensures Balanced(SaveMessage(b, aid, c, expired).1)
  {
    var (r, b') := SaveMessage(b, aid, c, expired);
    if r == Saved {
      var n := b.allocs[aid].sent + 1;
      assert Limits(b') == Limits(b);
      assert Sents(b') == Sents(b)[aid := n];
      TotalInsert(Sents(b), aid, n);
    }
  }

  lemma RemoveRow(allocs: map<AllocationId, Allocation>, aid: AllocationId)
    requires aid in allocs
    ensures Total(LimitsOf(allocs)) == allocs[aid].limit + Total(LimitsOf(allocs - {aid}))
    ensures Total(SentsOf(allocs)) == allocs[aid].sent + Total(SentsOf(allocs - {aid}))
  {
    TotalRemove(LimitsOf(allocs), aid);
    TotalRemove(SentsOf(allocs), aid);
    assert LimitsOf(allocs - {aid}) == LimitsOf(allocs) - {aid};
    assert SentsOf(allocs - {aid}) == SentsOf(allocs) - {aid};
  }

  /** In a balanced state the error of the cleanup computation cannot occur, and balance survives
      the cleanup of a live allocation exactly when it reports the allocation's own count. */
  lemma CleanupBalanced(b: Broadcast, aid: AllocationId, finalSent: nat)
    requires Balanced(b) && aid in b.allocs
    ensures ComputeCleanup(b.allocs[aid].limit, b.reserved).NewAllocated?
    ensures aid !in CleanupAllocation(b, aid, finalSent).allocs
    ensures Balanced(CleanupAllocation(b, aid, finalSent)) <==> finalSent == b.allocs[aid].sent
  {
    RemoveRow(b.allocs, aid);
  }

  /** In a balanced state disabling does not saturate: it leaves nothing allocated, and moves every
      live count to the broadcast. */
  lemma DisableBalanced(b: Broadcast)
    requires Balanced(b)
    ensures b.reserved >= Total(Limits(b))
    ensures Disable(b).reserved == 0 && Disable(b).sent == |b.clients| && Disable(b).clients == b.clients
    ensures Balanced(Disable(b))
  {
    assert Limits(Disable(b)) == map[] && Sents(Disable(b)) == map[];
  }

  lemma CreateInv(b: Broadcast, aid: AllocationId, product: nat, limit: nat)
    requires FiniteLimit(limit) && Inv(b, limit)
    ensures Inv(CreateAllocation(b, aid, product), limit)
  {
    CreateBalanced(b, aid, product);
    if b.allocs == map[] {
      assert Limits(b) == map[];
    }
  }

  lemma CleanupInv(b: Broadcast, aid: AllocationId, limit: nat)
    requires Inv(b, limit) && aid in b.allocs
    ensures Inv(CleanupAllocation(b, aid, b.allocs[aid].sent), limit)
  {
    CleanupBalanced(b, aid, b.allocs[aid].sent);
  }

  lemma DisableInv(b: Broadcast, limit: nat)
    requires Inv(b, limit)
    ensures Inv(Disable(b), limit)
  {
    DisableBalanced(b);
    SentsWithinLimits(b);
  }

  lemma StepInv(b: Broadcast, e: Event, limit: nat)
    requires FiniteLimit(limit) && Inv(b, limit) && HonestStep(b, e)
    ensures Inv(Apply(b, e), limit)
  {
    match e
    case Create(aid, product) => CreateInv(b, aid, product, limit);
    case Save(aid, c, expired) => SaveBalanced(b, aid, c, expired);
    case Cleanup(aid, finalSent) => if aid in b.allocs { CleanupInv(b, aid, limit); }
    case DisableAll => DisableInv(b, limit);
  }

  lemma SentsWithinLimits(b: Broadcast)
    requires forall a <- b.allocs :: b.allocs[a].sent <= b.allocs[a].limit
    ensures Total(Sents(b)) <= Total(Limits(b))
  {
    TotalMonotone(Sents(b), Limits(b));
  }

  lemma {:induction false} RunInv(limit: nat, es: seq<Event>)
    requires FiniteLimit(limit) && Honest(Init(limit), es)
    ensures Inv(Run(Init(limit), es), limit)
  {
    if es == [] {
      assert Limits(Init(limit)) == map[] && Sents(Init(limit)) == map[];
    } else {
      var before := es[..|es| - 1];
      assert forall i :: 0 <= i < |before| ==> before[..i] == es[..i];
      RunInv(limit, before);
      StepInv(Run(Init(limit), before), es[|es| - 1], limit);
    }
  }

  // ---------------------------------------------------------------- main results

  /** After any honest run the clients reached are exactly those counted, and `allocated` is the sum
      of the live allocation limits. */
  lemma Conservation(limit: nat, es: seq<Event>)
    requires FiniteLimit(limit) && Honest(Init(limit), es)
    ensures var b := Run(Init(limit), es);
            && b.sent + Total(Sents(b)) == |b.clients|
            && b.reserved == Total(Limits(b))
  {
    RunInv(limit, es);
  }

  /** A broadcast with limit L reaches at most 2L-1 clients; the sums stay within uint64. */
  lemma ReachBound(limit: nat, es: seq<Event>)
    requires FiniteLimit(limit) && Honest(Init(limit), es)
    ensures var b := Run(Init(limit), es);
            && b.reserved <= limit && b.sent + b.reserved <= 2 * limit - 1 < 0x1_0000_0000_0000_0000
            && |b.clients| <= 2 * limit - 1
  {
    RunInv(limit, es);
    SentsWithinLimits(Run(Init(limit), es));
  }

  /** The error branch of cleanup and the saturating branch of disable are unreachable. */
  lemma NoAccountingError(limit: nat, es: seq<Event>, aid: AllocationId)
    requires FiniteLimit(limit) && Honest(Init(limit), es)
    ensures var b := Run(Init(limit), es);
            && b.reserved >= Total(Limits(b))
            && (aid in b.allocs ==> ComputeCleanup(b.allocs[aid].limit, b.reserved).NewAllocated?)
  {
    RunInv(limit, es);
    var b := Run(Init(limit), es);
    if aid in b.allocs {
      CleanupBalanced(b, aid, 0);
    }
  }

  /** Intended cap: one more allocation keeps `sent + allocated <= limit`, whatever the fraction
      asked for, exactly when nothing has been sent yet or nothing is allocated. */
  lemma CapKeptIff(b: Broadcast, aid: AllocationId)
    requires FiniteLimit(b.limit) && aid !in b.allocs && b.sent + b.reserved <= b.limit
    ensures (forall product: nat :: CreateAllocation(b, aid, product).reserved + b.sent <= b.limit)
       <==> b.sent == 0 || b.reserved == 0
  {
    var b' := CreateAllocation(b, aid, b.limit);
    if b.sent > 0 && b.reserved > 0 {
      assert b'.reserved + b.sent > b.limit;
    }
  }

  /** Runs whose every allocation is made with nothing sent or nothing allocated. */
  ghost predicate Guarded(b: Broadcast, es: seq<Event>) {
    forall i :: 0 <= i < |es| && es[i].Create? ==>
      var s := Run(b, es[..i]);
      s.sent == 0 || s.reserved == 0
  }

  lemma GuardedStep(b: Broadcast, e: Event, limit: nat)
    requires FiniteLimit(limit) && Inv(b, limit) && HonestStep(b, e)
    requires e.Create? ==> b.sent == 0 || b.reserved == 0
    requires b.sent + b.reserved <= limit
    ensures Apply(b, e).sent + Apply(b, e).reserved <= limit
  {
    match e
    case Create(_, _) =>
    case Save(_, _, _) =>
    case Cleanup(aid, _) => if aid in b.allocs { CleanupBalanced(b, aid, e.finalSent); }
    case DisableAll => DisableBalanced(b); SentsWithinLimits(b);
  }

  /** ... never exceed the limit. */
  lemma {:induction false} GuardedReach(limit: nat, es: seq<Event>)
    requires FiniteLimit(limit) && Honest(Init(limit), es) && Guarded(Init(limit), es)
    ensures var b := Run(Init(limit), es);
            b.sent + b.reserved <= limit && |b.clients| <= limit
  {
    RunInv(limit, es);
    SentsWithinLimits(Run(Init(limit), es));
    if es != [] {
      var before := es[..|es| - 1];
      assert forall i :: 0 <= i < |before| ==> before[..i] == es[..i];
      GuardedReach(limit, before);
      RunInv(limit, before);
      GuardedStep(Run(Init(limit), before), es[|es| - 1], limit);
    }
  }

  lemma DisabledStep(d: Broadcast, e: Event)
    requires d.limit == 0 && d.allocs == map[] && d.reserved == 0
    ensures Apply(d, e) == d
  {
    if e.DisableAll? {
      assert Limits(d) == map[] && Sents(d) == map[];
    }
  }

  lemma {:induction false} DisabledRun(d: Broadcast, es: seq<Event>)
    requires d.limit == 0 && d.allocs == map[] && d.reserved == 0
    ensures Run(d, es) == d
  {
    if es != [] {
      DisabledRun(d, es[..|es| - 1]);
      DisabledStep(d, es[|es| - 1]);
    }
  }

  /** Once disabled, a broadcast reaches no further client, keeps no allocation, and its `sent` is the
      number of clients reached: late cleanups are not counted twice. */
  lemma DisabledForGood(limit: nat, es: seq<Event>, later: seq<Event>)
    requires FiniteLimit(limit) && Honest(Init(limit), es)
    ensures var b := Run(Init(limit), es);
            var d := Disable(b);
            d.sent == |b.clients| && d.clients == b.clients && Run(d, later) == d
  {
    RunInv(limit, es);
    DisableBalanced(Run(Init(limit), es));
    DisabledRun(Disable(Run(Init(limit), es)), later);
  }

  lemma DisabledRefusesUnallocated(b: Broadcast, c: ClientId)
    ensures SaveUnallocated(Disable(b), c) == (BroadcastDisabled, Disable(b))
    ensures b.limit > 0 ==> SaveUnallocated(b, c).1 == b.(clients := b.clients + {c})
    ensures b.limit > 0 ==> (SaveUnallocated(b, c).0 == Saved <==> c !in b.clients)
  {
  }

  // ---------------------------------------------------------------- the bound is tight

  ghost predicate Reaches(limit: nat, es: seq<Event>, b: Broadcast) {
    Honest(Init(limit), es) && Run(Init(limit), es) == b
  }

  lemma Extend(limit: nat, es: seq<Event>, b: Broadcast, e: Event)
    requires Reaches(limit, es, b) && HonestStep(b, e)
    ensures Reaches(limit, es + [e], Apply(b, e))
  {
    var es' := es + [e];
    assert es'[..|es'| - 1] == es;
    assert forall i :: 0 <= i <= |es| ==> es'[..i] == es[..i];
    assert es[..|es|] == es;
  }

  lemma ExtendPair(limit: nat, es: seq<Event>, b: Broadcast, e: Event, e': Event)
    requires Reaches(limit, es, b) && !e.Cleanup? && !e'.Cleanup?
    ensures Reaches(limit, es + [e] + [e'], Apply(Apply(b, e), e'))
  {
    Extend(limit, es, b, e);
    Extend(limit, es + [e], Apply(b, e), e');
  }

  ghost predicate Clients(b: Broadcast, n: nat) {
    |b.clients| == n && forall c <- b.clients :: c < n
  }

  /** One allocation of L-1 with `n` messages sent from it. */
  ghost predicate FirstWave(b: Broadcast, limit: nat, n: nat) {
    && b.limit == limit && b.sent == 0 && b.reserved == limit - 1
    && b.allocs == map[0 := Allocation(n, limit - 1)]
    && Clients(b, n)
  }

  /** L-1 sent and cleaned up, then `n` full allocations of one message each. */
  ghost predicate SecondWave(b: Broadcast, limit: nat, n: nat) {
    && b.limit == limit && b.sent == limit - 1 && b.reserved == n
    && (forall a <- b.allocs :: a < n)
    && Clients(b, limit - 1 + n)
  }

  lemma FirstWaveBegun(limit: nat) returns (es: seq<Event>, b: Broadcast)
    requires FiniteLimit(limit) && 2 <= limit
    ensures Reaches(limit, es, b) && FirstWave(b, limit, 0)
  {
    var create := Create(0, limit - 1);
    Extend(limit, [], Init(limit), create);
    hide Reaches;
    es, b := [] + [create], Apply(Init(limit), create);
  }

  lemma FirstWaveStep(b: Broadcast, limit: nat, n: nat)
    requires FiniteLimit(limit) && n < limit - 1 && FirstWave(b, limit, n)
    ensures FirstWave(Apply(b, Save(0, n, false)), limit, n + 1)
  {
    assert SaveMessage(b, 0, n, false).0 == Saved;
  }

  lemma FirstWaveMore(limit: nat, n: nat, es: seq<Event>, b: Broadcast) returns (es': seq<Event>, b': Broadcast)
    requires FiniteLimit(limit) && n < limit - 1 && Reaches(limit, es, b) && FirstWave(b, limit, n)
    ensures Reaches(limit, es', b') && FirstWave(b', limit, n + 1)
  {
    hide Reaches, FirstWave, Apply;
    FirstWaveStep(b, limit, n);
    Extend(limit, es, b, Save(0, n, false));
    es', b' := es + [Save(0, n, false)], Apply(b, Save(0, n, false));
  }

  lemma {:induction false} FirstWaveReached(limit: nat, n: nat) returns (es: seq<Event>, b: Broadcast)
    requires n <= limit - 1 && FiniteLimit(limit) && 2 <= limit
    ensures Reaches(limit, es, b) && FirstWave(b, limit, n)
    decreases n
  {
    hide Reaches, FirstWave;
    if n == 0 {
      es, b := FirstWaveBegun(limit);
    } else {
      es, b := FirstWaveReached(limit, n - 1);
      es, b := FirstWaveMore(limit, n - 1, es, b);
    }
  }

  lemma FirstWaveCleaned(limit: nat) returns (es: seq<Event>, b: Broadcast)
    requires FiniteLimit(limit)
    ensures Reaches(limit, es, b) && SecondWave(b, limit, 0)
  {
    if limit == 1 {
      es, b := [], Init(1);
    } else {
      es, b := FirstWaveReached(limit, limit - 1);
      Extend(limit, es, b, Cleanup(0, limit - 1));
      es, b := es + [Cleanup(0, limit - 1)], Apply(b, Cleanup(0, limit - 1));
    }
  }

  lemma SecondWaveStep(b: Broadcast, limit: nat, n: nat)
    requires FiniteLimit(limit) && n < limit && SecondWave(b, limit, n)
    ensures SecondWave(Apply(Apply(b, Create(n, 1)), Save(n, limit - 1 + n, false)), limit, n + 1)
  {
    var b' := Apply(b, Create(n, 1));
    assert b' == b.(reserved := n + 1, allocs := b.allocs[n := Allocation(0, 1)]);
    assert SaveMessage(b', n, limit - 1 + n, false).0 == Saved;
  }

  lemma SecondWaveMore(limit: nat, n: nat, es: seq<Event>, b: Broadcast) returns (es': seq<Event>, b': Broadcast)
    requires FiniteLimit(limit) && n < limit && Reaches(limit, es, b) && SecondWave(b, limit, n)
    ensures Reaches(limit, es', b') && SecondWave(b', limit, n + 1)
  {
    hide Reaches, SecondWave, Apply;
    var create, save := Create(n, 1), Save(n, limit - 1 + n, false);
    SecondWaveStep(b, limit, n);
    ExtendPair(limit, es, b, create, save);
    es', b' := es + [create] + [save], Apply(Apply(b, create), save);
  }

  lemma {:induction false} SecondWaveReached(limit: nat, n: nat) returns (es: seq<Event>, b: Broadcast)
    requires FiniteLimit(limit) && n <= limit
    ensures Reaches(limit, es, b) && SecondWave(b, limit, n)
    decreases n
  {
    hide Reaches, SecondWave;
    if n == 0 {
      es, b := FirstWaveCleaned(limit);
    } else {
      es, b := SecondWaveReached(limit, n - 1);
      es, b := SecondWaveMore(limit, n - 1, es, b);
    }
  }

  /** For every finite limit L some run reaches 2L-1 clients. */
  lemma BoundIsTight(limit: nat)
    requires FiniteLimit(limit)
    ensures exists es, b :: Reaches(limit, es, b) && |b.clients| == 2 * limit - 1
  {
    var es, b := SecondWaveReached(limit, limit);
  }

  // ---------------------------------------------------------------- who is reached

  /** The allocation has messages left. */
  predicate Room(b: Broadcast, aid: AllocationId)
    requires aid in b.allocs
  {
    b.allocs[aid].sent < b.allocs[aid].limit
  }

  /** At some step of the run a message for the client was saved from a live, unexpired allocation with room. */
  ghost predicate Served(b: Broadcast, es: seq<Event>, c: ClientId)
    decreases |es|
  {
    && es != []
    && var before, e := es[..|es| - 1], es[|es| - 1];
    || Served(b, before, c)
    || (e.Save? && e.client == c && !e.expired && e.aid in Run(b, before).allocs && Room(Run(b, before), e.aid))
  }

  /** Over any run, honest or not, exactly the clients served are reached. */
  lemma {:induction false} ReachedIff(limit: nat, es: seq<Event>, c: ClientId)
    ensures c in Run(Init(limit), es).clients <==> Served(Init(limit), es, c)
  {
    if es != [] {
      ReachedIff(limit, es[..|es| - 1], c);
    }
  }

  // ---------------------------------------------------------------- the datastore

  /** The broadcast and its allocation are in the tables. */
  predicate Live(rows: map<BroadcastId, Broadcast>, bid: BroadcastId, aid: AllocationId) {
    bid in rows && aid in rows[bid].allocs
  }

  /** The broadcast with one more client, charged to the allocation and to nothing else. */
  function WithClient(b: Broadcast, aid: AllocationId, c: ClientId): Broadcast
    requires aid in b.allocs
  {
    var a := b.allocs[aid];
    Broadcast(b.sent, b.reserved, b.limit, b.allocs[aid := Allocation(a.sent + 1, a.limit)], b.clients + {c})
  }

  /** broadcaststore.go, one entry of `rows` per broadcast. */
  class Datastore {
    var rows: map<BroadcastId, Broadcast>

    constructor ()
      ensures rows == map[]
    {
      rows := map[];
    }

    method CreateBroadcast(bid: BroadcastId, limit: nat) returns (ok: bool)
      modifies this
      ensures ok <==> bid !in old(rows)
      ensures rows == if ok then old(rows)[bid := Init(limit)] else old(rows)
    {
      ok := bid !in rows;
      if ok {
        rows := rows[bid := Broadcast(0, 0, limit, map[], {})];
      }
    }

    /** Returns the size of the new allocation, 0 if none was made. Fails, leaving the rows alone, for
        an unknown broadcast or an allocation id that is taken. */
    method NewAllocation(bid: BroadcastId, aid: AllocationId, product: nat) returns (ok: bool, size: nat)
      modifies this
      ensures bid !in old(rows) ==> !ok
      ensures bid in old(rows) && aid !in old(rows)[bid].allocs ==> ok
      ensures !ok ==> size == 0 && rows == old(rows)
      ensures ok ==> rows == old(rows)[bid := CreateAllocation(old(rows)[bid], aid, product)]
      ensures size > 0 ==> ok && aid !in old(rows)[bid].allocs && aid in rows[bid].allocs
      ensures size > 0 ==> rows[bid].allocs[aid] == Allocation(0, size)
    {
      ok, size := false, 0;
      if bid !in rows {
        return;
      }
      var b := rows[bid];
      var (toAllocate, newAllocated) := ComputeAllocation(b.limit, b.reserved, b.sent, product);
      if toAllocate == 0 {
        return true, 0;
      }
      if aid in b.allocs {
        return;
      }
      b := b.(reserved := newAllocated);
      b := b.(allocs := b.allocs[aid := Allocation(0, toAllocate)]);
      rows := rows[bid := b];
      ok, size := true, toAllocate;
    }

    method SaveBroadcastMessage(bid: BroadcastId, c: ClientId, aid: AllocationId, expired: bool)
        returns (r: SaveResult)
      modifies this
      ensures r == BroadcastDisabled <==> !Live(old(rows), bid, aid)
      ensures r == AllocationFull <==> Live(old(rows), bid, aid) && !Room(old(rows)[bid], aid)
      ensures r == AllocationExpired <==> Live(old(rows), bid, aid) && Room(old(rows)[bid], aid) && expired
      ensures r == AlreadySent <==>
                Live(old(rows), bid, aid) && Room(old(rows)[bid], aid) && !expired && c in old(rows)[bid].clients
      ensures r != Saved ==> rows == old(rows)
      ensures r == Saved ==> Live(old(rows), bid, aid)
      ensures Live(old(rows), bid, aid) && r == Saved ==>
                rows == old(rows)[bid := WithClient(old(rows)[bid], aid, c)]
      ensures bid in old(rows) ==> SaveMessage(old(rows)[bid], aid, c, expired) == (r, rows[bid])
    {
      if bid !in rows || aid !in rows[bid].allocs {
        return BroadcastDisabled;
      }
      var b := rows[bid];
      var a := b.allocs[aid];
      if a.sent >= a.limit {
        return AllocationFull;
      }
      if expired {
        return AllocationExpired;
      }
      if c in b.clients {
        return AlreadySent;
      }
      b := b.(clients := b.clients + {c});
      rows := rows[bid := b.(allocs := b.allocs[aid := Allocation(a.sent + 1, a.limit)])];
      r := Saved;
    }

    method Cleanup(bid: BroadcastId, aid: AllocationId, finalSent: nat) returns (ok: bool)
      modifies this
      ensures bid !in old(rows) ==> !ok && rows == old(rows)
      ensures bid in old(rows) ==> rows == old(rows)[bid := CleanupAllocation(old(rows)[bid], aid, finalSent)]
      ensures bid in old(rows) && Balanced(old(rows)[bid]) ==> ok && aid !in rows[bid].allocs
      ensures ok <==> bid in old(rows) && (Live(old(rows), bid, aid) ==>
                ComputeCleanup(old(rows)[bid].allocs[aid].limit, old(rows)[bid].reserved).NewAllocated?)
    {
      if bid !in rows {
        return false;
      }
      var b := rows[bid];
      if aid !in b.allocs {
        return true;
      }
      if Balanced(b) {
        CleanupBalanced(b, aid, finalSent);
      }
      match ComputeCleanup(b.allocs[aid].limit, b.reserved) {
        case AllocationTooLarge =>
          return false;
        case NewAllocated(n) =>
          b := b.(sent := b.sent + finalSent, reserved := n);
          rows := rows[bid := b.(allocs := b.allocs - {aid})];
          return true;
      }
    }

    /** The summing loop of `tryDisableBroadcasts` over the allocation rows of one broadcast. */
    method SumAllocations(allocs: map<AllocationId, Allocation>) returns (totalSent: nat, totalLimit: nat)
      ensures totalSent == Total(SentsOf(allocs))
      ensures totalLimit == Total(LimitsOf(allocs))
    {
      totalSent, totalLimit := 0, 0;
      var rest := allocs;
      while rest != map[]
        invariant totalSent + Total(SentsOf(rest)) == Total(SentsOf(allocs))
        invariant totalLimit + Total(LimitsOf(rest)) == Total(LimitsOf(allocs))
        decreases |rest|
      {
        var a :| a in rest;
        RemoveRow(rest, a);
        totalSent := totalSent + rest[a].sent;
        totalLimit := totalLimit + rest[a].limit;
        rest := rest - {a};
      }
    }

    method DisableBroadcasts(bids: seq<BroadcastId>)
      modifies this
      ensures rows.Keys == old(rows.Keys)
      ensures forall b <- rows :: rows[b] == if b in bids then Disable(old(rows)[b]) else old(rows)[b]
    {
      for i := 0 to |bids|
        invariant rows.Keys == old(rows.Keys)
        invariant forall b <- rows :: rows[b] == if b in bids[..i] then Disable(old(rows)[b]) else old(rows)[b]
      {
        var bid := bids[i];
        assert bids[..i + 1] == bids[..i] + [bid];
        if bid !in rows {
          continue;
        }
        var b := rows[bid];
        var totalSent, totalLimit := SumAllocations(b.allocs);
        var newAllocated := if b.reserved >= totalLimit then b.reserved - totalLimit else 0;
        DisableTwice(old(rows)[bid]);
        rows := rows[bid := Broadcast(b.sent + totalSent, newAllocated, 0, map[], b.clients)];
      }
      assert bids[..|bids|] == bids;
    }
  }

  /** Disabling never takes `allocated` below zero, whatever the tables say. */
  lemma DisableSaturates(b: Broadcast)
    ensures b.reserved >= Total(Limits(b)) ==> Disable(b).reserved + Total(Limits(b)) == b.reserved
    ensures b.reserved < Total(Limits(b)) ==> Disable(b).reserved == 0
    ensures Disable(b).sent == b.sent + Total(Sents(b)) && Disable(b).allocs == map[] && Disable(b).limit == 0
    ensures Disable(b).clients == b.clients
  {
  }

  /** A broadcast listed twice is not counted twice. */
  lemma DisableTwice(b: Broadcast)
    ensures Disable(Disable(b)) == Disable(b)
  {
    var d := Disable(b);
    assert Limits(d) == map[] && Sents(d) == map[];
  }
}
