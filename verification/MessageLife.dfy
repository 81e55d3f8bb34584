/** What the operations of `MessageStore` guarantee together: which messages are pending, how results
    merge, and what whole runs hand out.
 */
module MessageLife {
  import opened MessageStore
  import opened Options
  import opened Sequences

  // ---------------------------------------------------------------- pending iff no result

  /** A message has a pending row, and hence a stored payload, exactly when it has no result. */
  ghost predicate Consistent(s: Store) {
    forall id :: id in s.pending <==> id in s.messages && s.messages[id].result.None?
  }

  ghost predicate HasResult(s: Store, id: MessageId) {
    id in s.messages && s.messages[id].result.Some?
  }

  lemma StoreOneConsistent(s: Store, m: Message, clk: Clock)
    requires Consistent(s) && StoreOne(s, m, clk).Some?
    ensures Consistent(StoreOne(s, m, clk).value)
    ensures m.id in StoreOne(s, m, clk).value.messages
    ensures forall id :: HasResult(s, id) ==> HasResult(StoreOne(s, m, clk).value, id)
  {
  }

  lemma {:induction false} StoreAllConsistent(s: Store, ms: seq<Message>, clk: Clock)
    requires Consistent(s) && StoreAll(s, ms, clk).Some?
    ensures Consistent(StoreAll(s, ms, clk).value)
    ensures forall id :: HasResult(s, id) ==> HasResult(StoreAll(s, ms, clk).value, id)
  {
    if ms != [] {
      var before := ms[..|ms| - 1];
      StoreAllConsistent(s, before, clk);
      StoreOneConsistent(StoreAll(s, before, clk).value, ms[|ms| - 1], clk);
    }
  }

  // ---------------------------------------------------------------- StoreMessages is a join

  /** The rows of one message. */
  datatype View = View(row: Option<Row>, pend: Option<Pending>)

  function ViewOf(s: Store, id: MessageId): View {
    View(if id in s.messages then Some(s.messages[id]) else None,
         if id in s.pending then Some(s.pending[id]) else None)
  }

  lemma SameViews(s: Store, t: Store)
    requires forall id :: ViewOf(s, id) == ViewOf(t, id)
    ensures s == t
  {
    assert forall id :: id in s.messages <==> ViewOf(s, id).row.Some?;
    assert forall id :: id in t.messages <==> ViewOf(t, id).row.Some?;
    assert forall id :: id in s.pending <==> ViewOf(s, id).pend.Some?;
    assert forall id :: id in t.pending <==> ViewOf(t, id).pend.Some?;
    assert forall id :: id in s.messages ==> ViewOf(s, id).row.value == s.messages[id];
    assert forall id :: id in s.pending ==> ViewOf(s, id).pend.value == s.pending[id];
    assert s.messages == t.messages;
    assert s.pending == t.pending;
  }

  function Only(ms: seq<Message>, id: MessageId): (r: seq<Message>)
    ensures forall m <- r :: m.id == id && m in ms
    ensures forall m <- ms :: m.id == id ==> m in r
  {
    if ms == [] then []
    else
      var m := ms[|ms| - 1];
      Only(ms[..|ms| - 1], id) + if m.id == id then [m] else []
  }

  /** The result of the last successful message of `l`. */
  function LastSuccess(l: seq<Message>): (r: Option<Outcome>)
    ensures r.Some? <==> exists m :: m in l && Succeeded(m)
    ensures r.Some? ==> !r.value.failed
  {
    if l == [] then None
    else if Succeeded(l[|l| - 1]) then Some(Column(l[|l| - 1].result.value))
    else LastSuccess(l[..|l| - 1])
  }

  /** The result of the first failed message of `l`. */
  function FirstFailure(l: seq<Message>): (r: Option<Outcome>)
    ensures r.Some? <==> exists m :: m in l && m.result.Some? && m.result.value.failed
    ensures r.Some? ==> r.value.failed
  {
    if l == [] then None
    else
      var m := l[|l| - 1];
      var r := FirstFailure(l[..|l| - 1]);
      if r.None? && m.result.Some? && m.result.value.failed then Some(m.result.value) else r
  }

  /** The outcome of storing the messages `l` of one id, in order: the last success wins, then the
      result already present, then the first failure; everything else comes from the first insert. */
  function Merged(v: View, l: seq<Message>, clk: Clock): View {
    if l == [] then v
    else
      var base := if v.row.Some? then v.row.value else Row(l[0].dest, l[0].service, None);
      var result :=
        if LastSuccess(l).Some? then LastSuccess(l)
        else if base.result.Some? then base.result
        else FirstFailure(l);
      var pend :=
        if v.row.None? && l[0].result.None? then Some(Pending(0, FirstDue(l[0].dest, false, clk), l[0].data))
        else v.pend;
      View(Some(base.(result := result)), if result.Some? then None else pend)
  }

  lemma ResultsAppend(l: seq<Message>, m: Message)
    ensures LastSuccess(l + [m]) == if Succeeded(m) then Some(Column(m.result.value)) else LastSuccess(l)
    ensures FirstFailure(l + [m])
         == if FirstFailure(l).None? && m.result.Some? && m.result.value.failed then Some(m.result.value)
            else FirstFailure(l)
    ensures l == [] ==> LastSuccess(l).None? && FirstFailure(l).None?
  {
    var l' := l + [m];
    assert l'[..|l'| - 1] == l && l'[|l'| - 1] == m;
  }

  lemma MergedAppend(l: seq<Message>, m: Message, clk: Clock, s': Store, v: View)
    requires StoreOne(s', m, clk).Some? && Consistent(s')
    requires v.row.None? ==> v.pend.None?
    requires v.row.Some? ==> (v.pend.Some? <==> v.row.value.result.None?)
    requires ViewOf(s', m.id) == Merged(v, l, clk)
    ensures ViewOf(StoreOne(s', m, clk).value, m.id) == Merged(v, l + [m], clk)
  {
    hide LastSuccess, FirstFailure;
    ResultsAppend(l, m);
    assert (l + [m])[0] == if l == [] then m else l[0];
  }

  lemma OtherView(s: Store, m: Message, clk: Clock, id: MessageId)
    requires StoreOne(s, m, clk).Some? && id != m.id
    ensures ViewOf(StoreOne(s, m, clk).value, id) == ViewOf(s, id)
  {
  }

  lemma ConsistentView(s: Store, id: MessageId)
    requires Consistent(s)
    ensures var v := ViewOf(s, id);
            if v.row.None? then v.pend.None? else v.pend.Some? <==> v.row.value.result.None?
  {
  }

  /** Storing a whole batch acts on each id as `Merged` does, whatever else the batch contains. */
  lemma {:induction false} StoreAllView(s: Store, ms: seq<Message>, clk: Clock, id: MessageId)
    requires Consistent(s) && StoreAll(s, ms, clk).Some?
    ensures ViewOf(StoreAll(s, ms, clk).value, id) == Merged(ViewOf(s, id), Only(ms, id), clk)
  {
    if ms != [] {
      var before, m := ms[..|ms| - 1], ms[|ms| - 1];
      StoreAllView(s, before, clk, id);
      StoreAllConsistent(s, before, clk);
      var s' := StoreAll(s, before, clk).value;
      if m.id == id {
        ConsistentView(s, id);
        MergedAppend(Only(before, id), m, clk, s', ViewOf(s, id));
      } else {
        OtherView(s', m, clk, id);
        assert Only(ms, id) == Only(before, id);
      }
    }
  }

  // none < failed < success
  function RankOf(r: Option<Outcome>): nat {
    if r.None? then 0 else if r.value.failed then 1 else 2
  }

  function Rank(s: Store, id: MessageId): nat {
    if id in s.messages then RankOf(s.messages[id].result) else 0
  }

  /** The best rank a batch carries for an id. */
  ghost function BestRank(ms: seq<Message>, id: MessageId): nat {
    if exists m :: m in ms && m.id == id && RankOf(m.result) == 2 then 2
    else if exists m :: m in ms && m.id == id && RankOf(m.result) == 1 then 1
    else 0
  }

  function Max(a: nat, b: nat): nat {
    if a < b then b else a
  }

  lemma MergedRank(v: View, l: seq<Message>, clk: Clock)
    requires v.row.Some? || l != []
    ensures Merged(v, l, clk).row.Some?
    ensures RankOf(Merged(v, l, clk).row.value.result)
         == Max(if v.row.Some? then RankOf(v.row.value.result) else 0,
                if LastSuccess(l).Some? then 2 else if FirstFailure(l).Some? then 1 else 0)
  {
  }

  lemma BestRankOnly(ms: seq<Message>, id: MessageId)
    ensures BestRank(ms, id)
         == if LastSuccess(Only(ms, id)).Some? then 2 else if FirstFailure(Only(ms, id)).Some? then 1 else 0
  {
    var l := Only(ms, id);
    if m :| m in ms && m.id == id && RankOf(m.result) == 2 {
      assert m in l && Succeeded(m);
    }
    if m :| m in ms && m.id == id && RankOf(m.result) == 1 {
      assert m in l && m.result.Some? && m.result.value.failed;
    }
    if LastSuccess(l).Some? {
      var m :| m in l && Succeeded(m);
      assert m in ms && RankOf(m.result) == 2;
    }
    if FirstFailure(l).Some? {
      var m :| m in l && m.result.Some? && m.result.value.failed;
      assert m in ms && RankOf(m.result) == 1;
    }
  }

  /** StoreMessages is a join on none < failed < success: the rank of every message becomes the
      maximum of its old rank and the ranks stored for it. */
  lemma RankJoin(s: Store, ms: seq<Message>, clk: Clock, id: MessageId)
    requires Consistent(s) && StoreAll(s, ms, clk).Some?
    ensures Rank(StoreAll(s, ms, clk).value, id) == Max(Rank(s, id), BestRank(ms, id))
  {
    StoreAllView(s, ms, clk, id);
    BestRankOnly(ms, id);
    var v, l := ViewOf(s, id), Only(ms, id);
    assert ViewOf(StoreAll(s, ms, clk).value, id) == Merged(v, l, clk);
    if v.row.Some? || l != [] {
      MergedRank(v, l, clk);
    }
  }

  /** ... so the final ranks do not depend on the order in which messages are stored, nor on the clock. */
  lemma RankOrderIndependent(s: Store, ms: seq<Message>, ns: seq<Message>, clk: Clock, clk': Clock, id: MessageId)
    requires Consistent(s) && multiset(ms) == multiset(ns)
    requires StoreAll(s, ms, clk).Some? && StoreAll(s, ns, clk').Some?
    ensures Rank(StoreAll(s, ms, clk).value, id) == Rank(StoreAll(s, ns, clk').value, id)
  {
    RankJoin(s, ms, clk, id);
    RankJoin(s, ns, clk', id);
    assert forall m :: m in ms <==> m in multiset(ms);
    assert forall m :: m in ns <==> m in multiset(ns);
  }

  /** The batch has a message with this id. */
  predicate Names(ms: seq<Message>, id: MessageId) {
    ms != [] && (Names(ms[..|ms| - 1], id) || ms[|ms| - 1].id == id)
  }

  /** After the messages `before`, this one is refused only if it lacks its creation time, and it is a success or a
      row would have to be made for it. */
  predicate Acceptable(s: Store, before: seq<Message>, m: Message) {
    m.created || (!Succeeded(m) && (m.id in s.messages || Names(before, m.id)))
  }

  /** A call succeeds exactly when every message of the batch is acceptable, and then there are rows for exactly
      these messages and those there were. */
  lemma {:induction false} StoreSucceedsIff(s: Store, ms: seq<Message>, clk: Clock)
    ensures StoreAll(s, ms, clk).Some? <==> forall i :: 0 <= i < |ms| ==> Acceptable(s, ms[..i], ms[i])
    ensures StoreAll(s, ms, clk).Some? ==>
              forall id :: id in StoreAll(s, ms, clk).value.messages <==> id in s.messages || Names(ms, id)
  {
    if ms != [] {
      var n := |ms| - 1;
      var before := ms[..n];
      StoreSucceedsIff(s, before, clk);
      assert forall i :: 0 <= i < n ==> before[..i] == ms[..i] && before[i] == ms[i];
    }
  }

  // ---------------------------------------------------------------- several calls

  /** One call of StoreMessages, at its own time. */
  datatype Call = Call(ms: seq<Message>, clk: Clock)

  /** All calls succeed, one after the other. */
  ghost predicate AllStored(s: Store, calls: seq<Call>)
    decreases |calls|
  {
    calls == [] ||
    (StoreAll(s, calls[0].ms, calls[0].clk).Some? &&
     AllStored(StoreAll(s, calls[0].ms, calls[0].clk).value, calls[1..]))
  }

  ghost function StoreCalls(s: Store, calls: seq<Call>): Store
    requires AllStored(s, calls)
    decreases |calls|
  {
    if calls == [] then s else StoreCalls(StoreAll(s, calls[0].ms, calls[0].clk).value, calls[1..])
  }

  function AllMessages(calls: seq<Call>): seq<Message> {
    if calls == [] then [] else calls[0].ms + AllMessages(calls[1..])
  }

  lemma BestRankAppend(ms: seq<Message>, ns: seq<Message>, id: MessageId)
    ensures BestRank(ms + ns, id) == Max(BestRank(ms, id), BestRank(ns, id))
  {
    assert forall m :: m in ms + ns <==> m in ms || m in ns;
  }

  /** Over any sequence of calls too, the final rank of a message is the maximum of its rank and all the ranks
      stored for it; in particular no call lowers a rank. */
  lemma {:induction false} RankOfCalls(s: Store, calls: seq<Call>, id: MessageId)
    requires Consistent(s) && AllStored(s, calls)
    ensures Rank(StoreCalls(s, calls), id) == Max(Rank(s, id), BestRank(AllMessages(calls), id))
    ensures Rank(s, id) <= Rank(StoreCalls(s, calls), id)
    decreases |calls|
  {
    hide StoreAll, Rank, BestRank, Consistent;
    if calls == [] {
      NoRank(id);
    } else {
      var c := calls[0];
      var t := StoreAll(s, c.ms, c.clk).value;
      RankJoin(s, c.ms, c.clk, id);
      StoreAllConsistent(s, c.ms, c.clk);
      RankOfCalls(t, calls[1..], id);
      BestRankAppend(c.ms, AllMessages(calls[1..]), id);
    }
  }

  lemma NoRank(id: MessageId)
    ensures BestRank([], id) == 0
  {
  }

  /** ... so it does not depend on the order of the calls, on how the messages are grouped into calls, or on
      the time of any of them. */
  lemma CallsOrderIndependent(s: Store, calls: seq<Call>, other: seq<Call>, id: MessageId)
    requires Consistent(s) && AllStored(s, calls) && AllStored(s, other)
    requires multiset(AllMessages(calls)) == multiset(AllMessages(other))
    ensures Rank(StoreCalls(s, calls), id) == Rank(StoreCalls(s, other), id)
  {
    hide StoreCalls, AllStored, AllMessages, Rank, Consistent;
    RankOfCalls(s, calls, id);
    RankOfCalls(s, other, id);
    var ms, ns := AllMessages(calls), AllMessages(other);
    assert forall m :: m in ms <==> m in multiset(ms);
    assert forall m :: m in ns <==> m in multiset(ns);
  }

  lemma {:induction false} AcceptedOnce(s: Store, ms: seq<Message>, clk: Clock)
    requires StoreAll(s, ms, clk).Some?
    ensures forall m <- ms :: Succeeded(m) ==> m.created
    ensures forall m <- ms :: m.id in StoreAll(s, ms, clk).value.messages
    ensures s.messages.Keys <= StoreAll(s, ms, clk).value.messages.Keys
  {
    if ms != [] {
      AcceptedOnce(s, ms[..|ms| - 1], clk);
    }
  }

  lemma {:induction false} AcceptedAgain(s: Store, ms: seq<Message>, clk: Clock)
    requires forall m <- ms :: m.id in s.messages && (Succeeded(m) ==> m.created)
    ensures StoreAll(s, ms, clk).Some?
    ensures s.messages.Keys <= StoreAll(s, ms, clk).value.messages.Keys
  {
    if ms != [] {
      AcceptedAgain(s, ms[..|ms| - 1], clk);
      assert ms[|ms| - 1] in ms;
    }
  }

  lemma MergedTwice(v: View, l: seq<Message>, clk: Clock, clk': Clock)
    requires v.row.None? ==> v.pend.None?
    ensures Merged(Merged(v, l, clk), l, clk') == Merged(v, l, clk)
  {
  }

  /** Storing a batch again, at any later time, is accepted and changes nothing at all. */
  lemma StoreIdempotent(s: Store, ms: seq<Message>, clk: Clock, clk': Clock)
    requires Consistent(s) && StoreAll(s, ms, clk).Some?
    ensures StoreAll(StoreAll(s, ms, clk).value, ms, clk') == StoreAll(s, ms, clk)
  {
    var t := StoreAll(s, ms, clk).value;
    AcceptedOnce(s, ms, clk);
    AcceptedAgain(t, ms, clk');
    StoreAllConsistent(s, ms, clk);
    var u := StoreAll(t, ms, clk').value;
    forall id
      ensures ViewOf(u, id) == ViewOf(t, id)
    {
      StoreAllView(s, ms, clk, id);
      StoreAllView(t, ms, clk', id);
      MergedTwice(ViewOf(s, id), Only(ms, id), clk, clk');
    }
    SameViews(u, t);
  }

  // ---------------------------------------------------------------- whole runs

  datatype Event =
    | Stored(ms: seq<Message>, clk: Clock)
    | BroadcastSaved(m: Message, clk: Clock)
    | ResultSet(id: MessageId, outcome: Outcome)
    | PendingDeleted(dests: set<ClientId>, time: int)
    | HandedOut(dest: ClientId, lim: nat, limits: Option<map<Service, nat>>, res: seq<MessageId>, clk: Clock)

  /** One hand-out of one message, to whom and when. */
  datatype Handed = Handed(id: MessageId, dest: ClientId, clk: Clock)

  /** One message stored. */
  datatype Saved = Saved(m: Message, broadcast: bool, clk: Clock)

  datatype History = History(store: Store, log: seq<Handed>, saved: seq<Saved>, now: int)

  function AllSaved(ms: seq<Message>, clk: Clock): seq<Saved> {
    seq(|ms|, i requires 0 <= i < |ms| => Saved(ms[i], false, clk))
  }

  function TimeOf(h: History, e: Event): int {
    match e
    case Stored(_, clk) => clk.now
    case BroadcastSaved(_, clk) => clk.now
    case ResultSet(_, _) => h.now
    case PendingDeleted(_, time) => time
    case HandedOut(_, _, _, _, clk) => clk.now
  }

  ghost predicate Enabled(h: History, e: Event) {
    && h.now <= TimeOf(h, e)
    && (e.HandedOut? ==> HandOutOk(h.store, e.dest, e.lim, e.limits, e.clk.now, e.res))
  }

  function Entries(res: seq<MessageId>, dest: ClientId, clk: Clock): seq<Handed> {
    seq(|res|, i requires 0 <= i < |res| => Handed(res[i], dest, clk))
  }

  function Apply(h: History, e: Event): History
    requires e.HandedOut? ==> forall id <- e.res :: id in h.store.pending
  {
    var now := TimeOf(h, e);
    match e
    case Stored(ms, clk) =>
      var r := StoreAll(h.store, ms, clk);
      if r.Some? then History(r.value, h.log, h.saved + AllSaved(ms, clk), now) else h.(now := now)
    case BroadcastSaved(m, clk) =>
      if m.created then History(Insert(h.store, m, true, clk), h.log, h.saved + [Saved(m, true, clk)], now)
      else h.(now := now)
    case ResultSet(id, o) => h.(store := SetResult(h.store, id, o), now := now)
    case PendingDeleted(dests, time) => h.(store := DeletePending(h.store, dests, time), now := now)
    case HandedOut(dest, _, _, res, clk) =>
      h.(store := Reschedule(h.store, res, dest, clk), log := h.log + Entries(res, dest, clk), now := now)
  }

  ghost predicate Valid(h: History, es: seq<Event>)
    decreases |es|, 0
  {
    es == [] || (Valid(h, es[..|es| - 1]) && Enabled(Run(h, es[..|es| - 1]), es[|es| - 1]))
  }

  ghost function Run(h: History, es: seq<Event>): History
    requires Valid(h, es)
    decreases |es|, 1
  {
    if es == [] then h else Apply(Run(h, es[..|es| - 1]), es[|es| - 1])
  }

  function Count(log: seq<Handed>, id: MessageId): (n: nat)
    ensures n > 0 ==> exists i :: 0 <= i < |log| && log[i].id == id
  {
    if log == [] then 0
    else Count(log[..|log| - 1], id) + if log[|log| - 1].id == id then 1 else 0
  }

  lemma {:induction false} CountAppend(a: seq<Handed>, b: seq<Handed>, id: MessageId)
    ensures Count(a + b, id) == Count(a, id) + Count(b, id)
  {
    if b == [] {
      assert a + b == a;
    } else {
      CountAppend(a, b[..|b| - 1], id);
      assert (a + b)[..|a + b| - 1] == a + b[..|b| - 1];
    }
  }

  /** A batch that was handed out has exactly one entry for each of its messages. */
  lemma {:induction false} CountEntries(res: seq<MessageId>, dest: ClientId, clk: Clock, id: MessageId)
    requires NoDup(res)
    ensures Count(Entries(res, dest, clk), id) == if id in res then 1 else 0
  {
    if res != [] {
      var n := |res| - 1;
      CountEntries(res[..n], dest, clk, id);
      assert Entries(res, dest, clk)[..n] == Entries(res[..n], dest, clk);
      assert res == res[..n] + [res[n]];
    }
  }

  /** The retry time of hand-out `i`: that of clients, or that of the server for as many tries as there have been
      of this message. */
  function RetryTime(log: seq<Handed>, i: nat): int
    requires i < |log|
  {
    if log[i].dest == SERVER then (log[i].clk.serverRetry)(Count(log[..i + 1], log[i].id)) else log[i].clk.clientRetry
  }

  /** The latest hand-out of a pending message is the one that its row is scheduled by. */
  ghost predicate Scheduled(h: History) {
    && (forall i :: 0 <= i < |h.log| ==> h.log[i].id in h.store.messages)
    && (forall i :: 0 <= i < |h.log| && h.log[i].id in h.store.pending ==>
          RetryTime(h.log, i) == h.store.pending[h.log[i].id].due || RetryTime(h.log, i) < h.now)
  }

  /** Hand-outs of one message are separated by its retry time. */
  ghost predicate Spaced(log: seq<Handed>) {
    forall i, j :: 0 <= i < j < |log| && log[i].id == log[j].id ==> RetryTime(log, i) < log[j].clk.now
  }

  ghost predicate LogInv(h: History) {
    Scheduled(h) && Spaced(h.log)
  }

  ghost predicate CountInv(h: History) {
    forall id :: id in h.store.pending ==> h.store.pending[id].retries == Count(h.log, id)
  }

  ghost predicate Inv(h: History) {
    Consistent(h.store) && LogInv(h) && CountInv(h)
  }

  /** Rows that survive a step with the pending data they had, or are new with no hand-out yet. */
  ghost predicate Grows(s: Store, t: Store) {
    && s.messages.Keys <= t.messages.Keys
    && (forall id :: id in t.pending && id in s.messages ==> id in s.pending && t.pending[id] == s.pending[id])
    && (forall id :: id in t.pending && id !in s.messages ==> t.pending[id].retries == 0)
  }

  lemma StoreOneGrows(s: Store, m: Message, clk: Clock)
    requires StoreOne(s, m, clk).Some? && Consistent(s)
    ensures Grows(s, StoreOne(s, m, clk).value)
  {
  }

  lemma {:induction false} StoreAllGrows(s: Store, ms: seq<Message>, clk: Clock)
    requires StoreAll(s, ms, clk).Some? && Consistent(s)
    ensures Grows(s, StoreAll(s, ms, clk).value)
  {
    if ms != [] {
      var before := ms[..|ms| - 1];
      StoreAllGrows(s, before, clk);
      StoreAllConsistent(s, before, clk);
      StoreOneGrows(StoreAll(s, before, clk).value, ms[|ms| - 1], clk);
    }
  }

  lemma GrowInv(h: History, t: Store, now: int)
    requires Inv(h) && Grows(h.store, t) && Consistent(t) && h.now <= now
    ensures forall saved :: Inv(History(t, h.log, saved, now))
  {
    forall id | id in t.pending && id !in h.store.messages
      ensures Count(h.log, id) == 0
    {
    }
  }

  /** The retry times of earlier hand-outs do not change. */
  lemma RetryTimeKept(log: seq<Handed>, more: seq<Handed>, i: nat)
    requires i < |log|
    ensures RetryTime(log + more, i) == RetryTime(log, i)
  {
    assert (log + more)[..i + 1] == log[..i + 1];
  }

  lemma CountUpTo(log: seq<Handed>, res: seq<MessageId>, dest: ClientId, clk: Clock, k: nat)
    requires NoDup(res) && k < |res|
    ensures Count((log + Entries(res, dest, clk))[..|log| + k + 1], res[k]) == Count(log, res[k]) + 1
  {
    hide Count;
    var more, id := Entries(res, dest, clk), res[k];
    assert (log + more)[..|log| + k + 1] == log + more[..k + 1];
    assert more[..k + 1] == Entries(res[..k + 1], dest, clk);
    CountAppend(log, more[..k + 1], id);
    CountEntries(res[..k + 1], dest, clk, id);
    assert res[..k + 1][k] == id;
  }

  /** The retry time of a new hand-out is the one that is stored. */
  lemma RetryTimeNew(h: History, e: Event, k: nat)
    requires Inv(h) && e.HandedOut? && Enabled(h, e) && k < |e.res|
    ensures e.res[k] in Apply(h, e).store.pending
    ensures RetryTime(Apply(h, e).log, |h.log| + k) == Apply(h, e).store.pending[e.res[k]].due
  {
    hide Count, LogInv, Consistent;
    var id := e.res[k];
    assert id in e.res && Due(h.store, e.dest, e.clk.now, id);
    CountUpTo(h.log, e.res, e.dest, e.clk, k);
    assert Apply(h, e).log[|h.log| + k] == Handed(id, e.dest, e.clk);
  }

  lemma HandOutScheduled(h: History, e: Event)
    requires Inv(h) && e.HandedOut? && Enabled(h, e)
    ensures Scheduled(Apply(h, e))
  {
    hide Spaced, CountInv, RetryTime;
    var h' := Apply(h, e);
    var n := |h.log|;
    var more := Entries(e.res, e.dest, e.clk);
    forall i | 0 <= i < |h'.log|
      ensures h'.log[i].id in h'.store.messages
      ensures h'.log[i].id in h'.store.pending ==>
                RetryTime(h'.log, i) == h'.store.pending[h'.log[i].id].due || RetryTime(h'.log, i) < h'.now
    {
      if i >= n {
        assert h'.log[i].id == e.res[i - n] && e.res[i - n] in e.res;
        assert Due(h.store, e.dest, e.clk.now, e.res[i - n]);
        RetryTimeNew(h, e, i - n);
      } else {
        assert h'.log[i] == h.log[i];
        RetryTimeKept(h.log, more, i);
        if h.log[i].id in e.res {
          assert Due(h.store, e.dest, e.clk.now, h.log[i].id);
        }
      }
    }
  }

  lemma HandOutSpaced(h: History, e: Event)
    requires Inv(h) && e.HandedOut? && Enabled(h, e)
    ensures Spaced(Apply(h, e).log)
  {
    hide CountInv, RetryTime;
    var h' := Apply(h, e);
    var n := |h.log|;
    var more := Entries(e.res, e.dest, e.clk);
    forall i, j | 0 <= i < j < |h'.log| && h'.log[i].id == h'.log[j].id
      ensures RetryTime(h'.log, i) < h'.log[j].clk.now
    {
      if i < n {
        RetryTimeKept(h.log, more, i);
        assert h'.log[i] == h.log[i];
      }
      if i < n <= j {
        assert h'.log[j].id == e.res[j - n] && e.res[j - n] in e.res;
        assert Due(h.store, e.dest, e.clk.now, e.res[j - n]);
      }
    }
  }

  lemma HandOutCounts(h: History, e: Event)
    requires Inv(h) && e.HandedOut? && Enabled(h, e)
    ensures CountInv(Apply(h, e))
  {
    var h' := Apply(h, e);
    forall id | id in h'.store.pending
      ensures h'.store.pending[id].retries == Count(h'.log, id)
    {
      CountAppend(h.log, Entries(e.res, e.dest, e.clk), id);
      CountEntries(e.res, e.dest, e.clk, id);
    }
  }

  lemma StoredInv(h: History, ms: seq<Message>, clk: Clock)
    requires Inv(h) && Enabled(h, Stored(ms, clk))
    ensures Inv(Apply(h, Stored(ms, clk)))
    ensures forall id :: HasResult(h.store, id) ==> HasResult(Apply(h, Stored(ms, clk)).store, id)
  {
    hide Inv, Grows, StoreAll, Consistent;
    var h' := Apply(h, Stored(ms, clk));
    ConsistentStore(h);
    if StoreAll(h.store, ms, clk).Some? {
      StoreAllConsistent(h.store, ms, clk);
      StoreAllGrows(h.store, ms, clk);
    } else {
      GrowsNot(h.store);
    }
    GrowInv(h, h'.store, h'.now);
  }

  lemma ConsistentStore(h: History)
    requires Inv(h)
    ensures Consistent(h.store)
  {
  }

  lemma GrowsNot(s: Store)
    requires Consistent(s)
    ensures Grows(s, s)
  {
  }

  lemma StepInv(h: History, e: Event)
    requires Inv(h) && Enabled(h, e)
    ensures Inv(Apply(h, e))
    ensures forall id :: HasResult(h.store, id) ==> HasResult(Apply(h, e).store, id)
  {
    hide LogInv, CountInv, HandOutOk;
    match e
    case Stored(ms, clk) => StoredInv(h, ms, clk);
    case HandedOut(_, _, _, _, _) => HandOutInv(h, e);
    case _ => GrowInv(h, Apply(h, e).store, Apply(h, e).now);
  }

  lemma HandOutInv(h: History, e: Event)
    requires Inv(h) && Enabled(h, e) && e.HandedOut?
    ensures Inv(Apply(h, e))
    ensures forall id :: HasResult(h.store, id) ==> HasResult(Apply(h, e).store, id)
  {
    HandOutScheduled(h, e);
    HandOutSpaced(h, e);
    HandOutCounts(h, e);
    hide Scheduled, Spaced, CountInv;
  }

  lemma {:induction false} RunInv(h: History, es: seq<Event>)
    requires Inv(h) && Valid(h, es)
    ensures Inv(Run(h, es))
  {
    if es != [] {
      RunInv(h, es[..|es| - 1]);
      StepInv(Run(h, es[..|es| - 1]), es[|es| - 1]);
    }
  }

  function Start(now: int): History {
    History(Store(map[], map[]), [], [], now)
  }

  /** After any run from an empty store: pending means no result; a message is never handed out again
      before the clock has passed the retry time stored when it was handed out before; and the retry
      count of a pending message is the number of times it was handed out. */
  lemma LifeCycle(now: int, es: seq<Event>)
    requires Valid(Start(now), es)
    ensures var h := Run(Start(now), es);
            && Consistent(h.store)
            && (forall i, j :: 0 <= i < j < |h.log| && h.log[i].id == h.log[j].id ==>
                  RetryTime(h.log, i) < h.log[j].clk.now)
            && (forall id :: id in h.store.pending ==> h.store.pending[id].retries == Count(h.log, id))
  {
    RunInv(Start(now), es);
  }

  /** Once a message has a result it keeps one and is never handed out again. */
  lemma {:induction false} ResultIsFinal(h: History, es: seq<Event>, id: MessageId)
    requires Inv(h) && Valid(h, es) && HasResult(h.store, id)
    ensures HasResult(Run(h, es).store, id)
    ensures Count(Run(h, es).log, id) == Count(h.log, id)
  {
    hide Inv, Apply, Enabled, HasResult, Count;
    if es != [] {
      var before, e := es[..|es| - 1], es[|es| - 1];
      ResultIsFinal(h, before, id);
      RunInv(h, before);
      StepInv(Run(h, before), e);
      NotHandedOut(Run(h, before), e, id);
    }
  }

  lemma NotHandedOut(h: History, e: Event, id: MessageId)
    requires Inv(h) && Enabled(h, e) && HasResult(h.store, id)
    ensures Count(Apply(h, e).log, id) == Count(h.log, id)
  {
    if e.HandedOut? {
      assert id !in h.store.pending && id !in e.res;
      CountAppend(h.log, Entries(e.res, e.dest, e.clk), id);
      CountEntries(e.res, e.dest, e.clk, id);
    }
  }

  // ---------------------------------------------------------------- where rows come from

  /** The first entry for the id. */
  function FirstFor(saved: seq<Saved>, id: MessageId): Option<Saved> {
    if saved == [] then None
    else if FirstFor(saved[..|saved| - 1], id).Some? then FirstFor(saved[..|saved| - 1], id)
    else if saved[|saved| - 1].m.id == id then Some(saved[|saved| - 1])
    else None
  }

  lemma {:induction false} FirstAppend(a: seq<Saved>, b: seq<Saved>, id: MessageId)
    ensures FirstFor(a + b, id) == if FirstFor(a, id).Some? then FirstFor(a, id) else FirstFor(b, id)
  {
    if b == [] {
      assert a + b == a;
    } else {
      assert (a + b)[..|a + b| - 1] == a + b[..|b| - 1];
      FirstAppend(a, b[..|b| - 1], id);
    }
  }

  lemma {:induction false} FirstOfBatch(ms: seq<Message>, clk: Clock, id: MessageId)
    ensures FirstFor(AllSaved(ms, clk), id) ==
            if Only(ms, id) == [] then None else Some(Saved(Only(ms, id)[0], false, clk))
  {
    if ms != [] {
      var n := |ms| - 1;
      assert AllSaved(ms, clk)[..n] == AllSaved(ms[..n], clk);
      FirstOfBatch(ms[..n], clk, id);
    }
  }

  /** When a message is due for the first time: at once, or for a broadcast and on the server after one retry time. */
  function FirstTime(s: Saved): int {
    if s.m.dest == SERVER then (s.clk.serverRetry)(0) else if s.broadcast then s.clk.clientRetry else s.clk.now
  }

  /** The rows of `v` are those of the message first stored. */
  ghost predicate Stems(v: View, first: Option<Saved>, handed: bool) {
    && (v.row.Some? <==> first.Some?)
    && (v.row.Some? ==> v.row.value.dest == first.value.m.dest && v.row.value.service == first.value.m.service)
    && (v.pend.Some? ==> v.row.Some? && v.pend.value.data == first.value.m.data)
    && (v.pend.Some? && !handed ==> v.pend.value.due == FirstTime(first.value))
  }

  ghost predicate Origin(h: History) {
    forall id :: Stems(ViewOf(h.store, id), FirstFor(h.saved, id), Count(h.log, id) > 0)
  }

  lemma StoredOrigin(h: History, ms: seq<Message>, clk: Clock, id: MessageId)
    requires Inv(h) && Origin(h) && StoreAll(h.store, ms, clk).Some?
    ensures var h' := Apply(h, Stored(ms, clk));
            Stems(ViewOf(h'.store, id), FirstFor(h'.saved, id), Count(h'.log, id) > 0)
  {
    hide StoreAll, LastSuccess, FirstFailure, Only, FirstFor, Count, LogInv, CountInv;
    StoreAllView(h.store, ms, clk, id);
    ConsistentView(h.store, id);
    FirstAppend(h.saved, AllSaved(ms, clk), id);
    FirstOfBatch(ms, clk, id);
    assert Stems(ViewOf(h.store, id), FirstFor(h.saved, id), Count(h.log, id) > 0);
  }

  lemma BroadcastOrigin(h: History, m: Message, clk: Clock, id: MessageId)
    requires Origin(h) && m.created
    ensures var h' := Apply(h, BroadcastSaved(m, clk));
            Stems(ViewOf(h'.store, id), FirstFor(h'.saved, id), Count(h'.log, id) > 0)
  {
    hide Count, FirstFor;
    var one := [Saved(m, true, clk)];
    FirstAppend(h.saved, one, id);
    FirstOfOne(Saved(m, true, clk), id);
    assert Stems(ViewOf(h.store, id), FirstFor(h.saved, id), Count(h.log, id) > 0);
    if id != m.id {
      assert ViewOf(Insert(h.store, m, true, clk), id) == ViewOf(h.store, id);
    }
  }

  lemma FirstOfOne(s: Saved, id: MessageId)
    ensures FirstFor([s], id) == if s.m.id == id then Some(s) else None
  {
    assert [s][..0] == [];
  }

  lemma HandOutOrigin(h: History, e: Event, id: MessageId)
    requires Origin(h) && e.HandedOut? && Enabled(h, e)
    ensures var h' := Apply(h, e);
            Stems(ViewOf(h'.store, id), FirstFor(h'.saved, id), Count(h'.log, id) > 0)
  {
    hide Count, FirstFor;
    CountAppend(h.log, Entries(e.res, e.dest, e.clk), id);
    CountEntries(e.res, e.dest, e.clk, id);
    assert Stems(ViewOf(h.store, id), FirstFor(h.saved, id), Count(h.log, id) > 0);
  }

  lemma StepOrigin(h: History, e: Event)
    requires Inv(h) && Origin(h) && Enabled(h, e)
    ensures Origin(Apply(h, e))
  {
    hide Count, FirstFor, Inv, StoreAll;
    forall id
      ensures var h' := Apply(h, e); Stems(ViewOf(h'.store, id), FirstFor(h'.saved, id), Count(h'.log, id) > 0)
    {
      assert Stems(ViewOf(h.store, id), FirstFor(h.saved, id), Count(h.log, id) > 0);
      if e.Stored? && StoreAll(h.store, e.ms, e.clk).Some? {
        StoredOrigin(h, e.ms, e.clk, id);
      } else if e.BroadcastSaved? && e.m.created {
        BroadcastOrigin(h, e.m, e.clk, id);
      } else if e.HandedOut? {
        HandOutOrigin(h, e, id);
      }
    }
  }

  /** Over every run the rows of a message are those it was first stored with: destination, service and, while it is
      pending, data; and until it is handed out it is due when it was first due. */
  lemma {:induction false} RowsKept(now: int, es: seq<Event>)
    requires Valid(Start(now), es)
    ensures Origin(Run(Start(now), es))
  {
    hide Inv, Apply, Stems, Enabled;
    if es == [] {
      NoOrigin(now);
    } else {
      RowsKept(now, es[..|es| - 1]);
      NoRows(now);
      RunInv(Start(now), es[..|es| - 1]);
      StepOrigin(Run(Start(now), es[..|es| - 1]), es[|es| - 1]);
    }
  }

  lemma NoOrigin(now: int)
    ensures Origin(Start(now))
  {
  }

  lemma NoRows(now: int)
    ensures Inv(Start(now))
  {
  }

  // ---------------------------------------------------------------- deletion

  /** Deleting the pending messages of some clients gives exactly these a failed result at that time and takes their
      pending rows away; all other messages, of whomever, are left alone. */
  lemma DeleteExactly(s: Store, dests: set<ClientId>, now: int, id: MessageId)
    requires Consistent(s)
    ensures var t := DeletePending(s, dests, now);
            && (id in t.messages <==> id in s.messages)
            && (id in s.messages && s.messages[id].result.None? && s.messages[id].dest in dests ==>
                  && id !in t.pending
                  && t.messages[id].result == Some(Outcome(true, now, "Removed by admin action."))
                  && t.messages[id].dest == s.messages[id].dest && t.messages[id].service == s.messages[id].service)
            && (id in s.messages && !(s.messages[id].result.None? && s.messages[id].dest in dests) ==>
                  ViewOf(t, id) == ViewOf(s, id))
  {
  }
}
