/** The message life cycle of fleetspeak/src/server/sqlite/messagestore.go: the `messages` and
    `pending_messages` tables, result merging and hand-out with rescheduling.

    A transaction is one step; one that returns an error is rolled back. Every result carries a
    processed time, and the clock is read once per transaction.
 */
module MessageStore {
  import opened Options
  import opened Sequences

  type MessageId = nat
  type ClientId = nat
  type Service = string
  type Data = string

  /** Messages addressed to the server have no destination client. */
  const SERVER: ClientId := 0

  datatype Outcome = Outcome(failed: bool, time: int, reason: string)

  datatype Message = Message(
    id: MessageId,
    dest: ClientId,
    service: Service,
    created: bool, // whether the creation time is set
    result: Option<Outcome>,
    data: Data)

  datatype Row = Row(dest: ClientId, service: Service, result: Option<Outcome>)
  datatype Pending = Pending(retries: nat, due: int, data: Data)
  datatype Store = Store(messages: map<MessageId, Row>, pending: map<MessageId, Pending>)

  /** One reading of the clock, with the retry times computed from it. */
  datatype Clock = Clock(now: int, clientRetry: int, serverRetry: nat -> int)

  predicate Succeeded(m: Message) {
    m.result.Some? && !m.result.value.failed
  }

  /** The reason column is only written for failures. */
  function Column(o: Outcome): (r: Outcome)
    ensures r.failed == o.failed && r.time == o.time && r.reason == if o.failed then o.reason else ""
  {
    if o.failed then o else o.(reason := "")
  }

  // ---------------------------------------------------------------- transactions as functions

  function SetResult(s: Store, id: MessageId, o: Outcome): Store {
    Store(if id in s.messages then s.messages[id := s.messages[id].(result := Some(Column(o)))] else s.messages,
          s.pending - {id})
  }

  function FirstDue(dest: ClientId, isBroadcast: bool, clk: Clock): int {
    if dest == SERVER then (clk.serverRetry)(0)
    else if isBroadcast then clk.clientRetry
    else clk.now
  }

  /** `tryStoreMessage`: insert or ignore, with a pending row for a new unprocessed message. */
  function Insert(s: Store, m: Message, isBroadcast: bool, clk: Clock): Store {
    if m.id in s.messages then s
    else
      var r := if m.result.Some? then Some(Column(m.result.value)) else None;
      Store(s.messages[m.id := Row(m.dest, m.service, r)],
            if m.result.Some? then s.pending
            else s.pending[m.id := Pending(0, FirstDue(m.dest, isBroadcast, clk), m.data)])
  }

  /** One turn of the loop of `StoreMessages`. `None` is an error, which rolls everything back. */
  function StoreOne(s: Store, m: Message, clk: Clock): Option<Store> {
    if Succeeded(m) then
      if !m.created then None else Some(SetResult(Insert(s, m, false, clk), m.id, m.result.value))
    else if m.id !in s.messages then
      if !m.created then None else Some(Insert(s, m, false, clk))
    else if s.messages[m.id].result.Some? && !s.messages[m.id].result.value.failed then Some(s)
    else if m.result.Some? && s.messages[m.id].result.None? then Some(SetResult(s, m.id, m.result.value))
    else Some(s)
  }

  function StoreAll(s: Store, ms: seq<Message>, clk: Clock): Option<Store> {
    if ms == [] then Some(s)
    else
      match StoreAll(s, ms[..|ms| - 1], clk)
      case None => None
      case Some(s') => StoreOne(s', ms[|ms| - 1], clk)
  }

  predicate PendingFor(s: Store, dests: set<ClientId>, id: MessageId) {
    id in s.pending && id in s.messages && s.messages[id].dest in dests
  }

  function RemovedBy(now: int): Outcome {
    Outcome(true, now, "Removed by admin action.")
  }

  function DeletePending(s: Store, dests: set<ClientId>, now: int): Store {
    Store(map id | id in s.messages ::
            if PendingFor(s, dests, id) then s.messages[id].(result := Some(RemovedBy(now))) else s.messages[id],
          map id | id in s.pending && !PendingFor(s, dests, id) :: s.pending[id])
  }

  // ---------------------------------------------------------------- hand-out

  ghost predicate Due(s: Store, dest: ClientId, now: int, id: MessageId) {
    && id in s.messages && id in s.pending
    && s.messages[id].dest == dest && s.pending[id].due < now
  }

  /** A service that is not listed may not get anything. */
  function Allowance(limits: map<Service, nat>, svc: Service): (n: nat)
    ensures svc in limits ==> n == limits[svc]
    ensures svc !in limits ==> n == 0
  {
    if svc in limits then limits[svc] else 0
  }

  /** The number of ids in `ids` that are addressed to `svc`. */
  function CountFor(messages: map<MessageId, Row>, ids: seq<MessageId>, svc: Service): nat {
    if ids == [] then 0
    else
      var id := ids[|ids| - 1];
      CountFor(messages, ids[..|ids| - 1], svc) + (if id in messages && messages[id].service == svc then 1 else 0)
  }

  /** What one call of `ClientMessagesForProcessing` may return. */
  ghost predicate HandOutOk(s: Store, dest: ClientId, lim: nat, limits: Option<map<Service, nat>>, now: int,
                            res: seq<MessageId>) {
    && NoDup(res)
    && (forall id <- res :: Due(s, dest, now, id))
    && |res| <= (if lim == 0 then 1 else lim)
    && (limits.Some? ==> forall svc :: CountFor(s.messages, res, svc) <= Allowance(limits.value, svc))
    // nothing due is left behind unless a limit was reached
    && (|res| < lim ==> forall id :: Due(s, dest, now, id) && id !in res ==>
        var svc := s.messages[id].service;
        limits.Some? && CountFor(s.messages, res, svc) == Allowance(limits.value, svc))
  }

  function NextDue(dest: ClientId, retries: nat, clk: Clock): int {
    if dest == SERVER then (clk.serverRetry)(retries) else clk.clientRetry
  }

  function Rescheduled(p: Pending, dest: ClientId, clk: Clock): Pending {
    Pending(p.retries + 1, NextDue(dest, p.retries + 1, clk), p.data)
  }

  function Reschedule(s: Store, res: seq<MessageId>, dest: ClientId, clk: Clock): Store {
    s.(pending := map id | id in s.pending ::
         if id in res then Rescheduled(s.pending[id], dest, clk) else s.pending[id])
  }

  // ---------------------------------------------------------------- the datastore

  class Datastore {
    var messages: map<MessageId, Row>
    var pending: map<MessageId, Pending>

    function State(): Store
      reads this
    {
      Store(messages, pending)
    }

    constructor ()
      ensures State() == Store(map[], map[])
    {
      messages, pending := map[], map[];
    }

    method TrySetMessageResult(id: MessageId, o: Outcome)
      modifies this
      ensures State() == SetResult(old(State()), id, o)
    {
      if id in messages {
        messages := messages[id := messages[id].(result := Some(Column(o)))];
      }
      pending := pending - {id};
    }

    method TryStoreMessage(m: Message, isBroadcast: bool, clk: Clock) returns (ok: bool)
      modifies this
      ensures ok == m.created
      ensures State() == if ok then Insert(old(State()), m, isBroadcast, clk) else old(State())
    {
      if !m.created {
        return false;
      }
      var inserted := m.id !in messages;
      if inserted {
        var r := if m.result.Some? then Some(Column(m.result.value)) else None;
        messages := messages[m.id := Row(m.dest, m.service, r)];
      }
      if inserted && m.result.None? {
        var due := if m.dest == SERVER then (clk.serverRetry)(0) else if isBroadcast then clk.clientRetry else clk.now;
        pending := pending[m.id := Pending(0, due, m.data)];
      }
      return true;
    }

    method StoreMessages(ms: seq<Message>, clk: Clock) returns (ok: bool)
      modifies this
      ensures ok == StoreAll(old(State()), ms, clk).Some?
      ensures State() == if ok then StoreAll(old(State()), ms, clk).value else old(State())
    {
      var savedMessages, savedPending := messages, pending;
      ok := true;
      for i := 0 to |ms|
        invariant ok && StoreAll(old(State()), ms[..i], clk) == Some(State())
        invariant Store(savedMessages, savedPending) == old(State())
      {
        var m := ms[i];
        ghost var before := State();
        assert ms[..i + 1][..i] == ms[..i];
        if m.result.Some? && !m.result.value.failed {
          ok := TryStoreMessage(m, false, clk);
          if ok {
            TrySetMessageResult(m.id, m.result.value);
          }
        } else if m.id !in messages {
          ok := TryStoreMessage(m, false, clk);
        } else if messages[m.id].result.Some? && !messages[m.id].result.value.failed {
          // Message previously successfully processed, ignore this reprocessing.
        } else if m.result.Some? && messages[m.id].result.None? {
          TrySetMessageResult(m.id, m.result.value);
        }
        assert if ok then StoreOne(before, m, clk) == Some(State()) else StoreOne(before, m, clk) == None;
        if !ok {
          StoreAllFails(old(State()), ms, i + 1, clk);
          messages, pending := savedMessages, savedPending;
          return;
        }
      }
      assert ms[..|ms|] == ms;
    }

    method DeletePendingMessages(dests: set<ClientId>, now: int)
      modifies this
      ensures State() == DeletePending(old(State()), dests, now)
    {
      var ids := set id | id in pending && id in messages && messages[id].dest in dests;
      messages := map id | id in messages ::
        if id in ids then messages[id].(result := Some(RemovedBy(now))) else messages[id];
      pending := pending - ids;
      assert pending == DeletePending(old(State()), dests, now).pending;
    }

    /** `rows` is the result of the query for due messages, in whatever order the database yields it. */
    method MessagesForProcessing(dest: ClientId, lim: nat, limits: Option<map<Service, nat>>, clk: Clock,
                                 rows: seq<MessageId>) returns (res: seq<MessageId>)
      requires IsQuery(State(), dest, clk, rows)
      modifies this
      ensures HandOutOk(old(State()), dest, lim, limits, clk.now, res)
      ensures messages == old(messages) && pending == Reschedule(old(State()), res, dest, clk).pending
    {
      hide Selected, Reschedule, Rescheduled, HandOutOk, IsQuery, Allowance;
      var read: map<Service, nat> := map[];
      res := [];
      ghost var s0 := State();
      var i := 0;
      SelectedNone(s0, dest, clk, limits);
      assert rows[..0] == [];
      while i < |rows|
        invariant 0 <= i <= |rows| && messages == s0.messages
        invariant pending == Reschedule(s0, res, dest, clk).pending
        invariant if lim == 0 then res == [] else |res| < lim
        invariant Selected(s0, limits, rows[..i], read, res)
      {
        var id := rows[i];
        RowFacts(s0, dest, clk, limits, rows, i, read, res);
        var svc := messages[id].service;
        i := i + 1;
        if limits.Some? && Allowance(read, svc) >= Allowance(limits.value, svc) {
          SelectedSkip(s0, limits, rows, i - 1, read, res);
          continue;
        }
        SelectedMore(s0, limits, rows, i - 1, read, res);
        RescheduleOneMore(s0, res, id, dest, clk);
        if limits.Some? {
          read := read[svc := Allowance(read, svc) + 1];
        }
        pending := pending[id := Rescheduled(pending[id], dest, clk)];
        res := res + [id];
        assert Selected(s0, limits, rows[..i], read, res);
        assert pending == Reschedule(s0, res, dest, clk).pending;
        if |res| >= lim {
          SelectedOk(s0, dest, lim, limits, clk, rows, i, read, res);
          return;
        }
      }
      SelectedOk(s0, dest, lim, limits, clk, rows, i, read, res);
    }
  }

  /** What the loop of the hand-out has established after looking at the rows `seen`. */
  ghost predicate Selected(s: Store, limits: Option<map<Service, nat>>, seen: seq<MessageId>,
                           read: map<Service, nat>, res: seq<MessageId>) {
    && NoDup(res) && (forall id <- res :: id in seen)
    && (limits.Some? ==> WithinLimits(s.messages, res, read, limits.value))
    && (forall id <- seen :: id in res || Exhausted(s.messages, read, limits, id))
  }

  ghost predicate IsQuery(s: Store, dest: ClientId, clk: Clock, rows: seq<MessageId>) {
    NoDup(rows) && forall id :: id in rows <==> Due(s, dest, clk.now, id)
  }

  lemma SelectedNone(s: Store, dest: ClientId, clk: Clock, limits: Option<map<Service, nat>>)
    ensures Selected(s, limits, [], map[], [])
    ensures Reschedule(s, [], dest, clk).pending == s.pending
  {
  }

  lemma RowFacts(s: Store, dest: ClientId, clk: Clock, limits: Option<map<Service, nat>>, rows: seq<MessageId>, i: nat,
                 read: map<Service, nat>, res: seq<MessageId>)
    requires IsQuery(s, dest, clk, rows) && i < |rows| && Selected(s, limits, rows[..i], read, res)
    ensures rows[i] in s.messages && rows[i] in s.pending && rows[i] !in res
  {
    assert rows[i] in rows;
    assert rows[i] !in rows[..i];
  }

  lemma SelectedSkip(s: Store, limits: Option<map<Service, nat>>, rows: seq<MessageId>, i: nat,
                     read: map<Service, nat>, res: seq<MessageId>)
    requires i < |rows| && Selected(s, limits, rows[..i], read, res)
    requires rows[i] in s.messages && limits.Some?
    requires Allowance(read, s.messages[rows[i]].service) >= Allowance(limits.value, s.messages[rows[i]].service)
    ensures Selected(s, limits, rows[..i + 1], read, res)
  {
    assert rows[..i + 1] == rows[..i] + [rows[i]];
    var svc := s.messages[rows[i]].service;
    assert CountFor(s.messages, res, svc) <= Allowance(limits.value, svc);
  }

  lemma SelectedMore(s: Store, limits: Option<map<Service, nat>>, rows: seq<MessageId>, i: nat,
                     read: map<Service, nat>, res: seq<MessageId>)
    requires i < |rows| && Selected(s, limits, rows[..i], read, res)
    requires rows[i] in s.messages && rows[i] !in res
    requires limits.Some? ==>
      Allowance(read, s.messages[rows[i]].service) < Allowance(limits.value, s.messages[rows[i]].service)
    ensures var svc := s.messages[rows[i]].service;
            Selected(s, limits, rows[..i + 1],
                     if limits.Some? then read[svc := Allowance(read, svc) + 1] else read, res + [rows[i]])
  {
    assert rows[..i + 1] == rows[..i] + [rows[i]];
    if limits.Some? {
      CountOneMore(s.messages, res, rows[i], read, limits.value);
      hide CountFor, WithinLimits;
    }
  }

  lemma SelectedOk(s: Store, dest: ClientId, lim: nat, limits: Option<map<Service, nat>>, clk: Clock,
                   rows: seq<MessageId>, i: nat, read: map<Service, nat>, res: seq<MessageId>)
    requires IsQuery(s, dest, clk, rows) && i <= |rows| && Selected(s, limits, rows[..i], read, res)
    requires i == |rows| || |res| >= lim
    requires |res| <= if lim == 0 then 1 else lim
    ensures HandOutOk(s, dest, lim, limits, clk.now, res)
  {
    assert forall id <- res :: id in rows;
    if |res| < lim {
      assert rows[..i] == rows;
    }
  }

  /** The `read` counters agree with what has been selected, and respect the limits. */
  ghost predicate WithinLimits(messages: map<MessageId, Row>, res: seq<MessageId>, read: map<Service, nat>,
                               limits: map<Service, nat>) {
    forall svc :: CountFor(messages, res, svc) == Allowance(read, svc) <= Allowance(limits, svc)
  }

  ghost predicate Exhausted(messages: map<MessageId, Row>, read: map<Service, nat>,
                            limits: Option<map<Service, nat>>, id: MessageId) {
    && limits.Some? && id in messages
    && Allowance(read, messages[id].service) == Allowance(limits.value, messages[id].service)
  }

  lemma CountOneMore(messages: map<MessageId, Row>, res: seq<MessageId>, id: MessageId, read: map<Service, nat>,
                     limits: map<Service, nat>)
    requires WithinLimits(messages, res, read, limits) && id in messages
    requires Allowance(read, messages[id].service) < Allowance(limits, messages[id].service)
    ensures WithinLimits(messages, res + [id],
                         read[messages[id].service := Allowance(read, messages[id].service) + 1], limits)
  {
    var more := res + [id];
    assert more[..|more| - 1] == res && more[|more| - 1] == id;
    forall svc
      ensures CountFor(messages, more, svc)
           == CountFor(messages, res, svc) + if messages[id].service == svc then 1 else 0
    {
    }
  }

  lemma RescheduleOneMore(s: Store, res: seq<MessageId>, id: MessageId, dest: ClientId, clk: Clock)
    requires id in s.pending && id !in res
    ensures id in Reschedule(s, res, dest, clk).pending
    ensures Reschedule(s, res, dest, clk).pending[id] == s.pending[id]
    ensures Reschedule(s, res + [id], dest, clk).pending
         == Reschedule(s, res, dest, clk).pending[id := Rescheduled(s.pending[id], dest, clk)]
  {
  }

  lemma {:induction false} StoreAllFails(s: Store, ms: seq<Message>, n: nat, clk: Clock)
    requires n <= |ms| && StoreAll(s, ms[..n], clk) == None
    ensures StoreAll(s, ms, clk) == None
  {
    if n < |ms| {
      var before := ms[..|ms| - 1];
      assert before[..n] == ms[..n];
      StoreAllFails(s, before, n, clk);
    } else {
      assert ms[..n] == ms;
    }
  }
}
