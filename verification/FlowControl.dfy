/** Message tokens, end to end, for one service: the client grants tokens from its accept and process
    counters (fleetspeak/src/client/comms.go, fleetspeak/src/client/services.go), the server adds them up
    and spends them (fleetspeak/src/server/comms/comms.go, fleetspeak/src/server/comms.go), and the
    messages paid for end up in the service's inbox.

    Contacts and messages can be lost, contacts can be handled in any order, connections can end at any
    point and new ones be made. Putting a message into the inbox and counting it are two steps, and so are
    taking it out and counting that.
 */
module FlowControl {
  import opened Sums
  import opened Options

  const INBOX_SIZE: nat := 100
  const TWO64: nat := 0x1_0000_0000_0000_0000

  type u64 = x: nat | x < 0x1_0000_0000_0000_0000

  /** The value of a uint64 counter that has been incremented n times. */
  function Wrap(n: nat): u64 {
    n % TWO64
  }

  /** Subtraction and addition of uint64 values. */
  function Sub64(x: u64, y: u64): u64 {
    if x >= y then x - y else x - y + TWO64
  }

  function Add64(x: u64, y: u64): u64 {
    if x + y < TWO64 then x + y else x + y - TWO64
  }

  /** The tokens granted in a contact, given the counters and the processed count of the previous contact
      of the connection, if there was one. */
  function Grant(accepted: u64, processed: u64, baseCount: Option<u64>): u64 {
    match baseCount
    case None => Sub64(INBOX_SIZE, Sub64(accepted, processed))
    case Some(b) => Sub64(processed, b)
  }

  datatype State = State(
    put: nat,              // messages put into the inbox
    counted: nat,          // ... of which acceptCount has been told
    taken: nat,            // messages taken out of the inbox
    processed: nat,        // ... of which processedCount has been told
    base: Option<u64>,     // processed count of the latest contact; None if there is no connection
    baseAt: nat,           // history: the number behind base
    grants: seq<u64>,      // grants on their way to the server
    tokens: u64,           // of the service, on the server
    snapshot: Option<u64>, // the tokens that findMessagesForClient has seen and will spend from
    messages: nat,         // charged messages on their way to the client
    lost: nat)             // history: tokens lost with contacts or messages

  datatype Event =
    | Connect              // the client makes its first contact
    | Disconnect
    | SendGrant            // the client makes another contact
    | Arrive(i: nat)       // the server handles one of the contacts under way
    | LoseGrant(i: nat)
    | Snapshot
    | Spend(n: nat)        // the server found n messages and subtracts their tokens
    | LoseMessage
    | Put
    | CountPut
    | TakeOut
    | CountTaken

  predicate Enabled(s: State, e: Event) {
    match e
    case Connect => s.base.None? && s.counted == s.put // the previous connection's reader has returned
    case Disconnect => s.base.Some? && s.counted == s.put
    case SendGrant => s.base.Some?
    case Arrive(i) => i < |s.grants|
    case LoseGrant(i) => i < |s.grants|
    case Snapshot => s.base.Some? && s.snapshot.None?
    case Spend(n) => s.snapshot.Some? && n <= s.snapshot.value
    case LoseMessage => s.messages > 0
    case Put => s.messages > 0 && s.counted == s.put && s.put - s.taken < INBOX_SIZE
    case CountPut => s.counted < s.put
    case TakeOut => s.taken < s.put && s.processed == s.taken
    case CountTaken => s.processed < s.taken
  }

  function Remove<T>(l: seq<T>, i: nat): seq<T>
    requires i < |l|
  {
    l[..i] + l[i + 1..]
  }

  function Apply(s: State, e: Event): State
    requires Enabled(s, e)
  {
    match e
    case Connect =>
      s.(base := Some(Wrap(s.processed)), baseAt := s.processed,
         grants := [Grant(Wrap(s.counted), Wrap(s.processed), None)],
         tokens := 0, snapshot := None, messages := 0, lost := 0)
    case Disconnect => s.(base := None, grants := [], snapshot := None, messages := 0)
    case SendGrant =>
      s.(base := Some(Wrap(s.processed)), baseAt := s.processed,
         grants := s.grants + [Grant(Wrap(s.counted), Wrap(s.processed), s.base)])
    case Arrive(i) => s.(grants := Remove(s.grants, i), tokens := Add64(s.tokens, s.grants[i]))
    case LoseGrant(i) => s.(grants := Remove(s.grants, i), lost := s.lost + s.grants[i])
    case Snapshot => s.(snapshot := Some(s.tokens))
    case Spend(n) => s.(snapshot := None, tokens := Sub64(s.tokens, n), messages := s.messages + n)
    case LoseMessage => s.(messages := s.messages - 1, lost := s.lost + 1)
    case Put => s.(messages := s.messages - 1, put := s.put + 1)
    case CountPut => s.(counted := s.counted + 1)
    case TakeOut => s.(taken := s.taken + 1)
    case CountTaken => s.(processed := s.processed + 1)
  }

  function Init(): State {
    State(0, 0, 0, 0, None, 0, [], 0, None, 0, 0)
  }

  ghost predicate Valid(es: seq<Event>)
    decreases |es|, 0
  {
    es == [] || (Valid(es[..|es| - 1]) && Enabled(Run(es[..|es| - 1]), es[|es| - 1]))
  }

  ghost function Run(es: seq<Event>): State
    requires Valid(es)
    decreases |es|, 1
  {
    if es == [] then Init() else Apply(Run(es[..|es| - 1]), es[|es| - 1])
  }

  // ---------------------------------------------------------------- arithmetic

  /** Differences of wrapped counters are exact as long as the true difference fits. */
  lemma SubExact(x: nat, y: nat)
    requires y <= x < y + TWO64
    ensures Sub64(Wrap(x), Wrap(y)) == x - y
  {
    var q, r := y / TWO64, y % TWO64;
    var d := x - y;
    if r + d < TWO64 {
      assert x == q * TWO64 + (r + d);
    } else {
      assert x == (q + 1) * TWO64 + (r + d - TWO64);
    }
  }

  // ---------------------------------------------------------------- conservation

  ghost predicate Counters(s: State) {
    && s.counted <= s.put <= s.counted + 1
    && s.processed <= s.taken <= s.processed + 1
    && s.taken <= s.put && s.put <= s.processed + INBOX_SIZE
  }

  /** All tokens of a connection are somewhere: with the server, on the way there, on the way back with a
      message, used up by a message that the client has not reported as processed, or lost. */
  ghost predicate Conserved(s: State) {
    s.base.Some? ==>
      && s.base.value == Wrap(s.baseAt) && s.baseAt <= s.processed
      && s.tokens + Sum(s.grants) + s.messages + (s.put - s.baseAt) + s.lost == INBOX_SIZE
  }

  ghost predicate Idle(s: State) {
    && (s.base.None? ==> s.grants == [] && s.messages == 0 && s.snapshot.None?)
    && (s.snapshot.Some? ==> s.snapshot.value <= s.tokens)
  }

  ghost predicate Inv(s: State) {
    Counters(s) && Conserved(s) && Idle(s)
  }

  lemma ConnectInv(s: State)
    requires Inv(s) && Enabled(s, Connect)
    ensures Inv(Apply(s, Connect))
  {
    SubExact(s.counted, s.processed);
    var g := INBOX_SIZE - (s.counted - s.processed);
    var t := Apply(s, Connect);
    assert t.grants == [g];
    assert Sum([g]) == g;
  }

  lemma SendGrantInv(s: State)
    requires Inv(s) && Enabled(s, SendGrant)
    ensures Inv(Apply(s, SendGrant))
  {
    SubExact(s.processed, s.baseAt);
    var g := s.processed - s.baseAt;
    assert Apply(s, SendGrant).grants == s.grants + [g];
    SumAppend(s.grants, [g]);
    assert Sum([g]) == g;
  }

  lemma GrantInv(s: State, i: nat)
    requires Inv(s) && i < |s.grants|
    ensures Inv(Apply(s, Arrive(i))) && Inv(Apply(s, LoseGrant(i)))
  {
    SumRemove(s.grants, i);
    assert s.grants[i] <= INBOX_SIZE && s.tokens <= INBOX_SIZE;
  }

  lemma StepInv(s: State, e: Event)
    requires Inv(s) && Enabled(s, e)
    ensures Inv(Apply(s, e))
  {
    match e
    case Connect => ConnectInv(s);
    case SendGrant => SendGrantInv(s);
    case Arrive(i) => GrantInv(s, i);
    case LoseGrant(i) => GrantInv(s, i);
    case _ =>
  }

  lemma {:induction false} RunInv(es: seq<Event>)
    requires Valid(es)
    ensures Inv(Run(es))
  {
    if es != [] {
      RunInv(es[..|es| - 1]);
      StepInv(Run(es[..|es| - 1]), es[|es| - 1]);
    }
  }

  // ---------------------------------------------------------------- main results

  /** In every reachable state of a connection the tokens on the server, the grants and messages under
      way and the messages accepted but not yet processed do not exceed the inbox. */
  lemma NeverOvercommitted(es: seq<Event>)
    requires Valid(es) && Run(es).base.Some?
    ensures var s := Run(es);
            s.tokens + Sum(s.grants) + s.messages + (s.put - s.processed) <= INBOX_SIZE
  {
    RunInv(es);
  }

  /** Hence the inbox has room whenever a charged message arrives: delivering it never blocks. */
  lemma DeliveryNeverBlocks(es: seq<Event>)
    requires Valid(es) && Run(es).messages > 0 && Run(es).counted == Run(es).put
    ensures Enabled(Run(es), Put)
    ensures Run(es).put - Run(es).taken + Run(es).messages <= INBOX_SIZE
  {
    RunInv(es);
  }

  /** What the server spends it has: the fatal branch of SubtractMessageTokens is not reached, and no
      token count ever wraps around. */
  lemma NeverFatal(es: seq<Event>, n: nat)
    requires Valid(es) && Enabled(Run(es), Spend(n))
    ensures n <= Run(es).tokens && Apply(Run(es), Spend(n)).tokens == Run(es).tokens - n
  {
    RunInv(es);
  }

  lemma NoWrap(es: seq<Event>, i: nat)
    requires Valid(es) && i < |Run(es).grants|
    ensures Run(es).grants[i] <= INBOX_SIZE
    ensures Apply(Run(es), Arrive(i)).tokens == Run(es).tokens + Run(es).grants[i]
  {
    RunInv(es);
    SumRemove(Run(es).grants, i);
  }

  /** When nothing is under way and nothing was lost, the server holds a token for every free place that
      the client has reported: flow control cannot dry up. */
  lemma TokensComeBack(es: seq<Event>)
    requires Valid(es) && Run(es).base.Some? && Run(es).grants == [] && Run(es).messages == 0 && Run(es).lost == 0
    ensures Run(es).tokens == INBOX_SIZE - (Run(es).put - Run(es).baseAt)
    ensures Run(es).baseAt == Run(es).put ==> Run(es).tokens == INBOX_SIZE
  {
    RunInv(es);
  }

  // ---------------------------------------------------------------- the whole inbox can be used

  /** The run `es` can go on to the state `t`. */
  ghost predicate Leads(es: seq<Event>, t: State) {
    exists more: seq<Event> :: Valid(es + more) && Run(es + more) == t
  }

  lemma LeadsNow(es: seq<Event>)
    requires Valid(es)
    ensures Leads(es, Run(es))
  {
    assert es + [] == es;
    assert Valid(es + []) && Run(es + []) == Run(es);
  }

  lemma LeadsOn(es: seq<Event>, s: State, e: Event) returns (t: State)
    requires Leads(es, s) && Enabled(s, e)
    ensures t == Apply(s, e) && Leads(es, t)
  {
    hide Apply, Enabled;
    var more :| Valid(es + more) && Run(es + more) == s;
    var all := es + (more + [e]);
    assert all[..|all| - 1] == es + more && all[|all| - 1] == e;
    t := Apply(s, e);
    assert Valid(all) && Run(all) == t;
  }

  lemma LeadsInv(es: seq<Event>, t: State)
    requires Leads(es, t)
    ensures Inv(t)
  {
    var more :| Valid(es + more) && Run(es + more) == t;
    RunInv(es + more);
  }

  /** Everything in the inbox can be processed. */
  lemma {:induction false} Processed(es: seq<Event>, s: State) returns (t: State)
    requires Leads(es, s) && s.counted == s.put && s.taken <= s.put && s.processed <= s.taken <= s.processed + 1
    ensures Leads(es, t) && t == s.(taken := s.put, processed := s.put)
    decreases s.put - s.taken, s.taken - s.processed
  {
    hide Leads;
    if s.processed < s.taken {
      t := LeadsOn(es, s, CountTaken);
      t := Processed(es, t);
    } else if s.taken < s.put {
      t := LeadsOn(es, s, TakeOut);
      t := Processed(es, t);
    } else {
      t := s;
    }
  }

  /** The messages under way can fill the inbox. */
  lemma {:induction false} Filled(es: seq<Event>, s: State) returns (t: State)
    requires Leads(es, s) && s.counted == s.put && s.taken <= s.put && s.put - s.taken + s.messages <= INBOX_SIZE
    ensures Leads(es, t) && t.messages == 0 && t.put == s.put + s.messages && t.taken == s.taken && t.base == s.base
    decreases s.messages
  {
    hide Leads;
    if s.messages == 0 {
      t := s;
    } else {
      t := LeadsOn(es, s, Put);
      t := LeadsOn(es, t, CountPut);
      t := Filled(es, t);
    }
  }

  /** A connection on which nothing has been accepted and not processed. */
  lemma FreshConnection(es: seq<Event>) returns (t: State)
    requires Valid(es)
    ensures Leads(es, t) && t.base.Some? && t.counted == t.put == t.taken == t.processed
    ensures t.grants == [INBOX_SIZE] && t.tokens == 0 && t.snapshot.None? && t.messages == 0
  {
    hide Leads, Valid, Run;
    LeadsNow(es);
    t := Run(es);
    LeadsInv(es, t);
    if t.counted < t.put {
      t := LeadsOn(es, t, CountPut);
    }
    if t.base.Some? {
      t := LeadsOn(es, t, Disconnect);
    }
    t := Processed(es, t);
    SubExact(t.counted, t.processed);
    t := LeadsOn(es, t, Connect);
  }

  /** From every reachable state, whatever was lost so far, a new connection can be made on which the client grants
      its whole inbox, the server spends all these tokens, and the messages fill the inbox. */
  lemma CanFillInbox(es: seq<Event>)
    requires Valid(es)
    ensures exists t :: Leads(es, t) && t.base.Some? && t.put - t.taken == INBOX_SIZE
  {
    hide Leads, Valid, Run;
    var t := FreshConnection(es);
    t := LeadsOn(es, t, Arrive(0));
    assert t.tokens == INBOX_SIZE;
    t := LeadsOn(es, t, Snapshot);
    t := LeadsOn(es, t, Spend(INBOX_SIZE));
    t := Filled(es, t);
  }

  // ---------------------------------------------------------------- the first grant

  /** The first grant of a connection is the number of free places exactly when every message put into the
      inbox has been counted. A put that has not been counted yet is granted twice. */
  lemma FirstGrantExactly(put: nat, counted: nat, processed: nat)
    requires counted <= put <= counted + 1 && processed <= put <= processed + INBOX_SIZE
    ensures Grant(Wrap(counted), Wrap(processed), None) == INBOX_SIZE - (put - processed) <==> counted == put
    ensures counted < put ==> Grant(Wrap(counted), Wrap(processed), None) == INBOX_SIZE - (put - processed) + 1
  {
    if processed <= counted {
      SubExact(counted, processed);
    } else {
      assert processed == counted + 1;
      SubExact(processed, counted);
    }
  }
}
