/** fleetspeak/src/client/internal/message/retry.go: the loop that bounds the messages pending on a
    communicator and offers them again when they are not delivered.

    Goroutines interleave at channel operations, so a run is a sequence of such operations. The loop
    itself is blocked while it offers a message on `out`.
 */
module RetryLoop {
  import opened Options

  /** Messages are identified by the order in which the loop reads them. */
  datatype Msg = Msg(id: nat, size: nat)

  datatype State = State(
    out: Option<Msg>,        // offered by the loop, not yet taken by the communicator
    held: multiset<Msg>,     // taken by the communicator, neither acked nor nacked yet
    acks: seq<Msg>,          // buffered channel from the Ack callbacks
    nacks: seq<Msg>,         // buffered channel from the Nack callbacks
    size: int,
    count: int,
    running: bool,           // false once the loop has returned
    read: seq<Msg>,          // history: every message read from `in`
    acked: seq<Msg>,         // history: every message whose Ack callback ran
    released: multiset<Msg>) // history: every message whose ack the loop has handled

  datatype Config = Config(maxSize: int, maxCount: nat)

  datatype Event =
    | Read(size: nat)  // the loop reads a message of this size from `in`
    | Close            // the loop finds `in` closed and returns
    | Take             // the communicator takes the offered message
    | CallAck(m: Msg)  // the communicator runs the Ack callback
    | CallNack(m: Msg)
    | HandleAck        // the loop receives from `acks`
    | HandleNack       // the loop receives from `nacks` and offers the message again

  /** The loop reads input only below both limits. */
  predicate Reading(cfg: Config, s: State) {
    s.running && s.out.None? && s.size < cfg.maxSize && s.count < cfg.maxCount
  }

  predicate Enabled(cfg: Config, s: State, e: Event) {
    match e
    case Read(_) => Reading(cfg, s)
    case Close => Reading(cfg, s)
    case Take => s.out.Some?
    case CallAck(m) => m in s.held
    case CallNack(m) => m in s.held
    case HandleAck => s.running && s.out.None? && s.acks != []
    case HandleNack => s.running && s.out.None? && s.nacks != []
  }

  function Apply(s: State, e: Event): State
    requires e.Take? ==> s.out.Some?
    requires e.HandleAck? ==> s.acks != []
    requires e.HandleNack? ==> s.nacks != []
  {
    match e
    case Read(size) =>
      var m := Msg(|s.read|, size);
      s.(read := s.read + [m], size := s.size + size, count := s.count + 1, out := Some(m))
    case Close => s.(running := false)
    case Take => s.(out := None, held := s.held + multiset{s.out.value})
    case CallAck(m) => s.(held := s.held - multiset{m}, acks := s.acks + [m], acked := s.acked + [m])
    case CallNack(m) => s.(held := s.held - multiset{m}, nacks := s.nacks + [m])
    case HandleAck =>
      var m := s.acks[0];
      s.(acks := s.acks[1..], size := s.size - m.size, count := s.count - 1, released := s.released + multiset{m})
    case HandleNack => s.(nacks := s.nacks[1..], out := Some(s.nacks[0]))
  }

  function Init(): State {
    State(None, multiset{}, [], [], 0, 0, true, [], [], multiset{})
  }

  ghost predicate Valid(cfg: Config, es: seq<Event>)
    decreases |es|, 0
  {
    es == [] || (Valid(cfg, es[..|es| - 1]) && Enabled(cfg, Run(cfg, es[..|es| - 1]), es[|es| - 1]))
  }

  ghost function Run(cfg: Config, es: seq<Event>): State
    requires Valid(cfg, es)
    decreases |es|, 1
  {
    if es == [] then Init() else Apply(Run(cfg, es[..|es| - 1]), es[|es| - 1])
  }

  // ---------------------------------------------------------------- accounting

  /** Where the messages that the loop still accounts for are. */
  function Places(s: State): multiset<Msg> {
    Out(s) + s.held + multiset(s.acks) + multiset(s.nacks)
  }

  ghost function Bytes(ms: multiset<Msg>): nat {
    if ms == multiset{} then 0
    else
      var m :| m in ms;
      m.size + Bytes(ms - multiset{m})
  }

  lemma {:induction false} BytesRemove(ms: multiset<Msg>, m: Msg)
    requires m in ms
    ensures Bytes(ms) == m.size + Bytes(ms - multiset{m})
    decreases |ms|
  {
    var c :| c in ms && Bytes(ms) == c.size + Bytes(ms - multiset{c});
    if c != m {
      Swap(ms, c, m);
      hide Bytes;
      BytesRemove(ms - multiset{c}, m);
      BytesRemove(ms - multiset{m}, c);
    }
  }

  lemma Swap(ms: multiset<Msg>, c: Msg, m: Msg)
    requires c in ms && m in ms && c != m
    ensures m in ms - multiset{c} && c in ms - multiset{m}
    ensures |ms - multiset{c}| == |ms| - 1 && |ms - multiset{m}| == |ms| - 1
    ensures ms - multiset{c} - multiset{m} == ms - multiset{m} - multiset{c}
  {
  }

  ghost predicate Numbered(read: seq<Msg>) {
    forall i :: 0 <= i < |read| ==> read[i].id == i
  }

  ghost predicate Inv(cfg: Config, s: State) {
    && Numbered(s.read)
    && Places(s) + s.released == multiset(s.read)
    && s.released + multiset(s.acks) == multiset(s.acked)
    && s.count == |Places(s)| <= cfg.maxCount
    && s.size == Bytes(Places(s))
  }

  lemma HeadTail(q: seq<Msg>)
    requires q != []
    ensures multiset(q) == multiset{q[0]} + multiset(q[1..])
  {
    assert q == [q[0]] + q[1..];
  }

  lemma MoveOne(o: multiset<Msg>, h: multiset<Msg>, a: multiset<Msg>, n: multiset<Msg>, m: Msg)
    ensures m in h ==> o + (h - multiset{m}) + (a + multiset{m}) + n == o + h + a + n
    ensures m in h ==> o + (h - multiset{m}) + a + (n + multiset{m}) == o + h + a + n
    ensures multiset{} + (h + multiset{m}) + a + n == multiset{m} + h + a + n
    ensures multiset{} + h + a + (multiset{m} + n) == multiset{m} + h + a + n
  {
  }

  function Out(s: State): multiset<Msg> {
    if s.out.Some? then multiset{s.out.value} else multiset{}
  }

  /** Every step but reading and releasing moves one message from one place to another. */
  lemma MovesKeepPlaces(cfg: Config, s: State, e: Event)
    requires Enabled(cfg, s, e) && (e.Close? || e.Take? || e.CallAck? || e.CallNack? || e.HandleNack?)
    ensures Places(Apply(s, e)) == Places(s)
  {
    match e
    case Close =>
    case Take => MoveOne(multiset{}, s.held, multiset(s.acks), multiset(s.nacks), s.out.value);
    case CallAck(m) =>
      MoveOne(Out(s), s.held, multiset(s.acks), multiset(s.nacks), m);
      assert multiset(s.acks + [m]) == multiset(s.acks) + multiset{m};
    case CallNack(m) =>
      MoveOne(Out(s), s.held, multiset(s.acks), multiset(s.nacks), m);
      assert multiset(s.nacks + [m]) == multiset(s.nacks) + multiset{m};
    case HandleNack =>
      HeadTail(s.nacks);
      MoveOne(multiset{}, s.held, multiset(s.acks), multiset(s.nacks[1..]), s.nacks[0]);
  }

  lemma Shift(p: multiset<Msg>, p': multiset<Msg>, m: Msg, r: multiset<Msg>)
    requires p == p' + multiset{m}
    ensures p + r == p' + (r + multiset{m})
    ensures |p| == |p'| + 1
    ensures Bytes(p) == Bytes(p') + m.size
  {
    BytesRemove(p, m);
    assert p - multiset{m} == p';
  }

  lemma ReadPlaces(s: State, n: nat)
    requires s.out.None?
    ensures Places(Apply(s, Read(n))) == Places(s) + multiset{Msg(|s.read|, n)}
    ensures multiset(Apply(s, Read(n)).read) == multiset(s.read) + multiset{Msg(|s.read|, n)}
  {
  }

  lemma ReadInv(cfg: Config, s: State, n: nat)
    requires Inv(cfg, s) && Reading(cfg, s)
    ensures Inv(cfg, Apply(s, Read(n)))
  {
    hide Bytes, Places;
    var m := Msg(|s.read|, n);
    ReadPlaces(s, n);
    Shift(Places(Apply(s, Read(n))), Places(s), m, s.released);
    assert Places(s) + (s.released + multiset{m}) == Places(s) + s.released + multiset{m};
  }

  lemma ReleasePlaces(s: State)
    requires s.acks != []
    ensures Places(s) == Places(Apply(s, HandleAck)) + multiset{s.acks[0]}
    ensures s.released + multiset(s.acks)
         == Apply(s, HandleAck).released + multiset(Apply(s, HandleAck).acks)
  {
    HeadTail(s.acks);
  }

  lemma ReleaseInv(cfg: Config, s: State)
    requires Inv(cfg, s) && s.acks != []
    ensures Inv(cfg, Apply(s, HandleAck))
  {
    hide Bytes, Places;
    ReleasePlaces(s);
    Shift(Places(s), Places(Apply(s, HandleAck)), s.acks[0], s.released);
  }

  lemma MoveInv(cfg: Config, s: State, e: Event)
    requires Inv(cfg, s) && Enabled(cfg, s, e) && !e.Read? && !e.HandleAck?
    ensures Inv(cfg, Apply(s, e))
  {
    hide Bytes, Places;
    MovesKeepPlaces(cfg, s, e);
    if e.CallAck? {
      assert multiset(s.acks + [e.m]) == multiset(s.acks) + multiset{e.m};
      assert multiset(s.acked + [e.m]) == multiset(s.acked) + multiset{e.m};
    }
  }

  lemma StepInv(cfg: Config, s: State, e: Event)
    requires Inv(cfg, s) && Enabled(cfg, s, e)
    ensures Inv(cfg, Apply(s, e))
  {
    hide Inv, Apply;
    if e.Read? {
      ReadInv(cfg, s, e.size);
    } else if e.HandleAck? {
      ReleaseInv(cfg, s);
    } else {
      MoveInv(cfg, s, e);
    }
  }

  lemma {:induction false} RunInv(cfg: Config, es: seq<Event>)
    requires Valid(cfg, es)
    ensures Inv(cfg, Run(cfg, es))
  {
    if es != [] {
      RunInv(cfg, es[..|es| - 1]);
      StepInv(cfg, Run(cfg, es[..|es| - 1]), es[|es| - 1]);
    }
  }

  // ---------------------------------------------------------------- main results

  function OutCount(s: State, m: Msg): nat {
    if s.out == Some(m) then 1 else 0
  }

  lemma {:induction false} NumberedOnce(read: seq<Msg>, i: nat)
    requires Numbered(read) && i < |read|
    ensures multiset(read)[read[i]] == 1
  {
    var n := |read| - 1;
    assert read == read[..n] + [read[n]];
    if i < n {
      NumberedOnce(read[..n], i);
      assert read[..n][i] == read[i];
    } else {
      assert read[n] !in read[..n];
    }
  }

  /** In every reachable state each message read is in exactly one place or released, never both, and
      its Ack callback has run exactly when it is in the ack queue or released, so at most once. */
  lemma ExactlyOnePlace(cfg: Config, es: seq<Event>, i: nat)
    requires Valid(cfg, es) && i < |Run(cfg, es).read|
    ensures var s := Run(cfg, es);
            var m := s.read[i];
            && OutCount(s, m) + s.held[m] + multiset(s.acks)[m] + multiset(s.nacks)[m] + s.released[m] == 1
            && multiset(s.acked)[m] == multiset(s.acks)[m] + s.released[m] <= 1
  {
    RunInv(cfg, es);
    OnePlace(cfg, Run(cfg, es), i);
  }

  lemma OnePlace(cfg: Config, s: State, i: nat)
    requires Inv(cfg, s) && i < |s.read|
    ensures var m := s.read[i];
            && OutCount(s, m) + s.held[m] + multiset(s.acks)[m] + multiset(s.nacks)[m] + s.released[m] == 1
            && multiset(s.acked)[m] == multiset(s.acks)[m] + s.released[m] <= 1
  {
    hide Bytes;
    NumberedOnce(s.read, i);
    assert (Places(s) + s.released)[s.read[i]] == 1;
    assert (s.released + multiset(s.acks))[s.read[i]] == multiset(s.acked)[s.read[i]];
  }

  /** `count` and `size` are the number and the total size of the messages in those places. */
  lemma Accounting(cfg: Config, es: seq<Event>)
    requires Valid(cfg, es)
    ensures var s := Run(cfg, es);
            s.count == |Places(s)| <= cfg.maxCount && s.size == Bytes(Places(s))
  {
    RunInv(cfg, es);
  }

  ghost predicate SizeInv(cfg: Config, s: State, largest: nat) {
    (forall m <- s.read :: m.size <= largest) ==> s.size == 0 || s.size < cfg.maxSize + largest
  }

  lemma StepSize(cfg: Config, s: State, e: Event, largest: nat)
    requires Enabled(cfg, s, e) && SizeInv(cfg, s, largest) && 0 <= Apply(s, e).size
    ensures SizeInv(cfg, Apply(s, e), largest)
  {
    var s' := Apply(s, e);
    assert forall m <- s.read :: m in s'.read;
    if e.Read? {
      assert s'.read[|s.read|].size == e.size;
    }
  }

  /** The size limit is exceeded by less than one message. */
  lemma {:induction false} SizeBound(cfg: Config, es: seq<Event>, largest: nat)
    requires Valid(cfg, es)
    ensures SizeInv(cfg, Run(cfg, es), largest)
  {
    if es != [] {
      SizeBound(cfg, es[..|es| - 1], largest);
      Accounting(cfg, es);
      StepSize(cfg, Run(cfg, es[..|es| - 1]), es[|es| - 1], largest);
    }
  }

  lemma Room(cfg: Config, s: State, m: Msg)
    requires Inv(cfg, s) && m in s.held
    ensures |s.acks| < cfg.maxCount && |s.nacks| < cfg.maxCount
  {
    assert |s.held| > 0;
  }

  /** Whenever a callback can run there is room in both buffered channels: callbacks never block. */
  lemma CallbacksNeverBlock(cfg: Config, es: seq<Event>, m: Msg)
    requires Valid(cfg, es) && m in Run(cfg, es).held
    ensures |Run(cfg, es).acks| < cfg.maxCount && |Run(cfg, es).nacks| < cfg.maxCount
  {
    RunInv(cfg, es);
    Room(cfg, Run(cfg, es), m);
  }

  /** The loop does not stay paused for good: once nothing is on offer or held and the queues are
      drained, it reads again (if the limits allow anything at all). */
  lemma DrainedLoopReads(cfg: Config, es: seq<Event>)
    requires Valid(cfg, es) && cfg.maxSize > 0 && cfg.maxCount > 0
    requires var s := Run(cfg, es); s.running && Places(s) == multiset{}
    ensures Reading(cfg, Run(cfg, es))
  {
    RunInv(cfg, es);
  }

  // ---------------------------------------------------------------- progress is always possible

  /** The run `es` can go on to the state `t`. */
  ghost predicate Leads(cfg: Config, es: seq<Event>, t: State) {
    exists more: seq<Event> :: Valid(cfg, es + more) && Run(cfg, es + more) == t
  }

  lemma LeadsNow(cfg: Config, es: seq<Event>)
    requires Valid(cfg, es)
    ensures Leads(cfg, es, Run(cfg, es))
  {
    assert es + [] == es;
    assert Valid(cfg, es + []) && Run(cfg, es + []) == Run(cfg, es);
  }

  lemma LeadsOn(cfg: Config, es: seq<Event>, s: State, e: Event) returns (t: State)
    requires Leads(cfg, es, s) && Enabled(cfg, s, e)
    ensures t == Apply(s, e) && Leads(cfg, es, t)
  {
    hide Apply;
    var more :| Valid(cfg, es + more) && Run(cfg, es + more) == s;
    var all := es + (more + [e]);
    assert all[..|all| - 1] == es + more && all[|all| - 1] == e;
    t := Apply(s, e);
    assert Valid(cfg, all) && Run(cfg, all) == t;
  }

  /** The way that the messages still have to go. */
  function ToGo(s: State): nat {
    4 * |s.nacks| + (if s.out.Some? then 3 else 0) + 2 * |s.held| + |s.acks|
  }

  lemma {:induction false} DrainFrom(cfg: Config, es: seq<Event>, s: State) returns (t: State)
    requires Leads(cfg, es, s) && s.running
    ensures Leads(cfg, es, t) && t.running && t.read == s.read
    ensures t.out.None? && t.held == multiset{} && t.acks == [] && t.nacks == []
    decreases ToGo(s)
  {
    hide Leads;
    if s.out.Some? {
      t := LeadsOn(cfg, es, s, Take);
      t := DrainFrom(cfg, es, t);
    } else if m :| m in s.held {
      t := LeadsOn(cfg, es, s, CallAck(m));
      assert |s.held - multiset{m}| == |s.held| - 1;
      t := DrainFrom(cfg, es, t);
    } else if s.acks != [] {
      t := LeadsOn(cfg, es, s, HandleAck);
      t := DrainFrom(cfg, es, t);
    } else if s.nacks != [] {
      t := LeadsOn(cfg, es, s, HandleNack);
      t := DrainFrom(cfg, es, t);
    } else {
      t := s;
      assert t.held == multiset{};
    }
  }

  /** From every reachable state in which the loop has not returned, however often messages were nacked, it can
      still happen that every message read is acked and released; and then the loop reads another one, which can
      be nacked, offered again and acked. */
  lemma CanAckAll(cfg: Config, es: seq<Event>, n: nat)
    requires Valid(cfg, es) && Run(cfg, es).running && cfg.maxSize > 0 && cfg.maxCount > 0
    ensures exists t :: Leads(cfg, es, t) && t.running && Done(t) &&
                        t.read == Run(cfg, es).read + [Msg(|Run(cfg, es).read|, n)]
  {
    hide Leads, Run, Valid, Inv;
    LeadsNow(cfg, es);
    var t := DrainFrom(cfg, es, Run(cfg, es));
    Released(cfg, es, t);
    t := LeadsOn(cfg, es, t, Read(n));
    var m := t.out.value;
    t := LeadsOn(cfg, es, t, Take);
    t := LeadsOn(cfg, es, t, CallNack(m));
    t := LeadsOn(cfg, es, t, HandleNack);
    assert t.out == Some(m);
    t := DrainFrom(cfg, es, t);
    Released(cfg, es, t);
  }

  /** Every message read was acked and is no longer accounted for. */
  ghost predicate Done(s: State) {
    Places(s) == multiset{} && multiset(s.acked) == multiset(s.read) && s.count == 0 && s.size == 0
  }

  lemma Released(cfg: Config, es: seq<Event>, t: State)
    requires Leads(cfg, es, t)
    requires t.out.None? && t.held == multiset{} && t.acks == [] && t.nacks == []
    ensures Done(t)
  {
    var more :| Valid(cfg, es + more) && Run(cfg, es + more) == t;
    hide Valid, Run;
    RunInv(cfg, es + more);
    assert Places(t) == multiset{};
  }

  // ---------------------------------------------------------------- the loop

  class Loop {
    const cfg: Config
    var size: int
    var count: int
    var acks: seq<Msg>
    var nacks: seq<Msg>
    var out: Option<Msg>
    var running: bool
    ghost var held: multiset<Msg>
    var read: seq<Msg>
    ghost var acked: seq<Msg>
    ghost var released: multiset<Msg>

    ghost function View(): State
      reads this
    {
      State(out, held, acks, nacks, size, count, running, read, acked, released)
    }

    ghost predicate Sound()
      reads this
    {
      Inv(cfg, View())
    }

    constructor (maxSize: int, maxCount: nat)
      ensures Sound() && View() == Init() && cfg == Config(maxSize, maxCount)
    {
      cfg := Config(maxSize, maxCount);
      size, count, acks, nacks, out, running := 0, 0, [], [], None, true;
      held, read, acked, released := multiset{}, [], [], multiset{};
    }

    /** Whether the next select includes the input channel: exactly while fewer than maxCount messages of
        less than maxSize bytes in all are pending. */
    method OptIn() returns (reading: bool)
      requires Sound()
      ensures reading <==> |Places(View())| < cfg.maxCount && Bytes(Places(View())) < cfg.maxSize
    {
      hide Bytes, Places;
      if size >= cfg.maxSize || count >= cfg.maxCount {
        reading := false;
      } else {
        reading := true;
      }
    }

    method SelectIn(n: nat)
      requires Sound() && Reading(cfg, View())
      modifies this
      ensures Sound() && View() == Apply(old(View()), Read(n))
    {
      hide Inv;
      StepInv(cfg, View(), Read(n));
      var m := Msg(|read|, n);
      read := read + [m];
      size := size + n;
      count := count + 1;
      out := Some(m);
    }

    method SelectAck()
      requires Sound() && Enabled(cfg, View(), HandleAck)
      modifies this
      ensures Sound() && View() == Apply(old(View()), HandleAck)
    {
      hide Inv;
      StepInv(cfg, View(), HandleAck);
      var sm := acks[0];
      acks := acks[1..];
      size := size - sm.size;
      count := count - 1;
      released := released + multiset{sm};
    }

    method SelectNack()
      requires Sound() && Enabled(cfg, View(), HandleNack)
      modifies this
      ensures Sound() && View() == Apply(old(View()), HandleNack)
    {
      hide Inv;
      StepInv(cfg, View(), HandleNack);
      out := Some(nacks[0]);
      nacks := nacks[1..];
    }

    /** The communicator receives the offered message from `out`. */
    method Deliver() returns (m: Msg)
      requires Sound() && out.Some?
      modifies this
      ensures Sound() && View() == Apply(old(View()), Take) && Some(m) == old(out)
    {
      hide Inv;
      StepInv(cfg, View(), Take);
      m := out.value;
      out := None;
      held := held + multiset{m};
    }

    /** The Ack callback; there is always room in the channel. */
    method Ack(m: Msg)
      requires Sound() && m in held
      modifies this
      ensures Sound() && View() == Apply(old(View()), CallAck(m))
      ensures |old(acks)| < cfg.maxCount
    {
      hide Inv;
      Room(cfg, View(), m);
      StepInv(cfg, View(), CallAck(m));
      acked := acked + [m];
      acks := acks + [m];
      held := held - multiset{m};
    }

    method Nack(m: Msg)
      requires Sound() && m in held
      modifies this
      ensures Sound() && View() == Apply(old(View()), CallNack(m))
      ensures |old(nacks)| < cfg.maxCount
    {
      hide Inv;
      Room(cfg, View(), m);
      StepInv(cfg, View(), CallNack(m));
      nacks := nacks + [m];
      held := held - multiset{m};
    }

    /** One thing happens. Input is looked at only when `OptIn` says so. */
    method Turn(e: Event)
      requires Sound() && Enabled(cfg, View(), e)
      modifies this
      ensures Sound() && View() == Apply(old(View()), e)
    {
      hide Inv, Apply, Bytes, Places;
      match e {
        case Read(n) =>
          Pending(cfg, View());
          var reading := OptIn();
          assert reading;
          SelectIn(n);
        case Close => SelectClosed();
        case Take => var m := Deliver();
        case CallAck(m) => Ack(m);
        case CallNack(m) => Nack(m);
        case HandleAck => SelectAck();
        case HandleNack => SelectNack();
      }
    }

    /** The whole loop together with its surroundings, for any sequence of things that can happen. */
    method SelectLoop(es: seq<Event>)
      requires Sound() && View() == Init() && Valid(cfg, es)
      modifies this
      ensures Sound() && View() == Run(cfg, es)
    {
      hide Inv, Apply, Enabled;
      Prefixes(cfg, es, 0);
      assert es[..0] == [];
      for k := 0 to |es|
        invariant Valid(cfg, es[..k]) && Sound() && View() == Run(cfg, es[..k])
      {
        Prefixes(cfg, es, k + 1);
        assert es[..k + 1][..k] == es[..k];
        Turn(es[k]);
      }
      assert es[..|es|] == es;
    }

    method SelectClosed()
      requires Sound() && Enabled(cfg, View(), Close)
      modifies this
      ensures Sound() && View() == Apply(old(View()), Close)
    {
      hide Inv;
      StepInv(cfg, View(), Close);
      running := false;
    }
  }

  lemma Pending(cfg: Config, s: State)
    requires Inv(cfg, s)
    ensures s.count == |Places(s)| && s.size == Bytes(Places(s))
  {
  }

  lemma {:induction false} Prefixes(cfg: Config, es: seq<Event>, n: nat)
    requires Valid(cfg, es) && n <= |es|
    ensures Valid(cfg, es[..n])
  {
    if n < |es| {
      Prefixes(cfg, es[..|es| - 1], n);
      assert es[..|es| - 1][..n] == es[..n];
    } else {
      assert es[..n] == es;
    }
  }
}
