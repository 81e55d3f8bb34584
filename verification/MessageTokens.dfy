/** The per-service token maps: ConnectionInfo of fleetspeak/src/server/comms/comms.go, the use that
    findMessagesForClient in fleetspeak/src/server/comms.go makes of it, and the grants computed by
    MakeContactData in fleetspeak/src/client/comms.go.
 */
module MessageTokens {
  import opened FlowControl
  import M = MessageStore
  import opened Options

  type Service = M.Service
  type Tokens = map<Service, u64>

  const MAX_MESSAGES_PER_CONTACT: nat := 100

  function Get(t: Tokens, k: Service): u64 {
    if k in t then t[k] else 0
  }

  function Plus(t: Tokens, delta: Tokens): Tokens {
    map k | k in t.Keys + delta.Keys :: Add64(Get(t, k), Get(delta, k))
  }

  predicate Covers(t: Tokens, delta: Tokens) {
    forall k <- delta :: delta[k] <= Get(t, k)
  }

  function Minus(t: Tokens, delta: Tokens): Tokens {
    map k | k in t.Keys + delta.Keys :: Sub64(Get(t, k), Get(delta, k))
  }

  /** The addition does not wrap around for any service. */
  predicate Fits(t: Tokens, delta: Tokens) {
    forall k <- delta :: Get(t, k) + delta[k] < TWO64
  }

  function PlusAll(t: Tokens, deltas: seq<Tokens>): Tokens {
    if deltas == [] then t else Plus(PlusAll(t, deltas[..|deltas| - 1]), deltas[|deltas| - 1])
  }

  predicate AllFit(t: Tokens, deltas: seq<Tokens>) {
    deltas == [] ||
    (AllFit(t, deltas[..|deltas| - 1]) && Fits(PlusAll(t, deltas[..|deltas| - 1]), deltas[|deltas| - 1]))
  }

  /** Adding grants leaves at least the tokens there were exactly when no sum wraps around. */
  lemma PlusKeepsIff(t: Tokens, delta: Tokens)
    ensures Fits(t, delta) <==> forall k <- Plus(t, delta) :: Get(t, k) <= Get(Plus(t, delta), k)
  {
    if forall k <- Plus(t, delta) :: Get(t, k) <= Get(Plus(t, delta), k) {
      forall k <- delta
        ensures Get(t, k) + delta[k] < TWO64
      {
        assert k in Plus(t, delta);
      }
    }
  }

  /** A sum that wraps around takes tokens away, so that what was affordable may no longer be. */
  lemma WrapTakesAway(t: Tokens, delta: Tokens)
    requires t == map["s" := 1] && delta == map["s" := TWO64 - 1]
    ensures Covers(t, t) && !Covers(PlusAll(t, [delta]), t)
  {
    assert [delta][..0] == [];
    assert PlusAll(t, []) == t && PlusAll(t, [delta]) == Plus(t, delta);
    assert Get(Plus(t, delta), "s") == 0;
  }

  lemma {:induction false} PlusAllKeeps(t: Tokens, deltas: seq<Tokens>)
    requires AllFit(t, deltas)
    ensures forall k <- t :: k in PlusAll(t, deltas) && t[k] <= PlusAll(t, deltas)[k]
  {
    if deltas != [] {
      var before := PlusAll(t, deltas[..|deltas| - 1]);
      PlusAllKeeps(t, deltas[..|deltas| - 1]);
      PlusKeepsIff(before, deltas[|deltas| - 1]);
      assert forall k <- before :: k in Plus(before, deltas[|deltas| - 1]);
    }
  }

  /** What the maps do for one service is what the server does in the steps of `FlowControl`. */
  lemma PerService(t: Tokens, delta: Tokens, k: Service, s: State, i: nat)
    requires s.tokens == Get(t, k)
    ensures i < |s.grants| && s.grants[i] == Get(delta, k) ==> Apply(s, Arrive(i)).tokens == Get(Plus(t, delta), k)
    ensures Enabled(s, Spend(Get(delta, k))) ==> Apply(s, Spend(Get(delta, k))).tokens == Get(Minus(t, delta), k)
  {
  }

  // ---------------------------------------------------------------- charged messages

  /** Die messages to the system service are not charged. */
  predicate Special(messages: map<M.MessageId, M.Row>, die: set<M.MessageId>, id: M.MessageId) {
    id in die && id in messages && messages[id].service == "system"
  }

  /** The number of messages among `ids` charged to the service. */
  function Charged(messages: map<M.MessageId, M.Row>, die: set<M.MessageId>, ids: seq<M.MessageId>, svc: Service): nat {
    if ids == [] then 0
    else
      var id := ids[|ids| - 1];
      Charged(messages, die, ids[..|ids| - 1], svc) +
      (if id in messages && messages[id].service == svc && !Special(messages, die, id) then 1 else 0)
  }

  lemma {:induction false} ChargedAtMost(messages: map<M.MessageId, M.Row>, die: set<M.MessageId>,
                                         ids: seq<M.MessageId>, svc: Service)
    ensures Charged(messages, die, ids, svc) <= M.CountFor(messages, ids, svc)
    ensures Charged(messages, die, ids, svc) <= |ids|
  {
    if ids != [] {
      ChargedAtMost(messages, die, ids[..|ids| - 1], svc);
    }
  }

  /** Exactly the Die messages to the system service are free: every other service is charged for all its messages,
      and so is the system service for messages of other types. */
  lemma {:induction false} ChargedExactly(messages: map<M.MessageId, M.Row>, die: set<M.MessageId>,
                                          ids: seq<M.MessageId>, svc: Service)
    ensures svc != "system" || (forall id <- ids :: id !in die) ==>
              Charged(messages, die, ids, svc) == M.CountFor(messages, ids, svc)
    ensures (forall id <- ids :: id in die) ==> Charged(messages, die, ids, "system") == 0
  {
    if ids != [] {
      var before := ids[..|ids| - 1];
      assert ids == before + [ids[|ids| - 1]];
      ChargedExactly(messages, die, before, svc);
    }
  }

  // ---------------------------------------------------------------- the loops over a delta

  function Changed(x: u64, y: u64, add: bool): u64 {
    if add then Add64(x, y) else Sub64(x, y)
  }

  /** `t` is `was` with the changes `delta` made, except for the services in `todo`. */
  ghost predicate Partly(was: Tokens, delta: Tokens, todo: set<Service>, t: Tokens, add: bool) {
    && t.Keys == was.Keys + (delta.Keys - todo)
    && (forall k <- t :: k in todo || k !in delta ==> t[k] == Get(was, k))
    && (forall k <- delta :: k !in todo ==> k in t && t[k] == Changed(Get(was, k), delta[k], add))
  }

  lemma Begun(was: Tokens, delta: Tokens)
    ensures Partly(was, delta, delta.Keys, was, true) && Partly(was, delta, delta.Keys, was, false)
  {
  }

  lemma OneMore(was: Tokens, delta: Tokens, todo: set<Service>, t: Tokens, add: bool, k: Service)
    requires Partly(was, delta, todo, t, add) && k in todo && todo <= delta.Keys
    ensures Get(t, k) == Get(was, k)
    ensures Partly(was, delta, todo - {k}, t[k := Changed(Get(t, k), delta[k], add)], add)
  {
  }

  lemma Whole(was: Tokens, delta: Tokens, t: Tokens, add: bool)
    requires Partly(was, delta, {}, t, add)
    ensures t == if add then Plus(was, delta) else Minus(was, delta)
  {
    if add {
      assert t == Plus(was, delta);
    } else {
      assert t == Minus(was, delta);
    }
  }

  // ---------------------------------------------------------------- the server's object

  class ConnectionInfo {
    var messageTokens: Option<Tokens>

    ghost function Current(): Tokens
      reads this
    {
      if messageTokens.Some? then messageTokens.value else map[]
    }

    constructor ()
      ensures messageTokens == None
    {
      messageTokens := None;
    }

    /** A copy of the tokens. */
    method MessageTokens() returns (r: Option<Tokens>)
      ensures r == messageTokens
    {
      if messageTokens.None? {
        return None;
      }
      var t: Tokens := messageTokens.value;
      var todo: set<Service> := t.Keys;
      var copy: Tokens := map[];
      while todo != {}
        invariant todo <= t.Keys && copy.Keys == t.Keys - todo
        invariant forall k <- copy :: copy[k] == t[k]
        decreases |todo|
      {
        var k :| k in todo;
        copy := copy[k := t[k]];
        todo := todo - {k};
      }
      r := Some(copy);
      assert copy == t;
    }

    method AddMessageTokens(delta: Tokens)
      modifies this
      ensures messageTokens == Some(Plus(old(Current()), delta))
    {
      if messageTokens.None? {
        messageTokens := Some(map[]);
      }
      hide Partly;
      ghost var was := Current();
      Begun(was, delta);
      var t: Tokens := messageTokens.value;
      var todo: set<Service> := delta.Keys;
      while todo != {}
        invariant todo <= delta.Keys && Partly(was, delta, todo, t, true)
        decreases |todo|
      {
        var k :| k in todo;
        OneMore(was, delta, todo, t, true, k);
        t := t[k := Add64(Get(t, k), delta[k])];
        todo := todo - {k};
      }
      Whole(was, delta, t, true);
      messageTokens := Some(t);
    }

    /** Spends tokens. It is fatal exactly when there are not enough for some service. */
    method SubtractMessageTokens(delta: Tokens) returns (fatal: bool)
      requires messageTokens.Some?
      modifies this
      ensures fatal <==> !Covers(old(Current()), delta)
      ensures !fatal ==> messageTokens == Some(Minus(old(Current()), delta))
    {
      hide Partly;
      ghost var was := Current();
      Begun(was, delta);
      var t: Tokens := messageTokens.value;
      var todo: set<Service> := delta.Keys;
      while todo != {}
        invariant todo <= delta.Keys && Partly(was, delta, todo, t, false)
        invariant forall k <- delta :: k in todo || delta[k] <= Get(was, k)
        decreases |todo|
      {
        var k :| k in todo;
        OneMore(was, delta, todo, t, false, k);
        if delta[k] > Get(t, k) {
          return true;
        }
        t := t[k := Sub64(Get(t, k), delta[k])];
        todo := todo - {k};
      }
      Whole(was, delta, t, false);
      messageTokens := Some(t);
      fatal := false;
    }

    /** Grants added by other goroutines. */
    method AddAll(deltas: seq<Tokens>)
      modifies this
      ensures Current() == PlusAll(old(Current()), deltas)
      ensures old(messageTokens).Some? ==> messageTokens.Some?
    {
      for i := 0 to |deltas|
        invariant Current() == PlusAll(old(Current()), deltas[..i])
        invariant old(messageTokens).Some? ==> messageTokens.Some?
      {
        assert deltas[..i + 1][..i] == deltas[..i];
        AddMessageTokens(deltas[i]);
      }
      assert deltas[..|deltas|] == deltas;
    }

    /** findMessagesForClient, with the grants `meanwhile` that other goroutines add between the reading and
        the spending of the tokens. It is fatal exactly when these leave some service with fewer tokens than
        the messages found cost, which they can do only by wrapping around; otherwise what is spent is what
        the messages cost. */
    method FindMessages(ds: M.Datastore, dest: M.ClientId, clk: M.Clock, rows: seq<M.MessageId>,
                        die: set<M.MessageId>, meanwhile: seq<Tokens>) returns (res: seq<M.MessageId>, fatal: bool)
      requires M.IsQuery(ds.State(), dest, clk, rows)
      modifies this, ds
      ensures fatal <==> old(messageTokens).Some? && exists svc ::
                Charged(ds.messages, die, res, svc) > Get(PlusAll(old(Current()), meanwhile), svc)
      ensures AllFit(old(Current()), meanwhile) ==> !fatal
      ensures M.HandOutOk(old(ds.State()), dest, MAX_MESSAGES_PER_CONTACT, Limits(old(messageTokens)), clk.now, res)
      ensures old(messageTokens).Some? && !fatal ==> forall svc ::
                Get(Current(), svc) + Charged(ds.messages, die, res, svc) ==
                Get(PlusAll(old(Current()), meanwhile), svc)
    {
      hide M.IsQuery, M.HandOutOk, Charged, Plus, AllFit, PlusAll, Minus, Covers;
      var tokens := MessageTokens();
      res := ds.MessagesForProcessing(dest, MAX_MESSAGES_PER_CONTACT, Limits(tokens), clk, rows);
      AddAll(meanwhile);
      fatal := false;
      if tokens.Some? {
        Found(old(ds.State()), dest, tokens.value, clk, res, die);
        var cnts := CountCharged(ds.messages, die, res);
        ghost var before := Current();
        CoversIff(before, cnts);
        if AllFit(tokens.value, meanwhile) {
          Affordable(tokens.value, meanwhile, cnts);
        }
        fatal := SubtractMessageTokens(cnts);
        if !fatal {
          MinusGet(before, cnts);
        }
      }
    }
  }

  /** The tokens as limits of the datastore; none if the client never granted any. */
  function Limits(tokens: Option<Tokens>): Option<map<Service, nat>> {
    if tokens.Some? then Some(tokens.value) else None
  }

  lemma Found(s: M.Store, dest: M.ClientId, tokens: Tokens, clk: M.Clock, res: seq<M.MessageId>, die: set<M.MessageId>)
    requires M.HandOutOk(s, dest, MAX_MESSAGES_PER_CONTACT, Some(tokens), clk.now, res)
    ensures |res| <= MAX_MESSAGES_PER_CONTACT && forall id <- res :: id in s.messages
    ensures forall svc :: Charged(s.messages, die, res, svc) <= Get(tokens, svc)
  {
    hide M.CountFor, Charged;
    forall id <- res
      ensures id in s.messages
    {
      assert M.Due(s, dest, clk.now, id);
    }
    forall svc
      ensures Charged(s.messages, die, res, svc) <= Get(tokens, svc)
    {
      ChargedAtMost(s.messages, die, res, svc);
      assert M.CountFor(s.messages, res, svc) <= M.Allowance(tokens, svc);
    }
  }

  /** What the tokens allowed when they were read, they still allow after grants have been added. */
  lemma Affordable(tokens: Tokens, meanwhile: seq<Tokens>, cnts: Tokens)
    requires AllFit(tokens, meanwhile) && forall svc :: Get(cnts, svc) <= Get(tokens, svc)
    ensures Covers(PlusAll(tokens, meanwhile), cnts)
  {
    hide PlusAll, AllFit;
    PlusAllKeeps(tokens, meanwhile);
    forall k <- cnts
      ensures cnts[k] <= Get(PlusAll(tokens, meanwhile), k)
    {
      assert Get(cnts, k) <= Get(tokens, k);
    }
  }

  lemma CoversIff(t: Tokens, delta: Tokens)
    ensures Covers(t, delta) <==> forall k :: Get(delta, k) <= Get(t, k)
  {
    if forall k :: Get(delta, k) <= Get(t, k) {
      forall k <- delta
        ensures delta[k] <= Get(t, k)
      {
        assert Get(delta, k) <= Get(t, k);
      }
    }
  }

  lemma MinusGet(t: Tokens, delta: Tokens)
    requires Covers(t, delta)
    ensures forall k :: Get(Minus(t, delta), k) + Get(delta, k) == Get(t, k)
  {
  }

  method CountCharged(messages: map<M.MessageId, M.Row>, die: set<M.MessageId>, res: seq<M.MessageId>)
      returns (cnts: Tokens)
    requires |res| <= MAX_MESSAGES_PER_CONTACT && forall id <- res :: id in messages
    ensures forall svc :: Get(cnts, svc) == Charged(messages, die, res, svc)
  {
    cnts := map[];
    for i := 0 to |res|
      invariant forall svc :: Get(cnts, svc) == Charged(messages, die, res[..i], svc)
    {
      var id := res[i];
      assert res[..i + 1][..i] == res[..i];
      if !Special(messages, die, id) {
        var svc := messages[id].service;
        ChargedAtMost(messages, die, res[..i], svc);
        cnts := cnts[svc := Get(cnts, svc) + 1];
      }
    }
    assert res[..|res|] == res;
  }

  // ---------------------------------------------------------------- the client's object

  datatype Counters = Counters(accepted: u64, processed: u64)

  class ServiceConfiguration {
    var services: map<Service, Counters>

    constructor ()
      ensures services == map[]
    {
      services := map[];
    }

    /** The number of messages accepted and processed by each service. */
    method Counts() returns (am: Tokens, pm: Tokens)
      ensures am.Keys == services.Keys && pm.Keys == services.Keys
      ensures forall k <- services :: services[k] == Counters(am[k], pm[k])
    {
      am, pm := map[], map[];
      var todo: set<Service> := services.Keys;
      while todo != {}
        invariant todo <= services.Keys && am.Keys == services.Keys - todo && pm.Keys == services.Keys - todo
        invariant forall k <- am :: services[k] == Counters(am[k], pm[k])
        decreases |todo|
      {
        var k :| k in todo;
        am, pm := am[k := services[k].accepted], pm[k := services[k].processed];
        todo := todo - {k};
      }
    }

    /** The grants of MakeContactData, and the processed counts to be given to the next call as baseCount.
        A service that the previous contact did not know gets its free inbox places. */
    method MakeContactData(baseCount: Tokens) returns (allowed: Tokens, processed: Tokens)
      ensures allowed.Keys == services.Keys && processed.Keys == services.Keys
      ensures forall k <- services :: processed[k] == services[k].processed
      ensures forall k <- services :: k !in baseCount ==>
                allowed[k] == Grant(services[k].accepted, services[k].processed, None)
      ensures forall k <- services :: k in baseCount ==>
                allowed[k] == Grant(services[k].accepted, services[k].processed, Some(baseCount[k]))
    {
      hide Sub64;
      var am, pm := Counts();
      processed, allowed := pm, map[];
      var todo: set<Service> := am.Keys;
      while todo != {}
        invariant todo <= am.Keys && allowed.Keys == am.Keys - todo
        invariant forall k <- allowed :: k !in baseCount ==> allowed[k] == Grant(am[k], pm[k], None)
        invariant forall k <- allowed :: k in baseCount ==> allowed[k] == Grant(am[k], pm[k], Some(baseCount[k]))
        decreases |todo|
      {
        var k :| k in todo;
        var grant: u64;
        if k !in baseCount {
          grant := Sub64(INBOX_SIZE, Sub64(am[k], pm[k]));
        } else {
          grant := Sub64(pm[k], baseCount[k]);
        }
        allowed := allowed[k := grant];
        todo := todo - {k};
      }
    }
  }
}
