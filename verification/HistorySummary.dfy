/** The imperative part of fleetspeak/src/admin/history/history.go, proved against the counts of
    `ContactHistory`.
 */
module HistorySummary {
  import opened Sums
  import opened Options
  import opened ContactHistory
  import opened Sequences

  // ---------------------------------------------------------------- sorting by time

  /** The effect of `sort.Sort`: with distinct timestamps every sorting algorithm gives this result. */
  function InsertByTime(c: Contact, cs: seq<Contact>): (r: seq<Contact>)
    ensures multiset(r) == multiset(cs) + multiset{c}
  {
    if cs == [] then [c]
    else if TsLess(c.time, cs[0].time) then [c] + cs
    else
      assert cs == [cs[0]] + cs[1..];
      [cs[0]] + InsertByTime(c, cs[1..])
  }

  function SortByTime(cs: seq<Contact>): (r: seq<Contact>)
    ensures multiset(r) == multiset(cs) && |r| == |cs|
  {
    if cs == [] then []
    else
      assert cs == [cs[0]] + cs[1..];
      InsertByTime(cs[0], SortByTime(cs[1..]))
  }

  lemma InMultiset(cs: seq<Contact>, ds: seq<Contact>)
    requires multiset(cs) == multiset(ds)
    ensures |cs| == |ds| && forall c :: c in cs <==> c in ds
  {
    assert |multiset(cs)| == |multiset(ds)|;
    forall c
      ensures c in cs <==> c in ds
    {
      assert c in cs <==> c in multiset(cs);
      assert c in ds <==> c in multiset(ds);
    }
  }

  lemma {:induction false} InsertSorted(c: Contact, cs: seq<Contact>)
    requires Sorted(cs) && forall d <- cs :: d.time != c.time
    ensures Sorted(InsertByTime(c, cs))
  {
    if cs != [] && !TsLess(c.time, cs[0].time) {
      var tail := InsertByTime(c, cs[1..]);
      InsertSorted(c, cs[1..]);
      InMultiset(tail, cs[1..] + [c]);
      forall d <- tail
        ensures TsLess(cs[0].time, d.time)
      {
        assert d in cs[1..] + [c];
        assert cs[0] in cs;
      }
    }
  }

  lemma {:induction false} SortSorted(cs: seq<Contact>)
    requires DistinctData(cs)
    ensures Sorted(SortByTime(cs))
  {
    if cs != [] {
      assert forall i :: 0 <= i < |cs[1..]| ==> cs[1..][i] == cs[i + 1];
      SortSorted(cs[1..]);
      InMultiset(SortByTime(cs[1..]), cs[1..]);
      InsertSorted(cs[0], SortByTime(cs[1..]));
    }
  }

  /** Two sorted arrangements of the same contacts are equal. */
  lemma {:induction false} SortUnique(cs: seq<Contact>, ds: seq<Contact>)
    requires Sorted(cs) && Sorted(ds) && multiset(cs) == multiset(ds)
    ensures cs == ds
  {
    InMultiset(cs, ds);
    if cs != [] {
      SameFirst(cs, ds);
      TailMultiset(cs);
      TailMultiset(ds);
      assert Sorted(cs[1..]) && Sorted(ds[1..]);
      hide Sorted;
      SortUnique(cs[1..], ds[1..]);
      assert cs == [cs[0]] + cs[1..] && ds == [ds[0]] + ds[1..];
    }
  }

  lemma SameFirst(cs: seq<Contact>, ds: seq<Contact>)
    requires Sorted(cs) && Sorted(ds) && cs != [] && ds != [] && cs[0] in ds && ds[0] in cs
    ensures cs[0] == ds[0]
  {
  }

  lemma TailMultiset(cs: seq<Contact>)
    requires cs != []
    ensures multiset(cs[1..]) == multiset(cs) - multiset{cs[0]}
  {
    assert cs == [cs[0]] + cs[1..];
  }

  lemma SentsDistinct(cs: seq<Contact>, ds: seq<Contact>)
    requires multiset(cs) == multiset(ds) && DistinctData(cs) && Sorted(ds)
    ensures DistinctData(ds)
  {
    InMultiset(cs, ds);
    forall i, j | 0 <= i < j < |ds|
      ensures ds[i].time != ds[j].time && ds[i].sent != ds[j].sent
    {
      assert ds[i] in cs && ds[j] in cs;
      var k :| 0 <= k < |cs| && cs[k] == ds[i];
      var l :| 0 <= l < |cs| && cs[l] == ds[j];
      assert TsLess(ds[i].time, ds[j].time);
      assert k != l;
    }
  }

  // ---------------------------------------------------------------- validate

  /** The values UnixNano gives for the contacts. */
  ghost function TimesOf(cs: seq<Contact>): set<int> {
    set c | c in cs :: UnixNano(c.time)
  }

  /** One more contact is fine exactly when its timestamp is valid and neither its nanoseconds nor its nonce
      have been seen. */
  lemma OneMoreValid(cs: seq<Contact>, c: Contact)
    requires DistinctData(cs) && DistinctNanos(cs)
    ensures DistinctData(cs + [c]) && DistinctNanos(cs + [c])
       <==> TsValid(c.time) && UnixNano(c.time) !in TimesOf(cs) && c.sent !in SentNonces(cs)
    ensures TimesOf(cs + [c]) == TimesOf(cs) + {UnixNano(c.time)}
    ensures SentNonces(cs + [c]) == SentNonces(cs) + {c.sent}
  {
    hide UnixNano, TsValid;
    var ds := cs + [c];
    assert ds[|cs|] == c && c in ds;
    forall i | 0 <= i < |cs|
      ensures ds[i] == cs[i] && ds[i] in cs
    {
    }
    if DistinctData(ds) && DistinctNanos(ds) {
      forall d <- cs
        ensures UnixNano(d.time) != UnixNano(c.time) && d.sent != c.sent
      {
        var i :| 0 <= i < |cs| && cs[i] == d;
        assert ds[i] == d;
      }
    }
  }

  lemma {:induction false} PrefixValid(cs: seq<Contact>, n: nat)
    requires n <= |cs| && DistinctData(cs) && DistinctNanos(cs)
    ensures DistinctData(cs[..n]) && DistinctNanos(cs[..n])
  {
  }

  method Validate(cs: seq<Contact>) returns (r: Result)
    ensures r.Empty? || r.Err?
    ensures r.Empty? <==> DistinctData(cs) && DistinctNanos(cs)
  {
    hide UnixNano, TsValid, DistinctData, DistinctNanos;
    var times: set<int> := {};
    var nonces: set<nat> := {};
    assert DistinctData([]) && DistinctNanos([]) by {
      NothingValid();
    }
    assert cs[..0] == [];
    for i := 0 to |cs|
      invariant DistinctData(cs[..i]) && DistinctNanos(cs[..i])
      invariant times == TimesOf(cs[..i]) && nonces == SentNonces(cs[..i])
    {
      var c := cs[i];
      assert cs[..i + 1] == cs[..i] + [c];
      OneMoreValid(cs[..i], c);
      if DistinctData(cs) && DistinctNanos(cs) {
        PrefixValid(cs, i + 1);
      }
      if !TsValid(c.time) {
        return Err(BadTimestamp);
      }
      if UnixNano(c.time) in times {
        return Err(DuplicateTimestamp);
      }
      times := times + {UnixNano(c.time)};
      if c.sent in nonces {
        return Err(DuplicateNonce);
      }
      nonces := nonces + {c.sent};
    }
    assert cs[..|cs|] == cs;
    r := Empty;
  }

  lemma NothingValid()
    ensures DistinctData([]) && DistinctNanos([])
  {
  }

  // ---------------------------------------------------------------- the nonce map

  /** A map from sent nonces to the contacts of `cs`, each of which sends its own key. */
  ghost predicate IsNonceMap(nm: map<nat, Contact>, cs: seq<Contact>) {
    && nm.Keys == SentNonces(cs)
    && (forall c <- cs :: nm[c.sent] == c)
  }

  method NonceMap(cs: seq<Contact>) returns (nm: map<nat, Contact>)
    requires DistinctData(cs)
    ensures IsNonceMap(nm, cs)
  {
    nm := map[];
    for i := 0 to |cs|
      invariant nm.Keys == SentNonces(cs[..i])
      invariant forall c <- cs[..i] :: nm[c.sent] == c
    {
      assert cs[..i + 1] == cs[..i] + [cs[i]];
      assert forall j :: 0 <= j < i ==> cs[..i][j] == cs[j];
      nm := nm[cs[i].sent := cs[i]];
    }
    assert cs[..|cs|] == cs;
  }

  method ValidateTime(nm: map<nat, Contact>, ghost cs: seq<Contact>) returns (ok: bool)
    requires IsNonceMap(nm, cs)
    ensures ok <==> References(cs)
  {
    var todo := nm.Keys;
    ok := true;
    while todo != {}
      invariant todo <= nm.Keys
      invariant forall k <- nm.Keys - todo ::
        nm[k].recv != 0 && nm[k].recv in nm ==> TsLess(nm[nm[k].recv].time, nm[k].time)
    {
      var k :| k in todo;
      var i := nm[k];
      if i.recv != 0 && i.recv in nm && !TsLess(nm[i.recv].time, i.time) {
        assert k in SentNonces(cs) && i.recv in SentNonces(cs);
        return false;
      }
      todo := todo - {k};
    }
    forall c, p | c in cs && p in cs && c.recv != 0 && p.sent == c.recv
      ensures TsLess(p.time, c.time)
    {
      assert c.sent in nm.Keys && p.sent in nm.Keys && nm[c.sent] == c && nm[p.sent] == p;
    }
  }

  // ---------------------------------------------------------------- counting

  /** The keys counted more than once. */
  ghost function Above1(m: map<nat, nat>): set<nat> {
    set k | k in m && m[k] > 1
  }

  method CountSkips(cs: seq<Contact>) returns (s: nat)
    ensures s == Skips(cs)
  {
    s := 0;
    var i := 1;
    while i < |cs|
      invariant 1 <= i && (i <= |cs| || cs == [])
      invariant if cs == [] then s == 0 else s == Skips(cs[..i])
    {
      PrefixStep({}, cs, i + 1);
      if cs[i].recv != cs[i - 1].sent {
        s := s + 1;
      }
      i := i + 1;
    }
    assert cs[..|cs|] == cs;
  }

  /** Go's `ts[t]++`. */
  function Bump(ts: map<nat, nat>, t: nat): map<nat, nat> {
    ts[t := (if t in ts then ts[t] else 0) + 1]
  }

  /** `order` lists exactly the contacts of `cs` whose nonce is not in `todo`, once each. */
  ghost predicate Visited(cs: seq<Contact>, todo: set<nat>, order: seq<Contact>) {
    && (forall c :: c in order <==> c in cs && c.sent !in todo)
    && NoDup(order)
  }

  lemma VisitOne(cs: seq<Contact>, todo: set<nat>, order: seq<Contact>, c: Contact)
    requires Visited(cs, todo, order) && c in cs && c.sent in todo
    requires forall d <- cs :: d.sent == c.sent ==> d == c
    ensures Visited(cs, todo - {c.sent}, order + [c])
  {
    assert c !in order;
  }

  /** The first loop of `countSplits`: how many contacts target each nonce. The map is visited in an
      arbitrary order, recorded in `order`. */
  method CountTargets(nm: map<nat, Contact>, ghost cs: seq<Contact>)
      returns (ts: map<nat, nat>, ghost order: seq<Contact>)
    requires IsNonceMap(nm, cs) && DistinctData(cs)
    ensures |order| == |cs| && Visited(cs, {}, order)
    ensures Tallied(nm.Keys, ts, order)
  {
    ts, order := map[], [];
    TalliedNone(nm.Keys);
    SentsCard(cs);
    var todo := nm.Keys;
    VisitedNone(cs);
    assert |nm.Keys| == |cs| && Visited(cs, nm.Keys, []);
    hide *;
    while todo != {}
      invariant todo <= nm.Keys
      invariant Visited(cs, todo, order)
      invariant |order| + |todo| == |nm.Keys|
      invariant Tallied(nm.Keys, ts, order)
    {
      var k :| k in todo;
      var c := nm[k];
      NonceMapEntry(nm, cs, k);
      VisitOne(cs, todo, order, c);
      TallyOne(nm.Keys, ts, order, c);
      ts := Bump(ts, Target(nm.Keys, c));
      order := order + [c];
      assert |todo - {k}| == |todo| - 1;
      todo := todo - {c.sent};
    }
  }

  lemma NonceMapEntry(nm: map<nat, Contact>, cs: seq<Contact>, k: nat)
    requires IsNonceMap(nm, cs) && k in nm
    ensures nm[k] in cs && nm[k].sent == k && forall d <- cs :: d.sent == k ==> d == nm[k]
  {
    assert k in SentNonces(cs);
  }

  lemma VisitedNone(cs: seq<Contact>)
    ensures Visited(cs, SentNonces(cs), [])
  {
  }

  lemma TalliedNone(sents: set<nat>)
    ensures Tallied(sents, map[], [])
  {
  }

  lemma {:induction false} SentsCard(cs: seq<Contact>)
    requires forall i, j :: 0 <= i < j < |cs| ==> cs[i].sent != cs[j].sent
    ensures |SentNonces(cs)| == |cs|
  {
    if cs != [] {
      var n := |cs| - 1;
      SentsCard(cs[..n]);
      assert cs == cs[..n] + [cs[n]];
      assert SentNonces(cs) == SentNonces(cs[..n]) + {cs[n].sent};
    }
  }

  ghost predicate Tallied(sents: set<nat>, ts: map<nat, nat>, order: seq<Contact>) {
    && ts.Keys == Targets(sents, order)
    && Total(ts) == |order|
    && (forall t <- ts :: ts[t] > 0)
    && Above1(ts) == Repeated(sents, order)
  }

  lemma Above1Insert(ts: map<nat, nat>, t: nat)
    requires forall k <- ts :: ts[k] > 0
    ensures Above1(Bump(ts, t)) == Above1(ts) + if t in ts then {t} else {}
  {
  }

  lemma RepeatedAppend(sents: set<nat>, order: seq<Contact>, c: Contact)
    ensures Targets(sents, order + [c]) == Targets(sents, order) + {Target(sents, c)}
    ensures Repeated(sents, order + [c])
         == Repeated(sents, order) + if Target(sents, c) in Targets(sents, order) then {Target(sents, c)} else {}
  {
    var more := order + [c];
    assert more[..|more| - 1] == order;
    TargetsAppend(sents, more);
  }

  lemma TallyOne(sents: set<nat>, ts: map<nat, nat>, order: seq<Contact>, c: Contact)
    requires Tallied(sents, ts, order)
    ensures var t := Target(sents, c);
            Tallied(sents, Bump(ts, t), order + [c])
  {
    var t := Target(sents, c);
    RepeatedAppend(sents, order, c);
    TotalInsert(ts, t, if t in ts then ts[t] + 1 else 1);
    assert Bump(ts, t) == ts[t := if t in ts then ts[t] + 1 else 1];
    Above1Insert(ts, t);
  }

  lemma RemoveTally(m: map<nat, nat>, k: nat)
    requires k in m
    ensures |m - {k}| == |m| - 1
    ensures |Above1(m)| == |Above1(m - {k})| + if m[k] > 1 then 1 else 0
  {
    assert (m - {k}).Keys == m.Keys - {k};
    assert k !in Above1(m - {k});
    if m[k] > 1 {
      assert Above1(m) == Above1(m - {k}) + {k};
    } else {
      assert Above1(m) == Above1(m - {k});
    }
  }

  method CountSplits(nm: map<nat, Contact>, ghost cs: seq<Contact>) returns (splits: nat, splitPoints: nat)
    requires IsNonceMap(nm, cs) && DistinctData(cs)
    ensures splits == Splits(cs) && splitPoints == SplitPoints(cs)
  {
    ghost var order;
    var ts;
    ts, order := CountTargets(nm, cs);
    splits, splitPoints := 0, 0;
    var rest := ts;
    while rest != map[]
      invariant forall t <- rest :: rest[t] > 0
      invariant splits + Total(rest) - |rest| == Total(ts) - |ts|
      invariant splitPoints + |Above1(rest)| == |Above1(ts)|
      decreases |rest|
    {
      var k :| k in rest;
      var t := rest[k];
      TotalRemove(rest, k);
      RemoveTally(rest, k);
      if t > 1 {
        splitPoints := splitPoints + 1;
        splits := splits + t - 1;
      }
      rest := rest - {k};
    }
    SameCounts(nm.Keys, cs, order);
  }

  /** The counts do not depend on the order in which the contacts are visited. */
  lemma SameCounts(sents: set<nat>, cs: seq<Contact>, ds: seq<Contact>)
    requires forall c :: c in ds <==> c in cs
    requires NoDup(cs) && NoDup(ds)
    ensures Targets(sents, ds) == Targets(sents, cs)
    ensures Repeated(sents, ds) == Repeated(sents, cs)
  {
    forall t
      ensures t in Repeated(sents, cs) ==> t in Repeated(sents, ds)
      ensures t in Repeated(sents, ds) ==> t in Repeated(sents, cs)
    {
      RepeatedMeaning(sents, cs, t);
      RepeatedMeaning(sents, ds, t);
      RepeatedTransfer(sents, cs, ds, t);
      RepeatedTransfer(sents, ds, cs, t);
    }
  }

  lemma RepeatedTransfer(sents: set<nat>, cs: seq<Contact>, ds: seq<Contact>, t: nat)
    requires NoDup(cs) && forall c <- cs :: c in ds
    ensures t in Repeated(sents, cs) ==> t in Repeated(sents, ds)
  {
    RepeatedMeaning(sents, cs, t);
    RepeatedMeaning(sents, ds, t);
    if t in Repeated(sents, cs) {
      var i, j :| 0 <= i < j < |cs| && Target(sents, cs[i]) == t && Target(sents, cs[j]) == t;
      assert cs[i] in ds && cs[j] in ds;
      var k :| 0 <= k < |ds| && ds[k] == cs[i];
      var l :| 0 <= l < |ds| && ds[l] == cs[j];
      assert k != l;
      assert Target(sents, ds[if k < l then k else l]) == t && Target(sents, ds[if k < l then l else k]) == t;
    }
  }

  // ---------------------------------------------------------------- hosts

  /** The different hosts observed; addresses that cannot be parsed are ignored. */
  function Hosts(cs: seq<Contact>): set<string> {
    set c | c in cs && c.host.Some? :: c.host.value
  }

  method CountIPs(cs: seq<Contact>) returns (n: nat)
    ensures n == |Hosts(cs)|
  {
    var m: set<string> := {};
    for i := 0 to |cs|
      invariant m == Hosts(cs[..i])
    {
      assert cs[..i + 1] == cs[..i] + [cs[i]];
      if cs[i].host.Some? {
        m := m + {cs[i].host.value};
      }
    }
    assert cs[..|cs|] == cs;
    n := |m|;
  }

  // ---------------------------------------------------------------- Summarize

  lemma ReferencesPermuted(cs: seq<Contact>, ds: seq<Contact>)
    requires multiset(cs) == multiset(ds)
    ensures References(cs) <==> References(ds)
  {
    InMultiset(cs, ds);
  }

  /** Sorts the contacts in place and summarizes them; a history is accepted exactly when its
      timestamps are valid and distinct, even to UnixNano, its nonces distinct and no contact references
      the future. */
  method Summarize(a: array<Contact>) returns (r: Result)
    modifies a
    ensures multiset(a[..]) == multiset(old(a[..]))
    ensures r.Empty? <==> a.Length == 0
    ensures r.Ok? <==> a.Length > 0 && DistinctData(old(a[..])) && DistinctNanos(old(a[..])) && References(old(a[..]))
    ensures r.Ok? ==> Accepted(a[..])
    ensures r.Ok? ==> r.summary == Summary(a[0].time, a[a.Length - 1].time, a.Length, |Hosts(a[..])|,
                                           Splits(a[..]), SplitPoints(a[..]), Skips(a[..]))
  {
    r := Validate(a[..]);
    if r.Err? || a.Length == 0 {
      assert a.Length == 0 ==> DistinctData(a[..]);
      return;
    }
    ghost var before := a[..];
    var sorted := SortByTime(a[..]);
    forall i | 0 <= i < a.Length {
      a[i] := sorted[i];
    }
    assert a[..] == sorted;
    SortSorted(before);
    SentsDistinct(before, sorted);
    ReferencesPermuted(before, sorted);

    var nm := NonceMap(a[..]);
    var ok := ValidateTime(nm, a[..]);
    if !ok {
      return Err(FutureReference);
    }
    var splits, splitPoints := CountSplits(nm, a[..]);
    var skips := CountSkips(a[..]);
    var ips := CountIPs(a[..]);
    r := Ok(Summary(a[0].time, a[a.Length - 1].time, a.Length, ips, splits, splitPoints, skips));
  }
}
