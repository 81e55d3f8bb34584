/** Contact history analysis, fleetspeak/src/admin/history/history.go: Splits, SplitPoints and Skips.

    A contact is a node of a graph: it is named by the nonce the server sent, and references the nonce
    the client reported.
 */
module ContactHistory {
  import opened Options

  datatype Timestamp = Timestamp(seconds: int, nanos: int)

  /** `host` is the host part of the observed address, if that can be parsed. */
  datatype Contact = Contact(time: Timestamp, sent: nat, recv: nat, host: Option<string>)

  datatype Summary = Summary(start: Timestamp, end: Timestamp, count: nat, ipCount: nat, splits: int, splitPoints: nat,
                             skips: nat)

  datatype Error = BadTimestamp | DuplicateTimestamp | DuplicateNonce | FutureReference
  datatype Result = Empty | Ok(summary: Summary) | Err(error: Error)

  predicate TsLess(a: Timestamp, b: Timestamp) {
    a.seconds < b.seconds || (a.seconds == b.seconds && a.nanos < b.nanos)
  }

  /** From year 1 to year 9999. */
  predicate TsValid(t: Timestamp) {
    -62_135_596_800 <= t.seconds <= 253_402_300_799 && 0 <= t.nanos < 1_000_000_000
  }

  /** Nanoseconds since 1970. */
  function Nanos(t: Timestamp): int {
    t.seconds * 1_000_000_000 + t.nanos
  }

  const TWO63: int := 0x8000_0000_0000_0000
  const TWO64: int := 0x1_0000_0000_0000_0000

  /** The int64 that arithmetic with wrap-around gives. */
  function Int64(x: int): int {
    (x + TWO63) % TWO64 - TWO63
  }

  /** UnixNano of the time package. */
  function UnixNano(t: Timestamp): int {
    Int64(Nanos(t))
  }

  /** From 1677 to 2262 the nanoseconds fit. */
  predicate FitsInt64(t: Timestamp) {
    -TWO63 <= Nanos(t) < TWO63
  }

  lemma TsLessIsNanos(a: Timestamp, b: Timestamp)
    requires TsValid(a) && TsValid(b)
    ensures TsLess(a, b) <==> Nanos(a) < Nanos(b)
    ensures a == b <==> Nanos(a) == Nanos(b)
  {
  }

  /** UnixNano confuses exactly the timestamps that lie a multiple of 2^64 ns apart, which is 584 years. */
  lemma UnixNanoEqualIff(a: Timestamp, b: Timestamp)
    ensures UnixNano(a) == UnixNano(b) <==> (Nanos(a) - Nanos(b)) % TWO64 == 0
  {
    var x, y := Nanos(a) + TWO63, Nanos(b) + TWO63;
    assert x == x / TWO64 * TWO64 + x % TWO64 && y == y / TWO64 * TWO64 + y % TWO64;
    var q := x / TWO64 - y / TWO64;
    var d := x - y;
    assert d == q * TWO64 + (x % TWO64 - y % TWO64);
    assert d == d / TWO64 * TWO64 + d % TWO64;
  }

  // ---------------------------------------------------------------- what is counted

  function SentNonces(cs: seq<Contact>): set<nat> {
    set c <- cs :: c.sent
  }

  /** The nonce a contact targets; anything that is not in the history is too old and becomes 0. */
  function Target(sents: set<nat>, c: Contact): nat {
    if c.recv == 0 || c.recv !in sents then 0 else c.recv
  }

  /** The distinct targets of `cs`, relative to a history that sends the nonces `sents`. */
  function Targets(sents: set<nat>, cs: seq<Contact>): set<nat> {
    set c <- cs :: Target(sents, c)
  }

  /** Splits: the number of references in excess of one per target. */
  function Splits(cs: seq<Contact>): int {
    |cs| - |Targets(SentNonces(cs), cs)|
  }

  /** The targets that more than one contact references. */
  function Repeated(sents: set<nat>, cs: seq<Contact>): set<nat> {
    if cs == [] then {}
    else
      var before, t := cs[..|cs| - 1], Target(sents, cs[|cs| - 1]);
      Repeated(sents, before) + if t in Targets(sents, before) then {t} else {}
  }

  /** SplitPoints: the number of targets with more than one reference. */
  function SplitPoints(cs: seq<Contact>): nat {
    |Repeated(SentNonces(cs), cs)|
  }

  predicate SkipAt(cs: seq<Contact>, i: nat)
    requires 1 <= i < |cs|
  {
    cs[i].recv != cs[i - 1].sent
  }

  /** Skips: the contacts that do not reference the contact immediately before them. */
  function Skips(cs: seq<Contact>): nat {
    if |cs| <= 1 then 0
    else Skips(cs[..|cs| - 1]) + if SkipAt(cs, |cs| - 1) then 1 else 0
  }

  /** The skips that target a nonce which no earlier contact targets. */
  function FreshSkips(sents: set<nat>, cs: seq<Contact>): nat {
    if |cs| <= 1 then 0
    else
      var n := |cs| - 1;
      FreshSkips(sents, cs[..n]) +
      if SkipAt(cs, n) && Target(sents, cs[n]) !in Targets(sents, cs[..n]) then 1 else 0
  }

  // ---------------------------------------------------------------- histories that are accepted

  ghost predicate DistinctData(cs: seq<Contact>) {
    && (forall c <- cs :: TsValid(c.time))
    && (forall i, j :: 0 <= i < j < |cs| ==> cs[i].time != cs[j].time && cs[i].sent != cs[j].sent)
  }

  /** No two timestamps are the same to UnixNano. */
  ghost predicate DistinctNanos(cs: seq<Contact>) {
    forall i, j :: 0 <= i < j < |cs| ==> UnixNano(cs[i].time) != UnixNano(cs[j].time)
  }

  /** For valid and distinct data this is so exactly when no two timestamps lie a multiple of 2^64 ns apart. */
  lemma DistinctNanosIff(cs: seq<Contact>)
    ensures DistinctNanos(cs)
       <==> forall i, j :: 0 <= i < j < |cs| ==> (Nanos(cs[i].time) - Nanos(cs[j].time)) % TWO64 != 0
  {
    hide UnixNano, Nanos;
    forall i, j | 0 <= i < j < |cs|
      ensures UnixNano(cs[i].time) == UnixNano(cs[j].time) <==> (Nanos(cs[i].time) - Nanos(cs[j].time)) % TWO64 == 0
    {
      UnixNanoEqualIff(cs[i].time, cs[j].time);
    }
  }

  /** ... and always between 1677 and 2262. */
  lemma DistinctInRange(cs: seq<Contact>)
    requires DistinctData(cs) && forall c <- cs :: FitsInt64(c.time)
    ensures DistinctNanos(cs)
  {
    forall i, j | 0 <= i < j < |cs|
      ensures UnixNano(cs[i].time) != UnixNano(cs[j].time)
    {
      assert cs[i] in cs && cs[j] in cs;
      TsLessIsNanos(cs[i].time, cs[j].time);
      InRange(cs[i].time);
      InRange(cs[j].time);
    }
  }

  lemma InRange(t: Timestamp)
    requires FitsInt64(t)
    ensures UnixNano(t) == Nanos(t)
  {
  }

  /** Two contacts whose nanoseconds differ by 2^64. */
  lemma Apart(a: Timestamp, b: Timestamp)
    requires a == Timestamp(0, 0) && b == Timestamp(18_446_744_073, 709_551_616)
    ensures TsValid(a) && TsValid(b) && TsLess(a, b) && UnixNano(a) == UnixNano(b)
  {
    hide UnixNano;
    assert Nanos(a) == 0 && Nanos(b) == TWO64;
    UnixNanoEqualIff(b, a);
  }

  /** A history with two valid, different timestamps that UnixNano confuses, and otherwise in order. */
  lemma NanosWrap(a: Contact, b: Contact)
    requires a == Contact(Timestamp(0, 0), 1, 0, None)
    requires b == Contact(Timestamp(18_446_744_073, 709_551_616), 2, 1, None)
    ensures Accepted([a, b]) && !DistinctNanos([a, b])
  {
    hide UnixNano, Nanos, TsValid, TsLess;
    Apart(a.time, b.time);
    var cs := [a, b];
    assert cs[0] == a && cs[1] == b;
    assert forall c <- cs :: c == a || c == b;
    assert UnixNano(cs[0].time) == UnixNano(cs[1].time);
  }

  ghost predicate Sorted(cs: seq<Contact>) {
    forall i, j :: 0 <= i < j < |cs| ==> TsLess(cs[i].time, cs[j].time)
  }

  /** No contact references itself or a later one. */
  ghost predicate References(cs: seq<Contact>) {
    forall c, p :: c in cs && p in cs && c.recv != 0 && p.sent == c.recv ==> TsLess(p.time, c.time)
  }

  /** What Summarize accepts once it is sorted, and a little more: see `DistinctNanos`. */
  ghost predicate Accepted(cs: seq<Contact>) {
    DistinctData(cs) && Sorted(cs) && References(cs)
  }

  /** No contact reports the nonce 0 right after the server sent it. */
  ghost predicate NoZeroEcho(cs: seq<Contact>) {
    forall i :: 1 <= i < |cs| && cs[i - 1].sent == 0 ==> SkipAt(cs, i)
  }

  // ---------------------------------------------------------------- the inequality

  lemma TargetsAppend(sents: set<nat>, cs: seq<Contact>)
    requires cs != []
    ensures Targets(sents, cs) == Targets(sents, cs[..|cs| - 1]) + {Target(sents, cs[|cs| - 1])}
  {
    var n := |cs| - 1;
    assert cs == cs[..n] + [cs[n]];
  }

  /** A contact that follows its predecessor is the first to target it. */
  lemma FollowerIsFresh(all: seq<Contact>, k: nat)
    requires Accepted(all) && 1 <= k < |all| && !SkipAt(all, k) && all[k].recv != 0
    ensures Target(SentNonces(all), all[k]) !in Targets(SentNonces(all), all[..k])
  {
    var sents := SentNonces(all);
    var prev := all[k - 1];
    assert prev in all;
    assert prev.sent in sents;
    forall i | 0 <= i < k
      ensures Target(sents, all[i]) != prev.sent
    {
      assert all[i] in all;
      assert all[i].recv == prev.sent ==> TsLess(prev.time, all[i].time);
    }
  }

  lemma PrefixStep(sents: set<nat>, all: seq<Contact>, k: nat)
    requires 2 <= k <= |all|
    ensures Skips(all[..k]) == Skips(all[..k - 1]) + if SkipAt(all, k - 1) then 1 else 0
    ensures FreshSkips(sents, all[..k]) == FreshSkips(sents, all[..k - 1]) +
              if SkipAt(all, k - 1) && Target(sents, all[k - 1]) !in Targets(sents, all[..k - 1]) then 1 else 0
    ensures Targets(sents, all[..k]) == Targets(sents, all[..k - 1]) + {Target(sents, all[k - 1])}
  {
    assert all[..k][..k - 1] == all[..k - 1];
    TargetsAppend(sents, all[..k]);
  }

  ghost predicate FollowersFresh(sents: set<nat>, cs: seq<Contact>) {
    forall i :: 1 <= i < |cs| && !SkipAt(cs, i) ==> Target(sents, cs[i]) !in Targets(sents, cs[..i])
  }

  lemma {:induction false} PrefixCount(sents: set<nat>, all: seq<Contact>, k: nat)
    requires FollowersFresh(sents, all) && 1 <= k <= |all|
    ensures |Targets(sents, all[..k])| == k - Skips(all[..k]) + FreshSkips(sents, all[..k])
  {
    hide *;
    if k == 1 {
      PrefixBase(sents, all);
    } else {
      PrefixCount(sents, all, k - 1);
      PrefixStep(sents, all, k);
      CardAdd(Targets(sents, all[..k - 1]), Target(sents, all[k - 1]));
      if !SkipAt(all, k - 1) {
        FollowerFresh(sents, all, k - 1);
      }
    }
  }

  lemma PrefixBase(sents: set<nat>, all: seq<Contact>)
    requires all != []
    ensures Skips(all[..1]) == FreshSkips(sents, all[..1]) == 0 && |Targets(sents, all[..1])| == 1
  {
    assert Targets(sents, all[..1]) == {Target(sents, all[0])};
  }

  lemma FollowerFresh(sents: set<nat>, cs: seq<Contact>, i: nat)
    requires FollowersFresh(sents, cs) && 1 <= i < |cs| && !SkipAt(cs, i)
    ensures Target(sents, cs[i]) !in Targets(sents, cs[..i])
  {
  }

  lemma CardAdd(s: set<nat>, x: nat)
    ensures |s + {x}| == |s| + if x in s then 0 else 1
  {
    if x in s {
      assert s + {x} == s;
    }
  }

  /** Exact relation: every skip is a split, except those to a nonce that nothing targeted before. */
  lemma SplitsExactly(cs: seq<Contact>)
    requires Accepted(cs) && NoZeroEcho(cs)
    ensures Splits(cs) == Skips(cs) - FreshSkips(SentNonces(cs), cs)
  {
    var sents := SentNonces(cs);
    forall i | 1 <= i < |cs| && !SkipAt(cs, i)
      ensures Target(sents, cs[i]) !in Targets(sents, cs[..i])
    {
      FollowerIsFresh(cs, i);
    }
    if cs != [] {
      PrefixCount(sents, cs, |cs|);
      assert cs[..|cs|] == cs;
    } else {
      assert Targets(sents, cs) == {};
    }
  }

  lemma {:induction false} TargetsAtMost(sents: set<nat>, cs: seq<Contact>)
    ensures |Targets(sents, cs)| <= |cs|
  {
    if cs != [] {
      TargetsAppend(sents, cs);
      TargetsAtMost(sents, cs[..|cs| - 1]);
    }
  }

  lemma {:induction false} RepeatedMeaning(sents: set<nat>, cs: seq<Contact>, t: nat)
    ensures t in Repeated(sents, cs)
       <==> exists i, j :: 0 <= i < j < |cs| && Target(sents, cs[i]) == t && Target(sents, cs[j]) == t
  {
    if cs != [] {
      var n := |cs| - 1;
      var before := cs[..n];
      RepeatedMeaning(sents, before, t);
      if t == Target(sents, cs[n]) && t in Targets(sents, before) {
        var i :| 0 <= i < n && Target(sents, before[i]) == t;
        assert cs[i] == before[i];
      }
      if i, j :| 0 <= i < j < |cs| && Target(sents, cs[i]) == t && Target(sents, cs[j]) == t {
        TargetMember(sents, before, i);
        if j < n {
          assert Target(sents, before[i]) == t && Target(sents, before[j]) == t;
        }
      }
    }
  }

  /** Every split point accounts for at least one split. */
  lemma {:induction false} RepeatedAtMost(sents: set<nat>, cs: seq<Contact>)
    ensures |Targets(sents, cs)| + |Repeated(sents, cs)| <= |cs|
  {
    if cs != [] {
      var before, t := cs[..|cs| - 1], Target(sents, cs[|cs| - 1]);
      RepeatedAtMost(sents, before);
      TargetsAppend(sents, cs);
      CardAdd(Targets(sents, before), t);
      CardAdd(Repeated(sents, before), t);
    }
  }

  lemma SplitPointsAtMostSplits(cs: seq<Contact>)
    ensures SplitPoints(cs) <= Splits(cs)
  {
    RepeatedAtMost(SentNonces(cs), cs);
  }

  /** "Skips > Splits" is a meaningful signal: with nonzero nonces there are never more splits. */
  lemma SplitsAtMostSkips(cs: seq<Contact>)
    requires Accepted(cs) && forall c <- cs :: c.sent != 0
    ensures 0 <= Splits(cs) <= Skips(cs)
  {
    SplitsExactly(cs);
    TargetsAtMost(SentNonces(cs), cs);
  }

  // ---------------------------------------------------------------- the role of nonzero nonces

  /** The same contacts with other reported nonces. */
  function Reporting(cs: seq<Contact>, recv: seq<nat>): (r: seq<Contact>)
    requires |recv| == |cs|
    ensures |r| == |cs|
  {
    seq(|cs|, i requires 0 <= i < |cs| => cs[i].(recv := recv[i]))
  }

  lemma ReportingKeeps(cs: seq<Contact>, recv: seq<nat>)
    requires |recv| == |cs| && DistinctData(cs) && Sorted(cs)
    ensures DistinctData(Reporting(cs, recv)) && Sorted(Reporting(cs, recv))
  {
    var r := Reporting(cs, recv);
    forall c <- r
      ensures TsValid(c.time)
    {
      var i :| 0 <= i < |r| && r[i] == c;
      assert cs[i] in cs;
    }
  }

  /** The faithful client: every contact reports the nonce sent by the one before. */
  function Echoes(cs: seq<Contact>): seq<nat> {
    seq(|cs|, i requires 0 <= i < |cs| => if i == 0 then 0 else cs[i - 1].sent)
  }

  lemma EchoesReference(cs: seq<Contact>, i: nat, j: nat)
    requires Sorted(cs) && i < |cs| && j < |cs|
    requires forall k, l :: 0 <= k < l < |cs| ==> cs[k].sent != cs[l].sent
    requires Echoes(cs)[i] != 0 && Echoes(cs)[i] == cs[j].sent
    ensures TsLess(cs[j].time, cs[i].time)
  {
    assert cs[i - 1].sent == cs[j].sent;
  }

  lemma EchoesAccepted(cs: seq<Contact>)
    requires DistinctData(cs) && Sorted(cs)
    ensures Accepted(Reporting(cs, Echoes(cs)))
  {
    var r := Reporting(cs, Echoes(cs));
    ReportingKeeps(cs, Echoes(cs));
    forall c, p | c in r && p in r && c.recv != 0 && p.sent == c.recv
      ensures TsLess(p.time, c.time)
    {
      var i :| 0 <= i < |r| && r[i] == c;
      var j :| 0 <= j < |r| && r[j] == p;
      EchoesReference(cs, i, j);
    }
  }

  lemma {:induction false} EchoesNeverSkip(cs: seq<Contact>, k: nat)
    requires k <= |cs|
    ensures Skips(Reporting(cs, Echoes(cs))[..k]) == 0
  {
    if k > 1 {
      EchoesNeverSkip(cs, k - 1);
      PrefixStep({}, Reporting(cs, Echoes(cs)), k);
    }
  }

  /** Two contacts with the same target make a split. */
  lemma SharedTarget(sents: set<nat>, cs: seq<Contact>, i: nat, j: nat)
    requires i < j < |cs| && Target(sents, cs[i]) == Target(sents, cs[j])
    ensures |Targets(sents, cs)| < |cs|
  {
    var rest := cs[..j] + cs[j + 1..];
    assert cs == cs[..j] + [cs[j]] + cs[j + 1..];
    assert rest[i] == cs[i];
    assert Targets(sents, cs) == Targets(sents, rest);
    TargetsAtMost(sents, rest);
  }

  /** A nonce 0 that is not the last makes the faithful client split without a skip. */
  lemma ZeroNonceSplits(cs: seq<Contact>, j: nat)
    requires DistinctData(cs) && Sorted(cs) && j + 1 < |cs| && cs[j].sent == 0
    ensures Splits(Reporting(cs, Echoes(cs))) > Skips(Reporting(cs, Echoes(cs)))
  {
    var r := Reporting(cs, Echoes(cs));
    EchoesNeverSkip(cs, |cs|);
    assert r[..|cs|] == r;
    SharedTarget(SentNonces(r), r, 0, j + 1);
  }

  /** For given nonces sent by the server, no client behaviour produces more splits than skips exactly
      when none of them but possibly the last is 0. */
  lemma NonzeroNoncesExactly(cs: seq<Contact>)
    requires DistinctData(cs) && Sorted(cs)
    ensures (forall recv: seq<nat> :: |recv| == |cs| && Accepted(Reporting(cs, recv)) ==>
               Splits(Reporting(cs, recv)) <= Skips(Reporting(cs, recv)))
       <==> (forall i :: 0 <= i < |cs| - 1 ==> cs[i].sent != 0)
  {
    if i :| 0 <= i < |cs| - 1 && cs[i].sent == 0 {
      ZeroNonceSplits(cs, i);
      EchoesAccepted(cs);
    } else {
      forall recv: seq<nat> | |recv| == |cs| && Accepted(Reporting(cs, recv))
        ensures Splits(Reporting(cs, recv)) <= Skips(Reporting(cs, recv))
      {
        var r := Reporting(cs, recv);
        assert forall i :: 0 <= i < |r| ==> r[i].sent == cs[i].sent;
        SplitsExactly(r);
      }
    }
  }

  // ---------------------------------------------------------------- one machine with restores

  /** One contact of a machine, possibly preceded by a restore to a nonce it held before. */
  datatype Move = Move(restore: Option<nat>, time: Timestamp, sent: nat, host: Option<string>)

  /** The nonce reported at move `i` by a machine that first held `first`. */
  function Reported(first: nat, ms: seq<Move>, i: nat): nat
    requires i < |ms|
  {
    if ms[i].restore.Some? then ms[i].restore.value
    else if i == 0 then first
    else ms[i - 1].sent
  }

  function Contacts(first: nat, ms: seq<Move>): (cs: seq<Contact>)
    ensures |cs| == |ms|
  {
    seq(|ms|, i requires 0 <= i < |ms| => Contact(ms[i].time, ms[i].sent, Reported(first, ms, i), ms[i].host))
  }

  function Restores(ms: seq<Move>): nat {
    if ms == [] then 0 else Restores(ms[..|ms| - 1]) + if ms[|ms| - 1].restore.Some? then 1 else 0
  }

  /** The server's nonces are fresh and nonzero, time passes, and every restore goes back to a nonce
      that the machine has already reported. */
  ghost predicate OneMachine(first: nat, ms: seq<Move>) {
    && (forall m <- ms :: TsValid(m.time) && m.sent != 0 && m.sent != first)
    && (forall i, j :: 0 <= i < j < |ms| ==> TsLess(ms[i].time, ms[j].time) && ms[i].sent != ms[j].sent)
    && (forall i :: 0 <= i < |ms| && ms[i].restore.Some? ==>
          exists j :: 0 <= j < i && ms[i].restore.value == Reported(first, ms, j))
  }

  /** Everything reported is the first nonce or was sent strictly earlier. */
  lemma {:induction false} ReportedEarlier(first: nat, ms: seq<Move>, i: nat)
    requires OneMachine(first, ms) && i < |ms|
    ensures Reported(first, ms, i) == first || exists j :: 0 <= j < i && Reported(first, ms, i) == ms[j].sent
    decreases i
  {
    if ms[i].restore.Some? {
      var j :| 0 <= j < i && ms[i].restore.value == Reported(first, ms, j);
      ReportedEarlier(first, ms, j);
    }
  }

  lemma MachineAccepted(first: nat, ms: seq<Move>)
    requires OneMachine(first, ms)
    ensures Accepted(Contacts(first, ms))
    ensures forall c <- Contacts(first, ms) :: c.sent != 0
    ensures (forall m <- ms :: FitsInt64(m.time)) ==> DistinctNanos(Contacts(first, ms))
  {
    MachineConsistent(first, ms);
    var cs := Contacts(first, ms);
    if forall m <- ms :: FitsInt64(m.time) {
      forall c <- cs
        ensures FitsInt64(c.time)
      {
        var i :| 0 <= i < |cs| && cs[i] == c;
        assert ms[i] in ms;
      }
      DistinctInRange(cs);
    }
  }

  lemma MachineConsistent(first: nat, ms: seq<Move>)
    requires OneMachine(first, ms)
    ensures Accepted(Contacts(first, ms))
    ensures forall c <- Contacts(first, ms) :: c.sent != 0
  {
    var cs := Contacts(first, ms);
    forall i | 0 <= i < |cs|
      ensures TsValid(cs[i].time) && cs[i].sent != 0
    {
      assert ms[i] in ms;
    }
    forall c, p | c in cs && p in cs && c.recv != 0 && p.sent == c.recv
      ensures TsLess(p.time, c.time)
    {
      var i :| 0 <= i < |cs| && cs[i] == c;
      var j :| 0 <= j < |cs| && cs[j] == p;
      ReportedEarlier(first, ms, i);
      assert ms[j] in ms && cs[j].sent == ms[j].sent;
      var k :| 0 <= k < i && cs[i].recv == ms[k].sent;
      assert ms[k].sent == ms[j].sent;
    }
  }

  /** A contact that follows a restore skips, and another contact targeted the same nonce before. */
  lemma RestoreSkips(first: nat, ms: seq<Move>, i: nat)
    requires OneMachine(first, ms) && 1 <= i < |ms| && ms[i].restore.Some?
    ensures ms[i].restore.value != ms[i - 1].sent
    ensures exists j :: 0 <= j < i && Reported(first, ms, i) == Reported(first, ms, j)
  {
    var j :| 0 <= j < i && ms[i].restore.value == Reported(first, ms, j);
    ReportedEarlier(first, ms, j);
    assert ms[i - 1] in ms;
  }

  lemma TargetMember(sents: set<nat>, cs: seq<Contact>, j: nat)
    requires j < |cs|
    ensures Target(sents, cs[j]) in Targets(sents, cs)
  {
    assert cs[j] in cs;
  }

  lemma RestoreTarget(first: nat, ms: seq<Move>, i: nat, sents: set<nat>)
    requires OneMachine(first, ms) && 1 <= i < |ms| && ms[i].restore.Some?
    ensures Target(sents, Contacts(first, ms)[i]) in Targets(sents, Contacts(first, ms)[..i])
  {
    var cs := Contacts(first, ms);
    RestoreSkips(first, ms, i);
    var j :| 0 <= j < i && Reported(first, ms, i) == Reported(first, ms, j);
    TargetMember(sents, cs[..i], j);
    assert cs[j].recv == cs[i].recv;
  }

  lemma MachineStep(first: nat, ms: seq<Move>, k: nat, sents: set<nat>)
    requires OneMachine(first, ms) && 1 <= k < |ms|
    ensures SkipAt(Contacts(first, ms), k) <==> ms[k].restore.Some?
    ensures SkipAt(Contacts(first, ms), k) ==>
              Target(sents, Contacts(first, ms)[k]) in Targets(sents, Contacts(first, ms)[..k])
  {
    if ms[k].restore.Some? {
      RestoreSkips(first, ms, k);
      RestoreTarget(first, ms, k, sents);
    }
  }

  lemma RestoresStep(ms: seq<Move>, k: nat)
    requires 1 <= k <= |ms|
    ensures Restores(ms[..k]) == Restores(ms[..k - 1]) + if ms[k - 1].restore.Some? then 1 else 0
  {
    assert ms[..k][..k - 1] == ms[..k - 1];
  }

  lemma {:induction false} MachineCounts(first: nat, ms: seq<Move>, k: nat, sents: set<nat>)
    requires OneMachine(first, ms) && k <= |ms|
    ensures Skips(Contacts(first, ms)[..k]) == Restores(ms[..k])
    ensures FreshSkips(sents, Contacts(first, ms)[..k]) == 0
  {
    if k == 1 {
      PrefixBase(sents, Contacts(first, ms));
      assert ms[..1][..0] == [] && ms[0].restore.None?;
    } else if k > 1 {
      hide *;
      MachineCounts(first, ms, k - 1, sents);
      RestoresStep(ms, k);
      PrefixStep(sents, Contacts(first, ms), k);
      MachineStep(first, ms, k - 1, sents);
    }
  }

  /** The images that the machine was restored from: the nonces it held in them. */
  function Images(ms: seq<Move>): set<nat> {
    set m | m in ms && m.restore.Some? :: m.restore.value
  }

  /** The first nonce is too old to be known. */
  function ImageTarget(first: nat, v: nat): nat {
    if v == first then 0 else v
  }

  lemma ReportedTarget(first: nat, ms: seq<Move>, i: nat)
    requires OneMachine(first, ms) && i < |ms|
    ensures var cs := Contacts(first, ms);
            Target(SentNonces(cs), cs[i]) == ImageTarget(first, Reported(first, ms, i))
    ensures Reported(first, ms, i) != first ==> Reported(first, ms, i) != 0
  {
    var cs := Contacts(first, ms);
    ReportedEarlier(first, ms, i);
    if Reported(first, ms, i) == first {
      forall c <- cs
        ensures c.sent != first
      {
        var k :| 0 <= k < |cs| && cs[k] == c;
        assert ms[k] in ms;
      }
    } else {
      var j :| 0 <= j < i && Reported(first, ms, i) == ms[j].sent;
      assert cs[j] in cs && ms[j] in ms;
    }
  }

  /** A contact reports what an earlier one reported exactly after a restore. */
  lemma ReportedAgain(first: nat, ms: seq<Move>, i: nat, j: nat)
    requires OneMachine(first, ms) && i < j < |ms| && Reported(first, ms, i) == Reported(first, ms, j)
    ensures ms[j].restore.Some?
  {
    ReportedEarlier(first, ms, i);
    if ms[j].restore.None? {
      assert ms[j - 1] in ms;
    }
  }

  lemma RepeatedImages(first: nat, ms: seq<Move>, t: nat)
    requires OneMachine(first, ms)
    ensures var cs := Contacts(first, ms);
            t in Repeated(SentNonces(cs), cs) <==> exists v :: v in Images(ms) && ImageTarget(first, v) == t
  {
    hide Repeated, Reported, Target, Targets;
    var cs := Contacts(first, ms);
    var sents := SentNonces(cs);
    RepeatedMeaning(sents, cs, t);
    if t in Repeated(sents, cs) {
      var i, j :| 0 <= i < j < |cs| && Target(sents, cs[i]) == t && Target(sents, cs[j]) == t;
      ReportedTarget(first, ms, i);
      ReportedTarget(first, ms, j);
      ReportedAgain(first, ms, i, j);
      RestoredReports(first, ms, j);
      assert ms[j] in ms && ms[j].restore.value in Images(ms);
    }
    if v :| v in Images(ms) && ImageTarget(first, v) == t {
      var m :| m in ms && m.restore.Some? && m.restore.value == v;
      var j :| 0 <= j < |ms| && ms[j] == m;
      RestoredReports(first, ms, j);
      var i :| 0 <= i < j && Reported(first, ms, i) == v;
      ReportedTarget(first, ms, i);
      ReportedTarget(first, ms, j);
    }
  }

  lemma RestoredReports(first: nat, ms: seq<Move>, j: nat)
    requires OneMachine(first, ms) && j < |ms| && ms[j].restore.Some?
    ensures Reported(first, ms, j) == ms[j].restore.value
    ensures exists i :: 0 <= i < j && Reported(first, ms, i) == ms[j].restore.value
  {
  }

  /** One SplitPoint for every image that the machine was restored from. */
  lemma SplitPointPerImage(first: nat, ms: seq<Move>)
    requires OneMachine(first, ms)
    ensures SplitPoints(Contacts(first, ms)) == |Images(ms)|
  {
    hide Repeated, Target, Contacts, OneMachine, SentNonces;
    var cs := Contacts(first, ms);
    var repeated, images := Repeated(SentNonces(cs), cs), Images(ms);
    forall t
      ensures t in repeated <==> exists v :: v in images && ImageTarget(first, v) == t
    {
      RepeatedImages(first, ms, t);
    }
    forall v <- images
      ensures v != first ==> v != 0
    {
      ImageNonzero(first, ms, v);
    }
    hide *;
    SameSize(first, images, repeated);
    assert SplitPoints(cs) == |repeated| by {
      PointsAreRepeated(cs);
    }
  }

  lemma PointsAreRepeated(cs: seq<Contact>)
    ensures SplitPoints(cs) == |Repeated(SentNonces(cs), cs)|
  {
  }

  /** No two images have the same target. */
  lemma SameSize(first: nat, images: set<nat>, targets: set<nat>)
    requires forall t :: t in targets <==> exists v :: v in images && ImageTarget(first, v) == t
    requires forall v <- images :: v != first ==> v != 0
    ensures |targets| == |images|
  {
    if first in images {
      assert ImageTarget(first, first) == 0;
      forall t
        ensures t in targets <==> t in images - {first} + {0}
      {
        if t in images && t != first {
          assert ImageTarget(first, t) == t;
        }
      }
      assert targets == images - {first} + {0};
    } else {
      forall t
        ensures t in targets <==> t in images
      {
        if t in images {
          assert ImageTarget(first, t) == t;
        }
      }
      assert targets == images;
    }
  }

  lemma ImageNonzero(first: nat, ms: seq<Move>, v: nat)
    requires OneMachine(first, ms) && v in Images(ms)
    ensures v != first ==> v != 0
  {
    var m :| m in ms && m.restore.Some? && m.restore.value == v;
    var j :| 0 <= j < |ms| && ms[j] == m;
    RestoredReports(first, ms, j);
    var i :| 0 <= i < j && Reported(first, ms, i) == v;
    ReportedTarget(first, ms, i);
  }

  /** One machine with r restores: one split and one skip for every restore, and one split point for every
      image restored from. */
  lemma OneMachineCounts(first: nat, ms: seq<Move>)
    requires OneMachine(first, ms)
    ensures Splits(Contacts(first, ms)) == Skips(Contacts(first, ms)) == Restores(ms)
    ensures SplitPoints(Contacts(first, ms)) == |Images(ms)|
  {
    SplitPointPerImage(first, ms);
    SkipPerRestore(first, ms);
  }

  lemma SkipPerRestore(first: nat, ms: seq<Move>)
    requires OneMachine(first, ms)
    ensures Splits(Contacts(first, ms)) == Skips(Contacts(first, ms)) == Restores(ms)
  {
    var cs := Contacts(first, ms);
    MachineConsistent(first, ms);
    SplitsExactly(cs);
    MachineCounts(first, ms, |ms|, SentNonces(cs));
    assert cs[..|ms|] == cs && ms[..|ms|] == ms;
  }
}
