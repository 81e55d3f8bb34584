/** Bookkeeping for the contract of fleetspeak/src/client/comms/comms.go: once a MessageInfo is taken
    from the Outbox, exactly one of its Ack and Nack is called.

    Every MessageInfo has a number, given in the order they are taken. A ledger says where each one is;
    the lists that a communicator keeps must agree with it.
 */
module Ledger {
  import opened Sequences

  type Id = nat

  /** `l` lists exactly the messages at place `p`, once each. */
  ghost predicate At<P(!new)>(ledger: map<Id, P>, l: seq<Id>, p: P) {
    NoDup(l) && forall id :: id in l <==> id in ledger && ledger[id] == p
  }

  /** The ledger after the messages of `l` have moved to `q`. */
  function Move<P>(ledger: map<Id, P>, l: seq<Id>, q: P): map<Id, P> {
    map id | id in ledger :: if id in l then q else ledger[id]
  }

  ghost predicate Numbered<P(!new)>(ledger: map<Id, P>, taken: nat) {
    forall id: Id :: id in ledger <==> id < taken
  }

  /** Moving the whole of a place empties it. */
  lemma MoveAll<P(!new)>(ledger: map<Id, P>, l: seq<Id>, p: P, q: P)
    requires At(ledger, l, p) && p != q
    ensures At(Move(ledger, l, q), [], p)
  {
  }

  /** Moving the first message of a place leaves the others. */
  lemma MoveFirst<P(!new)>(ledger: map<Id, P>, l: seq<Id>, p: P, q: P)
    requires At(ledger, l, p) && p != q && l != []
    ensures At(Move(ledger, [l[0]], q), l[1..], p)
  {
    assert l == [l[0]] + l[1..];
    assert forall i :: 0 <= i < |l[1..]| ==> l[1..][i] == l[i + 1];
    assert l[0] !in l[1..];
  }

  /** The place moved to gets the messages moved. */
  lemma MoveIn<P(!new)>(ledger: map<Id, P>, l: seq<Id>, m: seq<Id>, p: P, q: P)
    requires NoDup(l) && (forall id <- l :: id in ledger && ledger[id] == p) && p != q && At(ledger, m, q)
    ensures At(Move(ledger, l, q), m + l, q)
  {
    var n := m + l;
    forall i, j | 0 <= i < j < |n|
      ensures n[i] != n[j]
    {
      if i < |m| <= j {
        assert n[i] in m && n[j] in l;
      }
    }
  }

  /** Other places are not affected. */
  lemma MoveOther<P(!new)>(ledger: map<Id, P>, l: seq<Id>, k: seq<Id>, p: P, q: P, r: P)
    requires (forall id <- l :: id in ledger && ledger[id] == p) && r != p && r != q && At(ledger, k, r)
    ensures At(Move(ledger, l, q), k, r)
  {
  }

  lemma MoveNumbered<P(!new)>(ledger: map<Id, P>, l: seq<Id>, q: P, taken: nat)
    requires Numbered(ledger, taken)
    ensures Numbered(Move(ledger, l, q), taken)
  {
  }

  lemma Here<P(!new)>(ledger: map<Id, P>, l: seq<Id>, p: P)
    requires At(ledger, l, p)
    ensures NoDup(l) && forall id <- l :: id in ledger && ledger[id] == p
    ensures l != [] ==> NoDup([l[0]]) && l[0] in ledger && ledger[l[0]] == p
  {
    if l != [] {
      assert l[0] in l;
    }
  }

  /** A message newly taken from the Outbox goes to place `p`. */
  lemma TakeIn<P(!new)>(ledger: map<Id, P>, taken: nat, l: seq<Id>, p: P)
    requires Numbered(ledger, taken) && At(ledger, l, p)
    ensures At(ledger[taken := p], l + [taken], p)
    ensures Numbered(ledger[taken := p], taken + 1)
  {
    assert taken !in l;
  }

  lemma TakeOther<P(!new)>(ledger: map<Id, P>, taken: nat, k: seq<Id>, p: P, r: P)
    requires Numbered(ledger, taken) && At(ledger, k, r) && r != p
    ensures At(ledger[taken := p], k, r)
  {
  }

  // ---------------------------------------------------------------- settled messages

  function Occurrences(l: seq<Id>, id: Id): nat {
    if l == [] then 0 else (if l[0] == id then 1 else 0) + Occurrences(l[1..], id)
  }

  lemma {:induction false} OccursOnce(l: seq<Id>, id: Id)
    requires NoDup(l)
    ensures Occurrences(l, id) == if id in l then 1 else 0
  {
    if l != [] {
      assert l == [l[0]] + l[1..];
      assert forall i, j :: 0 <= i < j < |l[1..]| ==> l[1..][i] == l[i + 1] && l[1..][j] == l[j + 1];
      OccursOnce(l[1..], id);
      assert l[0] !in l[1..];
    }
  }
}
