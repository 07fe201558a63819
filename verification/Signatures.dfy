/**
 The signature a settling poll watches for one tag: its records sorted by ticket id and then by
 `repr`, so that the order in which a store lists them does not look like a change.
 */
module Signatures {
  import opened HttpReadback
  import opened Sorting

  /** Python's `<=` on strings: lexicographic by code point. */
  predicate StringLeq(a: string, b: string) {
    a == [] || (b != [] && (a[0] < b[0] || (a[0] == b[0] && StringLeq(a[1..], b[1..]))))
  }

  lemma {:induction false} StringLeqTotal(a: string, b: string)
    ensures StringLeq(a, b) || StringLeq(b, a)
  {
    if a != [] && b != [] && a[0] == b[0] {
      StringLeqTotal(a[1..], b[1..]);
    }
  }

  lemma {:induction false} StringLeqAntisymmetric(a: string, b: string)
    requires StringLeq(a, b) && StringLeq(b, a)
    ensures a == b
  {
    if a != [] {
      StringLeqAntisymmetric(a[1..], b[1..]);
      assert a == [a[0]] + a[1..] && b == [b[0]] + b[1..];
    }
  }

  lemma {:induction false} StringLeqTransitive(a: string, b: string, c: string)
    requires StringLeq(a, b) && StringLeq(b, c)
    ensures StringLeq(a, c)
  {
    if a != [] && a[0] == b[0] == c[0] {
      StringLeqTransitive(a[1..], b[1..], c[1..]);
    }
  }

  predicate KeyLeq(a: Readback, b: Readback) {
    if a.ticketId == b.ticketId then StringLeq(a.repr, b.repr) else StringLeq(a.ticketId, b.ticketId)
  }

  lemma KeyLeqOrders(a: Readback, b: Readback, c: Readback)
    ensures KeyLeq(a, b) || KeyLeq(b, a)
    ensures KeyLeq(a, b) && KeyLeq(b, a) ==> a == b
    ensures KeyLeq(a, b) && KeyLeq(b, c) ==> KeyLeq(a, c)
  {
    StringLeqTotal(a.repr, b.repr);
    StringLeqTotal(a.ticketId, b.ticketId);
    if KeyLeq(a, b) && KeyLeq(b, a) {
      if a.ticketId == b.ticketId {
        StringLeqAntisymmetric(a.repr, b.repr);
      } else {
        StringLeqAntisymmetric(a.ticketId, b.ticketId);
      }
    }
    if KeyLeq(a, b) && KeyLeq(b, c) {
      if a.ticketId == b.ticketId == c.ticketId {
        StringLeqTransitive(a.repr, b.repr, c.repr);
      } else {
        if a.ticketId == b.ticketId || b.ticketId == c.ticketId {
        } else {
          StringLeqTransitive(a.ticketId, b.ticketId, c.ticketId);
        }
        if a.ticketId == c.ticketId {
          StringLeqAntisymmetric(a.ticketId, b.ticketId);
        }
      }
    }
  }

  function Signature(s: seq<Readback>): seq<Readback> {
    Sort(KeyLeq, s)
  }

  lemma KeysAreOrdered()
    ensures Linear(KeyLeq) && Antisymmetric(KeyLeq)
  {
    forall a, b
      ensures KeyLeq(a, b) || KeyLeq(b, a)
      ensures KeyLeq(a, b) && KeyLeq(b, a) ==> a == b
    {
      KeyLeqOrders(a, b, b);
    }
    forall a, b, c | KeyLeq(a, b) && KeyLeq(b, c)
      ensures KeyLeq(a, c)
    {
      KeyLeqOrders(a, b, c);
    }
  }

  /** Two answers have one signature exactly when they hold the same records, in any order. */
  lemma SameSignatureIffSameRecords(a: seq<Readback>, b: seq<Readback>)
    ensures Signature(a) == Signature(b) <==> multiset(a) == multiset(b)
    ensures Signature(a) == [] <==> a == []
  {
    KeysAreOrdered();
    SortForgetsOrder(KeyLeq, a, b);
    SortSorts(KeyLeq, a);
  }
}
