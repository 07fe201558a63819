/**
 What the intake pipeline promises about threads, over every order of arrival and any number of
 repeated deliveries, for mail whose References carry the full ancestry (section 3.6.4 of RFC 5322).
 */
module Threading {
  import opened Wrappers
  import opened Decimal
  import opened Intake

  type Universe = map<Id, Message>

  function Parent(m: Message): Id
    requires m.references != []
  {
    m.references[|m.references| - 1]
  }

  ghost predicate IsAck(id: Id) {
    exists n: nat :: id == AckId(n)
  }

  ghost predicate WellThreaded(u: Universe, id: Id)
    requires id in u
  {
    var m := u[id];
    && m.id == id && id != "" && !IsAck(id)
    && (m.references == [] ==> m.inReplyTo == [])
    && (m.references != [] ==>
      && Parent(m) in u
      && m.references == u[Parent(m)].references + [Parent(m)]
      && (m.inReplyTo == [] || m.inReplyTo == [Parent(m)]))
  }

  /** A forest of messages, each naming all its ancestors, root first. */
  ghost predicate Threads(u: Universe) {
    forall id {:trigger WellThreaded(u, id)} :: id in u ==> WellThreaded(u, id)
  }

  predicate RepliesTo(m: Message, id: Id) {
    m.references != [] && Parent(m) == id
  }

  // Ancestry

  lemma {:induction false} AncestryIsAPath(u: Universe, id: Id, k: nat)
    requires Threads(u) && id in u && k < |u[id].references|
    ensures u[id].references[k] in u
    ensures u[u[id].references[k]].references == u[id].references[..k]
    decreases |u[id].references|
  {
    var m := u[id];
    assert WellThreaded(u, id);
    var above := u[Parent(m)].references;
    if k < |m.references| - 1 {
      assert m.references[k] == above[k];
      AncestryIsAPath(u, Parent(m), k);
      assert m.references[..k] == above[..k];
    } else {
      assert m.references[..k] == above;
    }
  }

  lemma AncestorsAreDistinct(u: Universe, id: Id, j: nat, k: nat)
    requires Threads(u) && id in u && j < |u[id].references| && k < |u[id].references|
    requires u[id].references[j] == u[id].references[k]
    ensures j == k
  {
    AncestryIsAPath(u, id, j);
    AncestryIsAPath(u, id, k);
    assert |u[id].references[..j]| == j;
  }

  lemma NotItsOwnAncestor(u: Universe, id: Id)
    requires Threads(u) && id in u
    ensures id !in u[id].references
  {
    var path := u[id].references;
    forall k | 0 <= k < |path|
      ensures path[k] != id
    {
      AncestryIsAPath(u, id, k);
    }
  }

  // Nearest known ancestor

  /** Position k of `path` is known and nothing after it is. */
  ghost predicate Nearest(known: map<Id, string>, path: seq<Id>, k: int) {
    && 0 <= k < |path|
    && path[k] in known
    && forall j :: k < j < |path| ==> path[j] !in known
  }

  ghost predicate NoneKnown(known: map<Id, string>, path: seq<Id>) {
    forall j :: 0 <= j < |path| ==> path[j] !in known
  }

  lemma {:induction false} FirstKnownOfReverse(known: map<Id, string>, path: seq<Id>) returns (k: int)
    ensures FirstKnown(known, Reverse(path)).None? ==> NoneKnown(known, path)
    ensures FirstKnown(known, Reverse(path)).Some? ==>
      Nearest(known, path, k) && FirstKnown(known, Reverse(path)).value == known[path[k]]
  {
    k := |path| - 1;
    if path != [] {
      var rest := path[..|path| - 1];
      assert Reverse(path)[1..] == Reverse(rest);
      if path[|path| - 1] !in known {
        k := FirstKnownOfReverse(known, rest);
      }
    }
  }

  /** The code's search through In-Reply-To and reversed References finds the nearest known
      ancestor. */
  lemma FiledUnderNearest(u: Universe, known: map<Id, string>, id: Id) returns (k: int)
    requires Threads(u) && id in u
    ensures FirstKnown(known, Parents(u[id])).None? ==> NoneKnown(known, u[id].references)
    ensures FirstKnown(known, Parents(u[id])).Some? ==>
      && Nearest(known, u[id].references, k)
      && FirstKnown(known, Parents(u[id])).value == known[u[id].references[k]]
  {
    var m := u[id];
    assert WellThreaded(u, id);
    k := FirstKnownOfReverse(known, m.references);
    if m.inReplyTo == [] {
      assert Parents(m) == Reverse(m.references);
    } else {
      assert Parents(m)[0] == Parent(m) && Parents(m)[1..] == Reverse(m.references);
    }
  }

  // The invariant of every run

  ghost predicate Issued(count: nat, ticket: string) {
    exists n :: 1 <= n <= count && ticket == TicketName(n)
  }

  ghost predicate RecordAgrees(u: Universe, s: State, i: nat)
    requires i < |s.records|
  {
    var r := s.records[i];
    && r.message.id in u && r.message == u[r.message.id]
    && r.message.id in s.ticketOf && s.ticketOf[r.message.id] == r.ticket
    && Issued(s.tickets, r.ticket)
  }

  ghost predicate OneRecordEach(s: State) {
    forall i, j :: 0 <= i < j < |s.records| ==> s.records[i].message.id != s.records[j].message.id
  }

  function Received(s: State): set<Id> {
    set i | 0 <= i < |s.records| :: s.records[i].message.id
  }

  /** Every known id is a received message or one of the pipeline's own acknowledgements, and its
      ticket holds a record. */
  ghost predicate KnownIsFiled(s: State, k: Id)
    requires k in s.ticketOf
  {
    && (k in Received(s) || IsAck(k))
    && exists i :: 0 <= i < |s.records| && s.records[i].ticket == s.ticketOf[k]
  }

  ghost predicate Agrees(u: Universe, s: State) {
    && (forall i :: 0 <= i < |s.records| ==> RecordAgrees(u, s, i))
    && OneRecordEach(s)
    && (forall k :: k in s.ticketOf ==> KnownIsFiled(s, k))
  }

  ghost predicate WaitsForParent(s: State, p: Id)
    requires p in s.waiting
  {
    && p !in s.ticketOf
    && forall i :: i in s.waiting[p] ==>
      && i < |s.records|
      && RepliesTo(s.records[i].message, p)
  }

  ghost predicate Waits(s: State) {
    forall p :: p in s.waiting && s.waiting[p] != [] ==> WaitsForParent(s, p)
  }

  ghost predicate WithNearest(s: State, i: nat)
    requires i < |s.records|
  {
    var path := s.records[i].message.references;
    exists k :: Nearest(s.ticketOf, path, k) && s.ticketOf[path[k]] == s.records[i].ticket
  }

  /** A reply is either waiting for its parent or on the ticket of its nearest received ancestor. */
  ghost predicate Placed(s: State, i: nat)
    requires i < |s.records|
  {
    var path := s.records[i].message.references;
    path != [] ==>
      || i in Waiters(s.waiting, path[|path| - 1])
      || WithNearest(s, i)
  }

  ghost predicate AllPlaced(s: State) {
    forall i :: 0 <= i < |s.records| ==> Placed(s, i)
  }

  /** Records on one ticket carry one group. */
  ghost predicate Apart(s: State, group: Id -> Id) {
    forall i, j :: 0 <= i < |s.records| && 0 <= j < |s.records| && s.records[i].ticket == s.records[j].ticket
      ==> group(s.records[i].message.id) == group(s.records[j].message.id)
  }

  ghost predicate Inv(u: Universe, s: State, group: Id -> Id) {
    Agrees(u, s) && Waits(s) && AllPlaced(s) && Apart(s, group)
  }

  // One delivery

  /** The group of a message agrees with the ancestor it would be filed under now and with every
      received reply to it. */
  ghost predicate JoinsOwn(u: Universe, s: State, group: Id -> Id, id: Id)
    requires id in u
  {
    && (forall k :: Nearest(s.ticketOf, u[id].references, k) ==> group(u[id].references[k]) == group(id))
    && (forall i :: 0 <= i < |s.records| && RepliesTo(s.records[i].message, id)
          ==> group(s.records[i].message.id) == group(id))
  }

  /** What one delivery of a new message does, ticket by ticket. */
  ghost predicate Delivered(u: Universe, s: State, s': State, id: Id)
    requires id in u
  {
    var t := FiledTicket(s, u[id]);
    var merged := Orphaned(s, id);
    && |s'.records| == |s.records| + 1
    && (forall i :: 0 <= i < |s.records| ==>
          s'.records[i] == Record(Rename(merged, t, s.records[i].ticket), s.records[i].message))
    && s'.records[|s.records|] == Record(t, u[id])
    && id in s'.ticketOf && s'.ticketOf[id] == t
    && (forall k :: k in s.ticketOf && !IsAck(k) ==>
          k in s'.ticketOf && s'.ticketOf[k] == Rename(merged, t, s.ticketOf[k]))
    && (forall k :: k in s'.ticketOf ==>
          || k == id
          || (IsAck(k) && s'.ticketOf[k] == t)
          || (k in s.ticketOf && s'.ticketOf[k] == Rename(merged, t, s.ticketOf[k])))
    && s'.tickets == (if FirstKnown(s.ticketOf, Parents(u[id])).None? then s.tickets + 1 else s.tickets)
    && s'.waiting == File(s, u[id]).waiting - {id}
  }

  lemma ParentsAreNotSelf(u: Universe, id: Id)
    requires Threads(u) && id in u && Parents(u[id]) != []
    ensures u[id].references != [] && Parents(u[id])[0] == Parent(u[id]) && Parent(u[id]) != id
  {
    assert WellThreaded(u, id);
    NotItsOwnAncestor(u, id);
    var m := u[id];
    assert m.inReplyTo == [] ==> Parents(m) == Reverse(m.references);
  }

  /** Nothing in the waiting map refers past the records. */
  ghost predicate WaitersInRange(s: State) {
    forall p, i :: p in s.waiting && i in s.waiting[p] ==> i < |s.records|
  }

  lemma SameOrphans(u: Universe, s: State, id: Id)
    requires Threads(u) && id in u && WaitersInRange(s)
    ensures Orphaned(File(s, u[id]), id) == Orphaned(s, id)
  {
    var filed := File(s, u[id]);
    if Parents(u[id]) != [] {
      ParentsAreNotSelf(u, id);
    }
    assert Waiters(filed.waiting, id) == Waiters(s.waiting, id);
    forall i | i in Waiters(s.waiting, id)
      ensures i < |s.records| && filed.records[i] == s.records[i]
    {
    }
  }

  lemma ReceiveDelivers(u: Universe, s: State, id: Id)
    requires Threads(u) && id in u && id !in s.ticketOf && WaitersInRange(s)
    ensures Delivered(u, s, Receive(s, u[id]), id)
  {
    hide KnownIsFiled, FirstKnown, Parents;
    assert WellThreaded(u, id);
    var m := u[id];
    var t := FiledTicket(s, m);
    var merged := Orphaned(s, id);
    var filed := File(s, m);
    SameOrphans(u, s, id);
    var known := Adopt(filed, id, t);
    assert known.records[|s.records|] == Record(t, m);
    assert known.ticketOf[id] == t;
    var ack := AckId(s.sent + 1);
    assert IsAck(ack);
  }

  /** The ticket a new message goes on: a fresh one, or one that already holds a record. */
  lemma FiledTicketIsNamed(u: Universe, s: State, id: Id) returns (i: int)
    requires Threads(u) && id in u && Agrees(u, s)
    ensures FirstKnown(s.ticketOf, Parents(u[id])).Some? ==>
      0 <= i < |s.records| && s.records[i].ticket == FiledTicket(s, u[id]) && RecordAgrees(u, s, i)
  {
    i := -1;
    var k := FiledUnderNearest(u, s.ticketOf, id);
    if FirstKnown(s.ticketOf, Parents(u[id])).Some? {
      assert KnownIsFiled(s, u[id].references[k]);
      i :| 0 <= i < |s.records| && s.records[i].ticket == FiledTicket(s, u[id]);
    }
  }

  lemma FiledTicketIsIssued(u: Universe, s: State, id: Id)
    requires Threads(u) && id in u && Agrees(u, s)
    ensures Issued(File(s, u[id]).tickets, FiledTicket(s, u[id]))
  {
    var i := FiledTicketIsNamed(u, s, id);
  }

  lemma DeliveryKeepsRecord(u: Universe, s: State, s': State, id: Id, i: nat)
    requires Threads(u) && id in u && id !in s.ticketOf && Delivered(u, s, s', id)
    requires Issued(s'.tickets, FiledTicket(s, u[id]))
    requires i <= |s.records| && (i < |s.records| ==> RecordAgrees(u, s, i))
    ensures RecordAgrees(u, s', i)
    ensures i < |s.records| ==> s.records[i].message.id != id
  {
    assert WellThreaded(u, id);
    if i < |s.records| {
      assert WellThreaded(u, s.records[i].message.id);
    }
  }

  lemma DeliveryReceives(u: Universe, s: State, s': State, id: Id)
    requires Threads(u) && id in u && id !in s.ticketOf && Agrees(u, s)
    requires Delivered(u, s, s', id)
    ensures forall i :: 0 <= i < |s.records| ==> s.records[i].message.id != id
    ensures OneRecordEach(s')
    ensures Received(s') == Received(s) + {id}
  {
    var n := |s.records|;
    forall i | 0 <= i < n
      ensures s.records[i].message.id != id && s'.records[i].message == s.records[i].message
    {
      assert RecordAgrees(u, s, i);
    }
    assert WellThreaded(u, id);
    assert s'.records[n].message.id == id;
    assert Received(s') == Received(s) + {id};
  }

  lemma DeliveryKeepsKnown(u: Universe, s: State, s': State, id: Id)
    requires id in u && Agrees(u, s)
    requires Delivered(u, s, s', id) && Received(s') == Received(s) + {id}
    ensures forall k :: k in s'.ticketOf ==> KnownIsFiled(s', k)
  {
    var t := FiledTicket(s, u[id]);
    var n := |s.records|;
    forall k | k in s'.ticketOf
      ensures KnownIsFiled(s', k)
    {
      assert k in s.ticketOf ==> KnownIsFiled(s, k);
      if s'.ticketOf[k] == t {
        assert s'.records[n].ticket == t;
      } else {
        var i :| 0 <= i < n && s.records[i].ticket == s.ticketOf[k];
        assert s'.records[i].ticket == s'.ticketOf[k];
      }
    }
  }

  lemma DeliveryKeepsWaiting(u: Universe, s: State, s': State, id: Id)
    requires Threads(u) && id in u && Waits(s)
    requires forall i :: 0 <= i < |s.records| ==> RecordAgrees(u, s, i)
    requires Delivered(u, s, s', id)
    ensures Waits(s')
  {
    forall p | p in s'.waiting && s'.waiting[p] != []
      ensures WaitsForParent(s', p)
    {
      StillWaits(u, s, s', id, p);
    }
  }

  lemma WaitedForIsMail(u: Universe, s: State, p: Id)
    requires Threads(u) && Waits(s) && p in s.waiting && s.waiting[p] != []
    requires forall i :: 0 <= i < |s.records| ==> RecordAgrees(u, s, i)
    ensures p in u && !IsAck(p)
  {
    assert WaitsForParent(s, p);
    var i := s.waiting[p][0];
    assert i in s.waiting[p] && RecordAgrees(u, s, i);
    assert WellThreaded(u, s.records[i].message.id);
    assert WellThreaded(u, p);
  }

  lemma NewcomerWaitsForMail(u: Universe, s: State, id: Id)
    requires Threads(u) && id in u && FirstKnown(s.ticketOf, Parents(u[id])).None? && Parents(u[id]) != []
    ensures var p := Parents(u[id])[0];
      p !in s.ticketOf && p in u && !IsAck(p) && p != id && RepliesTo(u[id], p)
  {
    ParentsAreNotSelf(u, id);
    var k := FiledUnderNearest(u, s.ticketOf, id);
    assert WellThreaded(u, id);
    assert WellThreaded(u, Parent(u[id]));
  }

  lemma StillWaits(u: Universe, s: State, s': State, id: Id, p: Id)
    requires Threads(u) && id in u && Waits(s)
    requires forall i :: 0 <= i < |s.records| ==> RecordAgrees(u, s, i)
    requires Delivered(u, s, s', id) && p in s'.waiting && s'.waiting[p] != []
    ensures WaitsForParent(s', p)
  {
    hide FiledTicket, Orphaned, RecordAgrees, Threads, FirstKnown, Parents;
    if FirstKnown(s.ticketOf, Parents(u[id])).None? && Parents(u[id]) != [] {
      NewcomerWaitsForMail(u, s, id);
    }
    if p in s.waiting && s.waiting[p] != [] {
      WaitedForIsMail(u, s, p);
      assert WaitsForParent(s, p);
    }
  }

  /** Positions of a path other than the newcomer's are known after a delivery exactly when they
      were known before. */
  lemma PathKnownAfter(u: Universe, s: State, s': State, id: Id, x: Id, l: nat)
    requires Threads(u) && x in u && l < |u[x].references|
    requires id in u && Delivered(u, s, s', id)
    ensures u[x].references[l] != id ==>
      (u[x].references[l] in s'.ticketOf <==> u[x].references[l] in s.ticketOf)
    ensures u[x].references[l] != id && u[x].references[l] in s.ticketOf ==>
      s'.ticketOf[u[x].references[l]] ==
        Rename(Orphaned(s, id), FiledTicket(s, u[id]), s.ticketOf[u[x].references[l]])
  {
    AncestryIsAPath(u, x, l);
    assert WellThreaded(u, u[x].references[l]);
  }

  /** A newcomer between a reply and its nearest known ancestor is filed under that ancestor. */
  lemma FiledBetween(u: Universe, s: State, x: Id, k: nat, j: nat)
    requires Threads(u) && x in u && k < j < |u[x].references|
    requires Nearest(s.ticketOf, u[x].references, k)
    requires u[x].references[j] in u
    ensures FiledTicket(s, u[u[x].references[j]]) == s.ticketOf[u[x].references[k]]
  {
    var path := u[x].references;
    AncestryIsAPath(u, x, j);
    assert forall l :: 0 <= l < j ==> path[..j][l] == path[l];
    var h := FiledUnderNearest(u, s.ticketOf, path[j]);
    assert path[..j][k] in s.ticketOf;
  }

  lemma PlacedUnderNewcomer(u: Universe, s: State, s': State, id: Id, i: nat, k: int, j: nat)
    requires Threads(u) && id in u && Delivered(u, s, s', id)
    requires i < |s.records| && s.records[i].message.id in u
    requires s.records[i].message == u[s.records[i].message.id]
    requires -1 <= k < j < |s.records[i].message.references| && s.records[i].message.references[j] == id
    requires forall l :: k < l < |s.records[i].message.references| ==>
      s.records[i].message.references[l] !in s.ticketOf
    requires Rename(Orphaned(s, id), FiledTicket(s, u[id]), s.records[i].ticket) == FiledTicket(s, u[id])
    ensures WithNearest(s', i)
  {
    var x := s.records[i].message.id;
    var path := u[x].references;
    forall l | j < l < |path|
      ensures path[l] !in s'.ticketOf
    {
      if path[l] == id {
        AncestorsAreDistinct(u, x, j, l);
      }
      PathKnownAfter(u, s, s', id, x, l);
    }
    assert Nearest(s'.ticketOf, path, j);
  }

  lemma PlacedAsBefore(u: Universe, s: State, s': State, id: Id, i: nat, k: nat)
    requires Threads(u) && id in u && id !in s.ticketOf && Delivered(u, s, s', id)
    requires i < |s.records| && s.records[i].message.id in u
    requires s.records[i].message == u[s.records[i].message.id]
    requires Nearest(s.ticketOf, s.records[i].message.references, k)
    requires s.ticketOf[s.records[i].message.references[k]] == s.records[i].ticket
    requires forall l :: k < l < |s.records[i].message.references| ==> s.records[i].message.references[l] != id
    ensures WithNearest(s', i)
  {
    var x := s.records[i].message.id;
    var path := u[x].references;
    forall l | k <= l < |path|
      ensures path[l] in s'.ticketOf <==> path[l] in s.ticketOf
    {
      PathKnownAfter(u, s, s', id, x, l);
    }
    PathKnownAfter(u, s, s', id, x, k);
    assert Nearest(s'.ticketOf, path, k);
  }

  lemma WaitingIsPlaced(u: Universe, s: State, s': State, id: Id, i: nat)
    requires Threads(u) && id in u && id !in s.ticketOf && Waits(s)
    requires Delivered(u, s, s', id)
    requires i < |s.records| && RecordAgrees(u, s, i) && s.records[i].message.references != []
    requires i in Waiters(s.waiting, Parent(s.records[i].message))
    ensures Placed(s', i)
  {
    var path := s.records[i].message.references;
    if Parent(s.records[i].message) == id {
      assert s.records[i].ticket in Orphaned(s, id);
      PlacedUnderNewcomer(u, s, s', id, i, |path| - 2, |path| - 1);
    } else {
      assert i in Waiters(s'.waiting, Parent(s.records[i].message));
    }
  }

  /** A waiting or placed reply stays so: if the newcomer is its parent, its ticket is merged; if
      the newcomer is a nearer ancestor, that ancestor was itself filed on the same ticket. */
  lemma DeliveryKeepsPlace(u: Universe, s: State, s': State, id: Id, i: nat)
    requires Threads(u) && id in u && id !in s.ticketOf && Waits(s)
    requires Delivered(u, s, s', id)
    requires i < |s.records| && RecordAgrees(u, s, i) && Placed(s, i)
    ensures Placed(s', i)
  {
    hide Issued;
    var path := s.records[i].message.references;
    if path != [] {
      if i in Waiters(s.waiting, Parent(s.records[i].message)) {
        WaitingIsPlaced(u, s, s', id, i);
      } else {
        var k :| Nearest(s.ticketOf, path, k) && s.ticketOf[path[k]] == s.records[i].ticket;
        if j :| k < j < |path| && path[j] == id {
          FiledBetween(u, s, s.records[i].message.id, k, j);
          PlacedUnderNewcomer(u, s, s', id, i, k, j);
        } else {
          PlacedAsBefore(u, s, s', id, i, k);
        }
      }
    }
  }

  lemma DeliveryPlaces(u: Universe, s: State, s': State, id: Id)
    requires Threads(u) && id in u && id !in s.ticketOf
    requires Delivered(u, s, s', id)
    ensures Placed(s', |s.records|)
  {
    var m := u[id];
    var n := |s.records|;
    assert WellThreaded(u, id);
    if m.references != [] {
      var k := FiledUnderNearest(u, s.ticketOf, id);
      assert Parents(m) != [] by {
        assert |Reverse(m.references)| == |m.references|;
      }
      ParentsAreNotSelf(u, id);
      if FirstKnown(s.ticketOf, Parents(m)).Some? {
        forall j | k <= j < |m.references|
          ensures m.references[j] != id && m.references[j] in u && !IsAck(m.references[j])
        {
          AncestryIsAPath(u, id, j);
          NotItsOwnAncestor(u, id);
          assert WellThreaded(u, m.references[j]);
        }
        var t := FiledTicket(s, m);
        assert Nearest(s'.ticketOf, m.references, k);
        assert s'.ticketOf[m.references[k]] == Rename(Orphaned(s, id), t, t) == t;
        assert WithNearest(s', n);
      } else {
        assert n in File(s, m).waiting[Parent(m)];
        assert n in Waiters(s'.waiting, Parent(m));
      }
    }
  }

  /** Whatever is merged with the newcomer carries its group. */
  lemma MergedCarriesGroup(u: Universe, s: State, group: Id -> Id, id: Id, i: nat)
    requires Threads(u) && id in u && Agrees(u, s) && Waits(s) && Apart(s, group)
    requires JoinsOwn(u, s, group, id)
    requires i < |s.records|
    requires s.records[i].ticket == FiledTicket(s, u[id]) || s.records[i].ticket in Orphaned(s, id)
    ensures group(s.records[i].message.id) == group(id)
  {
    var m := u[id];
    if s.records[i].ticket in Orphaned(s, id) {
      assert WaitsForParent(s, id);
      var o :| o in Waiters(s.waiting, id) && o < |s.records| && s.records[o].ticket == s.records[i].ticket;
      assert group(s.records[o].message.id) == group(id);
    } else {
      var k := FiledUnderNearest(u, s.ticketOf, id);
      assert RecordAgrees(u, s, i);
      if FirstKnown(s.ticketOf, Parents(m)).Some? {
        var x := m.references[k];
        assert group(x) == group(id);
        AncestryIsAPath(u, id, k);
        assert WellThreaded(u, x);
        assert KnownIsFiled(s, x);
        var h :| 0 <= h < |s.records| && s.records[h].message.id == x;
        assert RecordAgrees(u, s, h);
      } else {
        FreshTicketIsNew(s, s.records[i].ticket);
      }
    }
  }

  lemma FreshTicketIsNew(s: State, ticket: string)
    requires Issued(s.tickets, ticket)
    ensures ticket != TicketName(s.tickets + 1)
  {
    var n :| 1 <= n <= s.tickets && ticket == TicketName(n);
    TicketNamesDiffer(n, s.tickets + 1);
  }

  lemma DeliveryKeepsApart(u: Universe, s: State, s': State, group: Id -> Id, id: Id)
    requires Threads(u) && id in u && Agrees(u, s) && Waits(s) && Apart(s, group)
    requires JoinsOwn(u, s, group, id)
    requires Delivered(u, s, s', id)
    ensures Apart(s', group)
  {
    var t := FiledTicket(s, u[id]);
    var merged := Orphaned(s, id);
    var n := |s.records|;
    assert WellThreaded(u, id);
    forall i | 0 <= i <= n
      ensures s'.records[i].ticket == t ==> group(s'.records[i].message.id) == group(id)
      ensures s'.records[i].ticket != t ==> i < n && s.records[i].ticket == s'.records[i].ticket
    {
      if i < n && s'.records[i].ticket == t {
        MergedCarriesGroup(u, s, group, id, i);
      }
    }
  }

  lemma DeliveryKeepsInv(u: Universe, s: State, group: Id -> Id, id: Id)
    requires Threads(u) && id in u && id !in s.ticketOf && Inv(u, s, group)
    requires JoinsOwn(u, s, group, id)
    ensures Inv(u, Receive(s, u[id]), group)
    ensures Received(Receive(s, u[id])) == Received(s) + {id}
  {
    var s' := Receive(s, u[id]);
    var n := |s.records|;
    assert WaitersInRange(s) by {
      forall p, i | p in s.waiting && i in s.waiting[p]
        ensures i < n
      {
        assert WaitsForParent(s, p);
      }
    }
    ReceiveDelivers(u, s, id);
    FiledTicketIsIssued(u, s, id);
    DeliveryReceives(u, s, s', id);
    forall i | 0 <= i <= n
      ensures RecordAgrees(u, s', i) && Placed(s', i)
    {
      assert i < n ==> RecordAgrees(u, s, i) && Placed(s, i);
      DeliveryKeepsRecord(u, s, s', id, i);
      if i < n {
        DeliveryKeepsPlace(u, s, s', id, i);
      } else {
        DeliveryPlaces(u, s, s', id);
      }
    }
    DeliveryKeepsKnown(u, s, s', id);
    DeliveryKeepsWaiting(u, s, s', id);
    DeliveryKeepsApart(u, s, s', group, id);
  }

  // Runs

  /** The pipeline after receiving `ids` in order, repeats included. */
  function Deliver(u: Universe, ids: seq<Id>): State
    requires forall id :: id in ids ==> id in u
  {
    if ids == [] then Empty
    else Receive(Deliver(u, ids[..|ids| - 1]), u[ids[|ids| - 1]])
  }

  function Elements(ids: seq<Id>): set<Id> {
    set id | id in ids
  }

  lemma ElementsOfPrefix(ids: seq<Id>)
    requires ids != []
    ensures Elements(ids) == Elements(ids[..|ids| - 1]) + {ids[|ids| - 1]}
  {
    assert ids == ids[..|ids| - 1] + [ids[|ids| - 1]];
  }

  /** Deliveries so far leave every later join inside one group. */
  ghost predicate JoinsFit(u: Universe, delivered: set<Id>, group: Id -> Id, start: set<Id>) {
    && (forall y, k :: y in delivered && y in u && y !in start && 0 <= k < |u[y].references| && u[y].references[k] in delivered
         ==> group(u[y].references[k]) == group(y) || exists j :: k < j < |u[y].references| && u[y].references[j] in start)
    && (forall y :: y in start && y in u && u[y].references != [] ==> Parent(u[y]) !in delivered)
  }

  lemma ReceivedIsKnown(u: Universe, s: State, x: Id)
    requires Agrees(u, s) && x in Received(s)
    ensures x in u && x in s.ticketOf
    ensures exists i :: 0 <= i < |s.records| && s.records[i].message == u[x] && RecordAgrees(u, s, i)
  {
    var i :| 0 <= i < |s.records| && s.records[i].message.id == x;
    assert RecordAgrees(u, s, i);
  }

  lemma JoinsFitOneStep(u: Universe, delivered: set<Id>, group: Id -> Id, start: set<Id>, s: State, id: Id)
    requires Threads(u) && id in u && id in delivered && id !in start
    requires JoinsFit(u, delivered, group, start)
    requires Agrees(u, s) && start <= Received(s) <= delivered
    ensures JoinsOwn(u, s, group, id)
  {
    var path := u[id].references;
    forall x | x in start
      ensures x in s.ticketOf
    {
      ReceivedIsKnown(u, s, x);
    }
    forall k | Nearest(s.ticketOf, path, k)
      ensures group(path[k]) == group(id)
    {
      AncestryIsAPath(u, id, k);
      assert WellThreaded(u, path[k]);
      assert KnownIsFiled(s, path[k]);
    }
    forall i | 0 <= i < |s.records| && RepliesTo(s.records[i].message, id)
      ensures group(s.records[i].message.id) == group(id)
    {
      assert RecordAgrees(u, s, i);
      var y := s.records[i].message.id;
      assert y in Received(s);
      assert u[y].references[|u[y].references| - 1] == id;
    }
  }

  lemma NextDelivery(u: Universe, delivered: set<Id>, group: Id -> Id, start: set<Id>, s: State, id: Id)
    requires Threads(u) && id in u && id in delivered
    requires JoinsFit(u, delivered, group, start) && Inv(u, s, group)
    requires start <= Received(s) <= delivered
    ensures Inv(u, Receive(s, u[id]), group)
    ensures Received(Receive(s, u[id])) == Received(s) + {id}
  {
    assert WellThreaded(u, id);
    if id in s.ticketOf {
      assert KnownIsFiled(s, id);
      assert Receive(s, u[id]) == s;
    } else {
      if id in start {
        ReceivedIsKnown(u, s, id);
      }
      JoinsFitOneStep(u, delivered, group, start, s, id);
      DeliveryKeepsInv(u, s, group, id);
    }
  }

  lemma FirstDeliveryKeepsInv(u: Universe, group: Id -> Id, id: Id)
    requires Threads(u) && id in u
    ensures Inv(u, Deliver(u, [id]), group) && Received(Deliver(u, [id])) == {id}
  {
    hide Issued, Orphaned;
    assert Inv(u, Empty, group);
    assert WellThreaded(u, id);
    assert [id][..0] == [];
    DeliveryKeepsInv(u, Empty, group, id);
  }

  /** The invariant holds after every run; `start` is what the run is known to begin with. */
  lemma {:induction false} RunKeepsInv(u: Universe, ids: seq<Id>, delivered: set<Id>, group: Id -> Id, start: seq<Id>)
    requires Threads(u) && forall id :: id in ids ==> id in u && id in delivered
    requires JoinsFit(u, delivered, group, Elements(start))
    requires |start| <= 1 && start <= ids
    ensures Inv(u, Deliver(u, ids), group)
    ensures Received(Deliver(u, ids)) == Elements(ids)
    decreases |ids|
  {
    if ids == [] {
    } else if |ids| == 1 {
      assert ids == [ids[0]];
      FirstDeliveryKeepsInv(u, group, ids[0]);
    } else {
      hide Receive, Agrees, Waits, AllPlaced, Apart, JoinsFit, Received;
      var before := ids[..|ids| - 1];
      ElementsOfPrefix(ids);
      assert forall x :: x in start ==> x in before;
      RunKeepsInv(u, before, delivered, group, start);
      NextDelivery(u, delivered, group, Elements(start), Deliver(u, before), ids[|ids| - 1]);
    }
  }

  // What the pipeline promises

  ghost predicate Deliverable(u: Universe, ids: seq<Id>) {
    forall id :: id in ids ==> id in u
  }

  /** The ticket a delivered message is on at the end of the run. */
  function TicketAfter(u: Universe, ids: seq<Id>, id: Id): Option<string>
    requires Deliverable(u, ids)
  {
    var s := Deliver(u, ids);
    if id in s.ticketOf then Some(s.ticketOf[id]) else None
  }

  function ThreadRoot(m: Message): Id {
    if m.references == [] then m.id else m.references[0]
  }

  function ByThread(u: Universe): Id -> Id {
    (id: Id) => if id in u then ThreadRoot(u[id]) else id
  }

  lemma RunInv(u: Universe, ids: seq<Id>)
    requires Threads(u) && Deliverable(u, ids)
    ensures Inv(u, Deliver(u, ids), ByThread(u))
    ensures Received(Deliver(u, ids)) == Elements(ids)
  {
    var group := ByThread(u);
    var delivered := Elements(ids);
    forall y, k | y in delivered && y in u && 0 <= k < |u[y].references| && u[y].references[k] in delivered
      ensures group(u[y].references[k]) == group(y)
    {
      AncestryIsAPath(u, y, k);
      assert WellThreaded(u, u[y].references[k]);
      if k > 0 {
        assert u[y].references[..k][0] == u[y].references[0];
      }
    }
    assert JoinsFit(u, delivered, group, Elements([]));
    RunKeepsInv(u, ids, delivered, group, []);
  }

  /** Repeats are dropped and nothing is lost: each delivered message has exactly one record, and
      `ticketOf` always names that record's ticket. */
  lemma OneRecordPerMessage(u: Universe, ids: seq<Id>)
    requires Threads(u) && Deliverable(u, ids)
    ensures var s := Deliver(u, ids);
      && (forall id :: id in ids <==> exists i :: 0 <= i < |s.records| && s.records[i].message.id == id)
      && OneRecordEach(s)
      && (forall i :: 0 <= i < |s.records| ==>
            && s.records[i].message.id in u && s.records[i].message == u[s.records[i].message.id]
            && TicketAfter(u, ids, s.records[i].message.id) == Some(s.records[i].ticket))
  {
    RunInv(u, ids);
    var s := Deliver(u, ids);
    forall i | 0 <= i < |s.records|
      ensures s.records[i].message.id in u && s.records[i].message == u[s.records[i].message.id]
      ensures TicketAfter(u, ids, s.records[i].message.id) == Some(s.records[i].ticket)
    {
      assert RecordAgrees(u, s, i);
    }
    assert forall id :: id in ids <==> id in Received(s);
  }

  /** Whatever the order of arrival, a message received along with its parent is on its parent's
      ticket. */
  lemma ReplyJoinsParent(u: Universe, ids: seq<Id>, id: Id)
    requires Threads(u) && Deliverable(u, ids)
    requires id in ids && u[id].references != [] && Parent(u[id]) in ids
    ensures TicketAfter(u, ids, id).Some?
    ensures TicketAfter(u, ids, id) == TicketAfter(u, ids, Parent(u[id]))
  {
    RunInv(u, ids);
    var s := Deliver(u, ids);
    ReceivedIsKnown(u, s, Parent(u[id]));
    ReceivedIsKnown(u, s, id);
    PlacedOnParent(u, s, id);
  }

  lemma PlacedOnParent(u: Universe, s: State, id: Id)
    requires Agrees(u, s) && Waits(s) && AllPlaced(s)
    requires id in Received(s) && id in u && id in s.ticketOf
    requires u[id].references != [] && Parent(u[id]) in s.ticketOf
    ensures s.ticketOf[id] == s.ticketOf[Parent(u[id])]
  {
    hide Issued, OneRecordEach, KnownIsFiled;
    var i :| 0 <= i < |s.records| && s.records[i].message.id == id;
    assert RecordAgrees(u, s, i) && Placed(s, i);
    var p := Parent(u[id]);
    assert p in s.waiting && s.waiting[p] != [] ==> WaitsForParent(s, p);
  }

  /** Two threads never share a ticket, whatever has been delivered of them. */
  lemma ThreadsNeverShare(u: Universe, ids: seq<Id>, a: Id, b: Id)
    requires Threads(u) && Deliverable(u, ids) && a in ids && b in ids
    requires TicketAfter(u, ids, a) == TicketAfter(u, ids, b)
    ensures ThreadRoot(u[a]) == ThreadRoot(u[b])
  {
    RunInv(u, ids);
    ReceivedIsKnown(u, Deliver(u, ids), a);
    ReceivedIsKnown(u, Deliver(u, ids), b);
    SameTicketSameGroup(u, Deliver(u, ids), ByThread(u), a, b);
  }

  lemma SameTicketSameGroup(u: Universe, s: State, group: Id -> Id, a: Id, b: Id)
    requires Inv(u, s, group) && a in Received(s) && b in Received(s)
    requires a in s.ticketOf && b in s.ticketOf && s.ticketOf[a] == s.ticketOf[b]
    ensures group(a) == group(b)
  {
    var i :| 0 <= i < |s.records| && s.records[i].message.id == a;
    var j :| 0 <= j < |s.records| && s.records[j].message.id == b;
    assert RecordAgrees(u, s, i) && RecordAgrees(u, s, j);
  }

  lemma {:induction false} AncestorsOnOneTicket(u: Universe, ids: seq<Id>, id: Id)
    requires Threads(u) && Deliverable(u, ids) && id in ids
    requires forall k :: 0 <= k < |u[id].references| ==> u[id].references[k] in ids
    ensures TicketAfter(u, ids, id).Some?
    ensures TicketAfter(u, ids, id) == TicketAfter(u, ids, ThreadRoot(u[id]))
    decreases |u[id].references|
  {
    assert WellThreaded(u, id);
    if u[id].references == [] {
      RunInv(u, ids);
      ReceivedIsKnown(u, Deliver(u, ids), id);
    } else {
      var p := Parent(u[id]);
      ReplyJoinsParent(u, ids, id);
      assert WellThreaded(u, p);
      assert forall k :: 0 <= k < |u[p].references| ==> u[p].references[k] == u[id].references[k];
      assert ThreadRoot(u[p]) == ThreadRoot(u[id]);
      AncestorsOnOneTicket(u, ids, p);
    }
  }

  /** Once their ancestors are in, two messages share a ticket exactly when they share a thread. */
  lemma WholeThreadsAreTickets(u: Universe, ids: seq<Id>, a: Id, b: Id)
    requires Threads(u) && Deliverable(u, ids) && a in ids && b in ids
    requires forall k :: 0 <= k < |u[a].references| ==> u[a].references[k] in ids
    requires forall k :: 0 <= k < |u[b].references| ==> u[b].references[k] in ids
    ensures TicketAfter(u, ids, a) == TicketAfter(u, ids, b) <==> ThreadRoot(u[a]) == ThreadRoot(u[b])
  {
    AncestorsOnOneTicket(u, ids, a);
    AncestorsOnOneTicket(u, ids, b);
    if TicketAfter(u, ids, a) == TicketAfter(u, ids, b) {
      ThreadsNeverShare(u, ids, a, b);
    }
  }

  // Order of arrival

  /** No delivered message has a delivered ancestor but an undelivered parent. */
  ghost predicate GapFree(u: Universe, delivered: set<Id>) {
    forall id, k :: id in delivered && id in u && 0 <= k < |u[id].references| && u[id].references[k] in delivered
      ==> Parent(u[id]) in delivered
  }

  ghost predicate SamePartition(u: Universe, first: seq<Id>, second: seq<Id>, a: Id, b: Id)
    requires Deliverable(u, first) && Deliverable(u, second)
  {
    (TicketAfter(u, first, a) == TicketAfter(u, first, b)) ==
    (TicketAfter(u, second, a) == TicketAfter(u, second, b))
  }

  /** Every order of delivering the messages groups them on tickets in the same way. */
  ghost predicate OrderIrrelevant(u: Universe, delivered: set<Id>)
    requires delivered <= u.Keys
  {
    forall first: seq<Id>, second: seq<Id>, a, b ::
      Elements(first) == Elements(second) == delivered && a in delivered && b in delivered
      ==> Deliverable(u, first) && Deliverable(u, second) && SamePartition(u, first, second, a, b)
  }

  /** The highest message reachable from `id` through delivered parents. */
  function Top(u: Universe, delivered: set<Id>, id: Id): Id
    decreases if id in u then |u[id].references| else 0
  {
    if id in u && u[id].references != [] && Parent(u[id]) in delivered && Parent(u[id]) in u
       && |u[Parent(u[id])].references| < |u[id].references|
    then Top(u, delivered, Parent(u[id])) else id
  }

  lemma {:induction false} TopOfAncestor(u: Universe, delivered: set<Id>, id: Id, k: nat)
    requires Threads(u) && GapFree(u, delivered) && id in u && id in delivered
    requires k < |u[id].references| && u[id].references[k] in delivered
    ensures Top(u, delivered, u[id].references[k]) == Top(u, delivered, id)
    decreases |u[id].references|
  {
    assert WellThreaded(u, id);
    var p := Parent(u[id]);
    assert p in delivered;
    if k < |u[id].references| - 1 {
      assert u[id].references[k] == u[p].references[k];
      TopOfAncestor(u, delivered, p, k);
    }
  }

  lemma {:induction false} TopSharesTicket(u: Universe, ids: seq<Id>, id: Id)
    requires Threads(u) && Deliverable(u, ids) && id in ids
    ensures TicketAfter(u, ids, id).Some?
    ensures Top(u, Elements(ids), id) in ids
    ensures TicketAfter(u, ids, id) == TicketAfter(u, ids, Top(u, Elements(ids), id))
    decreases |u[id].references|
  {
    assert WellThreaded(u, id);
    if u[id].references != [] && Parent(u[id]) in ids {
      ReplyJoinsParent(u, ids, id);
      TopSharesTicket(u, ids, Parent(u[id]));
    } else {
      RunInv(u, ids);
      ReceivedIsKnown(u, Deliver(u, ids), id);
    }
  }

  lemma GapFreeTickets(u: Universe, ids: seq<Id>, a: Id, b: Id)
    requires Threads(u) && Deliverable(u, ids) && GapFree(u, Elements(ids)) && a in ids && b in ids
    ensures TicketAfter(u, ids, a) == TicketAfter(u, ids, b)
      <==> Top(u, Elements(ids), a) == Top(u, Elements(ids), b)
  {
    var delivered := Elements(ids);
    var group := (id: Id) => Top(u, delivered, id);
    forall y, k | y in delivered && 0 <= k < |u[y].references| && u[y].references[k] in delivered
      ensures group(u[y].references[k]) == group(y)
    {
      TopOfAncestor(u, delivered, y, k);
    }
    RunKeepsInv(u, ids, delivered, group, []);
    TopSharesTicket(u, ids, a);
    TopSharesTicket(u, ids, b);
    if TicketAfter(u, ids, a) == TicketAfter(u, ids, b) {
      SameTicketSameGroup(u, Deliver(u, ids), group, a, b);
    }
  }

  lemma {:induction false} Enumerate(delivered: set<Id>) returns (ids: seq<Id>)
    ensures Elements(ids) == delivered
    decreases |delivered|
  {
    if delivered == {} {
      ids := [];
    } else {
      var id :| id in delivered;
      var rest := Enumerate(delivered - {id});
      ids := rest + [id];
      ElementsOfPrefix(ids);
      assert ids[..|ids| - 1] == rest;
    }
  }

  /** Tickets only ever merge: two messages on one ticket stay together. */
  lemma {:induction false} TogetherStaysTogether(u: Universe, ids: seq<Id>, more: seq<Id>, a: Id, b: Id)
    requires Threads(u) && Deliverable(u, ids) && Deliverable(u, more) && a in ids && b in ids
    requires TicketAfter(u, ids, a) == TicketAfter(u, ids, b)
    ensures Deliverable(u, ids + more)
    ensures TicketAfter(u, ids + more, a) == TicketAfter(u, ids + more, b)
    decreases |more|
  {
    hide Receive, Agrees, Waits, AllPlaced, Threads, Apart;
    if more == [] {
      assert ids + more == ids;
    } else {
      var some := more[..|more| - 1];
      var id := more[|more| - 1];
      TogetherStaysTogether(u, ids, some, a, b);
      assert (ids + more)[..|ids + more| - 1] == ids + some;
      RunInv(u, ids + some);
      ReceivedIsKnown(u, Deliver(u, ids + some), a);
      ReceivedIsKnown(u, Deliver(u, ids + some), b);
      DeliveryKeepsTogether(u, Deliver(u, ids + some), id, a, b);
    }
  }

  lemma DeliveryKeepsTogether(u: Universe, s: State, id: Id, a: Id, b: Id)
    requires Threads(u) && id in u && Agrees(u, s) && Waits(s)
    requires a in Received(s) && b in Received(s) && a in s.ticketOf && b in s.ticketOf
    requires s.ticketOf[a] == s.ticketOf[b]
    ensures var s' := Receive(s, u[id]);
      a in s'.ticketOf && b in s'.ticketOf && s'.ticketOf[a] == s'.ticketOf[b]
  {
    hide RecordAgrees, FirstKnown, Orphaned, KnownIsFiled;
    assert WellThreaded(u, id);
    if id !in s.ticketOf {
      hide Receive;
      WaitersAreInRange(s);
      ReceiveDelivers(u, s, id);
      ReceivedIsKnown(u, s, a);
      ReceivedIsKnown(u, s, b);
      assert WellThreaded(u, a) && WellThreaded(u, b);
    }
  }

  /** A reply arriving right after one of its ancestors joins that ancestor's ticket. */
  lemma JoinsAncestor(u: Universe, id: Id, x: Id)
    requires Threads(u) && id in u && x in u && x in u[id].references
    ensures TicketAfter(u, [x, id], x) == TicketAfter(u, [x, id], id)
  {
    hide Agrees, Waits, AllPlaced, Apart, Receive;
    assert [x, id][..1] == [x];
    RunInv(u, [x]);
    JoinsOnlyKnown(u, Deliver(u, [x]), id, x);
  }

  lemma WaitersAreInRange(s: State)
    requires Waits(s)
    ensures WaitersInRange(s)
  {
    forall p, i | p in s.waiting && i in s.waiting[p]
      ensures i < |s.records|
    {
      assert WaitsForParent(s, p);
    }
  }

  lemma JoinsOnlyKnown(u: Universe, s: State, id: Id, x: Id)
    requires Threads(u) && id in u && x in u[id].references && Agrees(u, s) && Waits(s) && Received(s) == {x}
    ensures var s' := Receive(s, u[id]); x in s'.ticketOf && id in s'.ticketOf && s'.ticketOf[x] == s'.ticketOf[id]
  {
    hide Receive, Orphaned, FirstKnown, Parents, File, RecordAgrees;
    ReceivedIsKnown(u, s, x);
    NotItsOwnAncestor(u, id);
    assert WellThreaded(u, id) && WellThreaded(u, x);
    KnownIsReceived(u, s, id);
    WaitersAreInRange(s);
    ReceiveDelivers(u, s, id);
    var k := FiledUnderNearest(u, s.ticketOf, id);
    if FirstKnown(s.ticketOf, Parents(u[id])).Some? {
      AncestryIsAPath(u, id, k);
      KnownIsReceived(u, s, u[id].references[k]);
    }
  }

  lemma KnownIsReceived(u: Universe, s: State, k: Id)
    requires Threads(u) && Agrees(u, s) && k in u
    ensures k in s.ticketOf ==> k in Received(s)
  {
    assert WellThreaded(u, k);
  }

  function Island(u: Universe, id: Id): Id -> Id {
    (y: Id) => if y == id || (y in u && id in u[y].references) then id else ""
  }

  /** A reply that arrives first and whose parent never does keeps its descendants to itself. */
  lemma IslandFits(u: Universe, delivered: set<Id>, id: Id)
    requires Threads(u) && id in u && u[id].references != [] && Parent(u[id]) !in delivered
    ensures JoinsFit(u, delivered, Island(u, id), {id})
  {
    forall y, k | y in delivered && y in u && y != id && 0 <= k < |u[y].references|
      ensures Island(u, id)(u[y].references[k]) == Island(u, id)(y)
        || exists j :: k < j < |u[y].references| && u[y].references[j] in {id}
    {
      var path := u[y].references;
      AncestryIsAPath(u, y, k);
      assert path == path[..k] + [path[k]] + path[k + 1..];
      if id in path[k + 1..] {
        var j :| 0 <= j < |path[k + 1..]| && path[k + 1..][j] == id;
        assert path[k + 1 + j] == id;
      }
    }
  }

  lemma StaysOnIsland(u: Universe, delivered: set<Id>, ids: seq<Id>, id: Id, k: nat)
    requires Threads(u) && Deliverable(u, ids) && Elements(ids) == delivered
    requires ids != [] && ids[0] == id
    requires k < |u[id].references| && u[id].references[k] in delivered
    requires Parent(u[id]) !in delivered
    ensures TicketAfter(u, ids, u[id].references[k]) != TicketAfter(u, ids, id)
  {
    var x := u[id].references[k];
    assert WellThreaded(u, id);
    IslandFits(u, delivered, id);
    assert Elements([id]) == {id};
    RunKeepsInv(u, ids, delivered, Island(u, id), [id]);
    var s := Deliver(u, ids);
    ReceivedIsKnown(u, s, x);
    ReceivedIsKnown(u, s, id);
    NotItsOwnAncestor(u, id);
    AncestryIsAPath(u, id, k);
    assert Island(u, id)(x) != Island(u, id)(id);
    if s.ticketOf[x] == s.ticketOf[id] {
      SameTicketSameGroup(u, s, Island(u, id), x, id);
    }
  }

  lemma GapMakesOrderMatter(u: Universe, delivered: set<Id>, id: Id, k: nat)
    requires Threads(u) && delivered <= u.Keys && id in delivered
    requires k < |u[id].references| && u[id].references[k] in delivered
    requires Parent(u[id]) !in delivered
    ensures !OrderIrrelevant(u, delivered)
  {
    var x := u[id].references[k];
    var all := Enumerate(delivered);
    assert forall y :: y in all <==> y in Elements(all);
    var first := [x, id] + all;
    var second := [id] + all;
    assert Elements(first) == delivered && Elements(second) == delivered;
    JoinsAncestor(u, id, x);
    TogetherStaysTogether(u, [x, id], all, x, id);
    StaysOnIsland(u, delivered, second, id, k);
    assert !SamePartition(u, first, second, x, id);
  }

  /** Threading is independent of arrival order for exactly the gap-free sets of messages. */
  lemma OrderIsIrrelevantIffGapFree(u: Universe, delivered: set<Id>)
    requires Threads(u) && delivered <= u.Keys
    ensures OrderIrrelevant(u, delivered) <==> GapFree(u, delivered)
  {
    if GapFree(u, delivered) {
      forall first: seq<Id>, second: seq<Id>, a, b |
        Elements(first) == Elements(second) == delivered && a in delivered && b in delivered
        ensures Deliverable(u, first) && Deliverable(u, second) && SamePartition(u, first, second, a, b)
      {
        assert forall y :: y in first <==> y in Elements(first);
        assert forall y :: y in second <==> y in Elements(second);
        GapFreeTickets(u, first, a, b);
        GapFreeTickets(u, second, a, b);
      }
    } else {
      var id, k :| id in delivered && 0 <= k < |u[id].references| && u[id].references[k] in delivered
        && Parent(u[id]) !in delivered;
      GapMakesOrderMatter(u, delivered, id, k);
    }
  }
}
