/**
 The reference intake pipeline as a state machine over values: deduplication on Message-ID,
 threading onto the nearest known ancestor, and the `waiting` map that merges tickets when a
 parent arrives after its replies. All defects are off and no mail is machine mail.
 */
module Intake {
  import opened Wrappers
  import opened Decimal

  type Id = string

  /** The parts of a parsed message that decide where it is filed. An empty id means that the
      message carried no Message-ID. */
  datatype Message = Message(id: Id, inReplyTo: seq<Id>, references: seq<Id>, tag: Option<string>)

  datatype Record = Record(ticket: string, message: Message)

  /** `waiting` holds indices into `records`: the source keeps references to the records. */
  datatype State = State(
    records: seq<Record>,
    ticketOf: map<Id, string>,
    waiting: map<Id, seq<nat>>,
    tickets: nat,
    sent: nat)

  const Empty := State([], map[], map[], 0, 0)

  function TicketName(n: nat): string {
    "T" + ZeroPad(Digits(n), 5)
  }

  function AckId(n: nat): Id {
    "ack-" + Digits(n) + "@helpdesk.example.com"
  }

  lemma TicketNamesDiffer(m: nat, n: nat)
    requires m != n
    ensures TicketName(m) != TicketName(n)
  {
    PaddedReadsBack(m, 5);
    PaddedReadsBack(n, 5);
    assert TicketName(m)[1..] == ZeroPad(Digits(m), 5);
    assert TicketName(n)[1..] == ZeroPad(Digits(n), 5);
  }

  function Reverse(s: seq<Id>): (r: seq<Id>)
    ensures |r| == |s|
    ensures forall k :: 0 <= k < |s| ==> r[k] == s[|s| - 1 - k]
  {
    if s == [] then [] else [s[|s| - 1]] + Reverse(s[..|s| - 1])
  }

  /** Where to look for a ticket, nearest first: In-Reply-To, then References backwards. */
  function Parents(m: Message): seq<Id> {
    m.inReplyTo + Reverse(m.references)
  }

  function FirstKnown(ticketOf: map<Id, string>, candidates: seq<Id>): Option<string> {
    if candidates == [] then None
    else if candidates[0] in ticketOf then Some(ticketOf[candidates[0]])
    else FirstKnown(ticketOf, candidates[1..])
  }

  function Rename(merged: set<string>, into: string, ticket: string): string {
    if ticket in merged then into else ticket
  }

  function RenameRecords(merged: set<string>, into: string, records: seq<Record>): (r: seq<Record>)
    ensures |r| == |records|
    ensures forall i :: 0 <= i < |r| ==>
      r[i] == Record(Rename(merged, into, records[i].ticket), records[i].message)
  {
    seq(|records|, i requires 0 <= i < |records| =>
      Record(Rename(merged, into, records[i].ticket), records[i].message))
  }

  function RenameKnown(merged: set<string>, into: string, ticketOf: map<Id, string>): map<Id, string> {
    map k | k in ticketOf :: Rename(merged, into, ticketOf[k])
  }

  function Waiters(waiting: map<Id, seq<nat>>, id: Id): seq<nat> {
    if id in waiting then waiting[id] else []
  }

  function TicketsOf(records: seq<Record>, indices: seq<nat>): set<string> {
    set i | i in indices && i < |records| :: records[i].ticket
  }

  /** The tickets that filing `id` on `into` merges into it: those of the replies waiting for it. */
  function Orphaned(s: State, id: Id): set<string> {
    TicketsOf(s.records, Waiters(s.waiting, id))
  }

  function FiledTicket(s: State, m: Message): string {
    match FirstKnown(s.ticketOf, Parents(m))
    case Some(ticket) => ticket
    case None => TicketName(s.tickets + 1)
  }

  function File(s: State, m: Message): State {
    var parent := FirstKnown(s.ticketOf, Parents(m));
    var parents := Parents(m);
    State(
      s.records + [Record(FiledTicket(s, m), m)],
      s.ticketOf,
      if parent.None? && parents != []
      then s.waiting[parents[0] := Waiters(s.waiting, parents[0]) + [|s.records|]]
      else s.waiting,
      if parent.None? then s.tickets + 1 else s.tickets,
      s.sent)
  }

  /** The id becomes known and adopts the replies that waited for it, with everything already
      threaded onto their tickets. */
  function Adopt(s: State, id: Id, ticket: string): State {
    var merged := Orphaned(s, id);
    s.(records := RenameRecords(merged, ticket, s.records),
       ticketOf := RenameKnown(merged, ticket, s.ticketOf[id := ticket]),
       waiting := s.waiting - {id})
  }

  function Acknowledge(s: State, ticket: string): State {
    s.(sent := s.sent + 1, ticketOf := s.ticketOf[AckId(s.sent + 1) := ticket])
  }

  predicate IsDuplicate(s: State, m: Message) {
    m.id != "" && m.id in s.ticketOf
  }

  function Receive(s: State, m: Message): State {
    if IsDuplicate(s, m) then s
    else
      var ticket := FiledTicket(s, m);
      var filed := File(s, m);
      var known := if m.id == "" then filed else Adopt(filed, m.id, ticket);
      if FirstKnown(s.ticketOf, Parents(m)).None? then Acknowledge(known, ticket) else known
  }

  /** Some message that m answers or refers to is on a ticket. */
  ghost predicate HasKnownAncestor(s: State, m: Message) {
    exists p :: (p in m.inReplyTo || p in m.references) && p in s.ticketOf
  }

  lemma {:induction false} FirstKnownIff(ticketOf: map<Id, string>, candidates: seq<Id>)
    ensures FirstKnown(ticketOf, candidates).Some? <==> exists p :: p in candidates && p in ticketOf
  {
    if candidates != [] {
      FirstKnownIff(ticketOf, candidates[1..]);
    }
  }

  lemma ParentsHold(m: Message, p: Id)
    ensures p in Parents(m) <==> p in m.inReplyTo || p in m.references
  {
    if p in m.references {
      var k :| 0 <= k < |m.references| && m.references[k] == p;
      assert Reverse(m.references)[|m.references| - 1 - k] == p;
    }
  }

  /** What one message does, whatever it carries and whatever came before. A message whose id is known changes
      nothing. Any other, one without an id included, adds one record, keeps every message filed so far, and is
      known by its id from then on; it opens a ticket and is acknowledged exactly when nothing it refers to is
      known, and then replies to the acknowledgement find their ticket. */
  lemma ReceiveFilesOnce(s: State, m: Message)
    ensures var t := Receive(s, m);
      if m.id != "" && m.id in s.ticketOf then t == s
      else
        && |t.records| == |s.records| + 1 && t.records[|s.records|] == Record(FiledTicket(s, m), m)
        && (forall i :: 0 <= i < |s.records| ==> t.records[i].message == s.records[i].message)
        && (forall k :: k in s.ticketOf ==> k in t.ticketOf)
        && (m.id != "" ==> m.id in t.ticketOf && t.ticketOf[m.id] == FiledTicket(s, m))
        && t.tickets == s.tickets + (if HasKnownAncestor(s, m) then 0 else 1)
        && t.sent == s.sent + (if HasKnownAncestor(s, m) then 0 else 1)
        && (!HasKnownAncestor(s, m) ==>
              && FiledTicket(s, m) == TicketName(t.tickets)
              && AckId(t.sent) in t.ticketOf && t.ticketOf[AckId(t.sent)] == TicketName(t.tickets))
  {
    hide TicketName, AckId, Parents;
    FirstKnownIff(s.ticketOf, Parents(m));
    forall p
      ensures p in Parents(m) <==> p in m.inReplyTo || p in m.references
    {
      ParentsHold(m, p);
    }
  }

  /** The records a lookup by tag returns, in arrival order. */
  function Find(records: seq<Record>, tag: string): seq<Record> {
    if records == [] then []
    else
      var rest := Find(records[..|records| - 1], tag);
      var last := records[|records| - 1];
      if last.message.tag == Some(tag) then rest + [last] else rest
  }
}
