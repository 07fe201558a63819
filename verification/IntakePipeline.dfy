/**
 The intake pipeline as the source runs it: record objects whose ticket is rewritten in place, a
 waiting map that refers to the same objects, and merge loops over the records and over `ticketOf`.
 Every method is proved against the value model in `Intake`.
 */
module IntakePipeline {
  import opened Wrappers
  import opened Intake

  datatype Reply = DuplicateOf(ticket: string) | Filed(ticket: string)

  class TicketRecord {
    var ticket: string
    const message: Message

    constructor (ticket: string, message: Message)
      ensures this.ticket == ticket && this.message == message
    {
      this.ticket, this.message := ticket, message;
    }
  }

  function Snapshot(records: seq<TicketRecord>): (s: seq<Record>)
    reads records
    ensures |s| == |records|
    ensures forall i :: 0 <= i < |records| ==> s[i] == Record(records[i].ticket, records[i].message)
  {
    seq(|records|, i requires 0 <= i < |records| reads records => Record(records[i].ticket, records[i].message))
  }

  /** Merging one more ticket by renaming what it is called by now equals renaming both at once. */
  lemma MergeOneMore(merged: set<string>, also: string, into: string, records: seq<Record>, known: map<Id, string>)
    ensures var former := Rename(merged, into, also);
      && RenameRecords({former}, into, RenameRecords(merged, into, records))
         == RenameRecords(merged + {also}, into, records)
      && RenameKnown({former}, into, RenameKnown(merged, into, known))
         == RenameKnown(merged + {also}, into, known)
      && (former == into ==>
           && RenameRecords(merged + {also}, into, records) == RenameRecords(merged, into, records)
           && RenameKnown(merged + {also}, into, known) == RenameKnown(merged, into, known))
  {
  }

  lemma TicketsOfOneMore(records: seq<Record>, indices: seq<nat>, k: nat)
    requires k < |indices| && indices[k] < |records|
    ensures TicketsOf(records, indices[..k + 1]) == TicketsOf(records, indices[..k]) + {records[indices[k]].ticket}
  {
    assert indices[..k + 1] == indices[..k] + [indices[k]];
  }

  lemma NothingMerged(into: string, records: seq<Record>, known: map<Id, string>)
    ensures RenameRecords({}, into, records) == records
    ensures RenameKnown({}, into, known) == known
  {
  }

  class Pipeline {
    var records: seq<TicketRecord>
    var ticketOf: map<Id, string>
    var waiting: map<Id, seq<TicketRecord>>
    var tickets: nat
    var sent: nat
    ghost var waits: map<Id, seq<nat>>

    /** Records are distinct objects and the waiting map refers to them. */
    ghost predicate Valid()
      reads this
    {
      Distinct(records) && Refers(waiting, waits, records)
    }

    static ghost predicate Distinct(records: seq<TicketRecord>) {
      forall i, j :: 0 <= i < j < |records| ==> records[i] != records[j]
    }

    static ghost predicate Refers(
      waiting: map<Id, seq<TicketRecord>>, waits: map<Id, seq<nat>>, records: seq<TicketRecord>)
    {
      && waits.Keys == waiting.Keys
      && (forall k :: k in waits ==> RefersTo(waiting[k], waits[k], records))
    }

    static ghost predicate RefersTo(refs: seq<TicketRecord>, indices: seq<nat>, records: seq<TicketRecord>) {
      && |refs| == |indices|
      && forall j :: 0 <= j < |refs| ==> indices[j] < |records| && refs[j] == records[indices[j]]
    }

    ghost function Model(): State
      reads this, records
    {
      State(Snapshot(records), ticketOf, waits, tickets, sent)
    }

    constructor ()
      ensures Valid() && Model() == Empty && records == []
    {
      records, ticketOf, waiting, tickets, sent, waits := [], map[], map[], 0, 0, map[];
    }

    method Receive(m: Message) returns (reply: Reply)
      requires Valid()
      modifies this, records
      ensures Valid()
      ensures Model() == Intake.Receive(old(Model()), m)
      ensures old(IsDuplicate(Model(), m)) ==> reply == DuplicateOf(old(ticketOf)[m.id])
      ensures !old(IsDuplicate(Model(), m)) ==> reply == Filed(old(FiledTicket(Model(), m)))
      ensures forall r :: r in records ==> r in old(records) || fresh(r)
    {
      if m.id != "" && m.id in ticketOf {
        return DuplicateOf(ticketOf[m.id]);
      }
      ghost var before := Model();
      var ticket, parent := FileRecord(m);
      ghost var filed := Model();
      if m.id != "" {
        Learn(m.id, ticket);
      }
      ghost var known := Model();
      if parent.None? {
        SendAcknowledgement(ticket);
      }
      assert Intake.Receive(before, m) == if parent.None? then Acknowledge(known, ticket) else known;
      reply := Filed(ticket);
    }

    /** Chooses the ticket, appends the record, and lets it wait when no ancestor is known. */
    method FileRecord(m: Message) returns (ticket: string, parent: Option<string>)
      requires Valid()
      modifies `records, `waiting, `waits, `tickets
      ensures Valid() && Model() == File(old(Model()), m)
      ensures ticket == old(FiledTicket(Model(), m)) && parent == old(FirstKnown(ticketOf, Parents(m)))
      ensures |records| == |old(records)| + 1 && records[..|old(records)|] == old(records)
      ensures fresh(records[|old(records)|])
    {
      var parents := Parents(m);
      parent := FirstKnown(ticketOf, parents);
      if parent.Some? {
        ticket := parent.value;
      } else {
        ticket := NewTicket();
      }
      var record := AppendRecord(ticket, m);
      if parent.None? && parents != [] {
        WaitFor(parents[0], record);
      }
    }

    method AppendRecord(ticket: string, m: Message) returns (record: TicketRecord)
      requires Valid()
      modifies `records
      ensures Valid() && fresh(record) && records == old(records) + [record]
      ensures Snapshot(records) == old(Snapshot(records)) + [Record(ticket, m)]
    {
      record := new TicketRecord(ticket, m);
      records := records + [record];
    }

    lemma OneMoreWaits(parent: Id, record: TicketRecord)
      requires Refers(waiting, waits, records) && records != [] && record == records[|records| - 1]
      ensures Refers(waiting[parent := (if parent in waiting then waiting[parent] else []) + [record]],
                waits[parent := Waiters(waits, parent) + [|records| - 1]], records)
    {
      assert parent in waits ==> RefersTo(waiting[parent], waits[parent], records);
    }

    /** The last record filed waits for `parent`. */
    method WaitFor(parent: Id, record: TicketRecord)
      requires Valid() && records != [] && record == records[|records| - 1]
      modifies `waiting, `waits
      ensures Valid()
      ensures waits == old(waits)[parent := Waiters(old(waits), parent) + [|records| - 1]]
    {
      hide Refers;
      OneMoreWaits(parent, record);
      waiting := waiting[parent := (if parent in waiting then waiting[parent] else []) + [record]];
      waits := waits[parent := Waiters(waits, parent) + [|records| - 1]];
    }

    method NewTicket() returns (ticket: string)
      modifies `tickets
      ensures tickets == old(tickets) + 1 && ticket == TicketName(tickets)
    {
      tickets := tickets + 1;
      ticket := TicketName(tickets);
    }

    method SendAcknowledgement(ticket: string)
      requires Valid()
      modifies `sent, `ticketOf
      ensures Valid() && Model() == Acknowledge(old(Model()), ticket)
    {
      sent := sent + 1;
      ticketOf := ticketOf[AckId(sent) := ticket];
    }

    /** The id is now known to be on `ticket`, and adopts its orphans. */
    method Learn(id: Id, ticket: string)
      requires Valid()
      modifies `ticketOf, `waiting, `waits, records
      ensures Valid() && Model() == Adopt(old(Model()), id, ticket)
    {
      ghost var before := Model();
      ticketOf := ticketOf[id := ticket];
      AdoptOrphans(id, ticket);
      assert before.ticketOf[id := ticket][id := ticket] == before.ticketOf[id := ticket];
    }

    method AdoptOrphans(id: Id, ticket: string)
      requires Valid()
      modifies `ticketOf, `waiting, `waits, records
      ensures Valid() && waits == old(waits) - {id}
      ensures Snapshot(records) == RenameRecords(old(Orphaned(Model(), id)), ticket, old(Snapshot(records)))
      ensures ticketOf == RenameKnown(old(Orphaned(Model(), id)), ticket, old(ticketOf))
    {
      var orphans := if id in waiting then waiting[id] else [];
      ghost var indices := Waiters(waits, id);
      waiting := waiting - {id};
      waits := waits - {id};
      MergeOrphans(orphans, indices, ticket);
      assert indices[..|orphans|] == indices;
    }

    /** Merges the tickets of the orphans into `ticket`, one at a time. The outcome is one renaming
        of all of them at once. */
    method MergeOrphans(orphans: seq<TicketRecord>, ghost indices: seq<nat>, ticket: string)
      requires Distinct(records) && RefersTo(orphans, indices, records)
      modifies `ticketOf, records
      ensures Snapshot(records)
        == RenameRecords(TicketsOf(old(Snapshot(records)), indices[..|orphans|]), ticket, old(Snapshot(records)))
      ensures ticketOf == RenameKnown(TicketsOf(old(Snapshot(records)), indices[..|orphans|]), ticket, old(ticketOf))
    {
      ghost var before := Snapshot(records);
      ghost var known := ticketOf;
      NothingMerged(ticket, before, known);
      for k := 0 to |orphans|
        invariant Snapshot(records) == RenameRecords(TicketsOf(before, indices[..k]), ticket, before)
        invariant ticketOf == RenameKnown(TicketsOf(before, indices[..k]), ticket, known)
      {
        var former := orphans[k].ticket;
        ghost var merged := TicketsOf(before, indices[..k]);
        ghost var also := before[indices[k]].ticket;
        TicketsOfOneMore(before, indices, k);
        assert former == Snapshot(records)[indices[k]].ticket == Rename(merged, ticket, also);
        MergeOneMore(merged, also, ticket, before, known);
        if former != ticket {
          MergeTicket(former, ticket);
        }
      }
    }

    method MergeTicket(former: string, ticket: string)
      requires Distinct(records)
      modifies `ticketOf, records
      ensures Snapshot(records) == RenameRecords({former}, ticket, old(Snapshot(records)))
      ensures ticketOf == RenameKnown({former}, ticket, old(ticketOf))
    {
      MergeRecords(former, ticket);
      MergeKnown(former, ticket);
    }

    method MergeRecords(former: string, ticket: string)
      requires Distinct(records)
      modifies records
      ensures Snapshot(records) == RenameRecords({former}, ticket, old(Snapshot(records)))
    {
      for i := 0 to |records|
        invariant forall j :: 0 <= j < i ==> records[j].ticket == Rename({former}, ticket, old(records[j].ticket))
        invariant forall j :: i <= j < |records| ==> records[j].ticket == old(records[j].ticket)
      {
        if records[i].ticket == former {
          records[i].ticket := ticket;
        }
      }
    }

    method MergeKnown(former: string, ticket: string)
      modifies `ticketOf
      ensures ticketOf == RenameKnown({former}, ticket, old(ticketOf))
    {
      var todo := ticketOf.Keys;
      while todo != {}
        invariant ticketOf.Keys == old(ticketOf).Keys && todo <= ticketOf.Keys
        invariant forall k :: k in ticketOf && k !in todo ==>
          ticketOf[k] == Rename({former}, ticket, old(ticketOf)[k])
        invariant forall k :: k in todo ==> ticketOf[k] == old(ticketOf)[k]
        decreases |todo|
      {
        var known :| known in todo;
        todo := todo - {known};
        if ticketOf[known] == former {
          ticketOf := ticketOf[known := ticket];
        }
      }
    }

    method Lookup(tag: string) returns (found: seq<Record>)
      ensures found == Find(Snapshot(records), tag)
    {
      found := [];
      for i := 0 to |records|
        invariant found == Find(Snapshot(records[..i]), tag)
      {
        assert records[..i + 1][..i] == records[..i];
        assert Snapshot(records[..i + 1])[..i] == Snapshot(records[..i]);
        if records[i].message.tag == Some(tag) {
          found := found + [Record(records[i].ticket, records[i].message)];
        }
      }
      assert records[..|records|] == records;
    }
  }
}
