/**
 The redelivery scenarios: which messages they deliver in which order, and what the reference
 pipeline holds after them.
 */
module Redelivery {
  import opened Wrappers
  import opened Tags
  import opened Strays
  import opened Intake
  import opened Threading
  import Ledger

  /** One POST: the message it carries and the wait before it. */
  datatype Delivery = Delivery(
    tag: string,
    messageId: Id,
    replyTo: Option<string>,
    inReplyTo: seq<Id>,
    references: seq<Id>,
    delay: real
  )

  const DOMAIN := "@hq.example.test"

  function ChainId(tag: string): Id {
    tag + DOMAIN
  }

  function Root(tag: string): Delivery {
    Delivery(tag, ChainId(tag), None, [], [], 0.0)
  }

  function Reply(tag: string, parent: string, references: seq<Id>): Delivery {
    Delivery(tag, ChainId(tag), Some(parent), [ChainId(parent)], references, 0.0)
  }

  /** The identical message delivered twice: pair by pair, or, with a gap, all originals and then,
      after one wait for the batch, all retries. */
  function Twice(prefix: string, seed: int, count: nat, gap: real): seq<Delivery>
    requires prefix != []
  {
    if gap <= 0.0 then seq(2 * count, i requires 0 <= i < 2 * count => Root(MakeTag(prefix, seed, i / 2)))
    else Originals(prefix, seed, count) + Retries(prefix, seed, count, gap)
  }

  function Originals(prefix: string, seed: int, count: nat): seq<Delivery>
    requires prefix != []
  {
    seq(count, i requires 0 <= i < count => Root(MakeTag(prefix, seed, i)))
  }

  function Retries(prefix: string, seed: int, count: nat, gap: real): seq<Delivery>
    requires prefix != []
  {
    seq(count, i requires 0 <= i < count =>
      if i == 0 then Root(MakeTag(prefix, seed, i)).(delay := gap) else Root(MakeTag(prefix, seed, i)))
  }

  method PairUp(ghost prefix: string, ghost seed: int, originals: seq<Delivery>, retries: seq<Delivery>)
    returns (pairs: seq<Delivery>)
    requires prefix != [] && originals == retries == Originals(prefix, seed, |originals|)
    ensures pairs == Twice(prefix, seed, |originals|, 0.0)
  {
    hide MakeTag, Root;
    pairs := [];
    for i := 0 to |originals|
      invariant |pairs| == 2 * i && forall k :: 0 <= k < 2 * i ==> pairs[k] == originals[k / 2]
    {
      pairs := pairs + [originals[i], retries[i]];
    }
  }

  method RepeatTwice(prefix: string, seed: int, count: nat, gap: real) returns (deliveries: seq<Delivery>)
    requires prefix != []
    ensures deliveries == Twice(prefix, seed, count, gap)
  {
    hide MakeTag;
    var originals, retries := [], [];
    for index := 0 to count
      invariant originals == retries == Originals(prefix, seed, index)
    {
      var tag := MakeTag(prefix, seed, index);
      originals := originals + [Root(tag)];
      retries := retries + [Root(tag)];
    }
    if gap <= 0.0 {
      deliveries := PairUp(prefix, seed, originals, retries);
      return;
    }
    if retries != [] {
      retries := retries[0 := retries[0].(delay := gap)];
    }
    deliveries := originals + retries;
  }

  /** Two replies delivered before the message they answer. */
  function RepliesFirst(prefix: string, seed: int): seq<Delivery>
    requires prefix != []
  {
    var root, one, two := MakeTag(prefix, seed, 0), MakeTag(prefix, seed, 1), MakeTag(prefix, seed, 2);
    [Reply(one, root, [ChainId(root)]), Reply(two, root, [ChainId(root)]), Root(root)]
  }

  /** A thread in order, with a growing References chain. */
  function GrowingChain(prefix: string, seed: int): seq<Delivery>
    requires prefix != []
  {
    var root, one, two := MakeTag(prefix, seed, 0), MakeTag(prefix, seed, 1), MakeTag(prefix, seed, 2);
    [Root(root), Reply(one, root, [ChainId(root)]), Reply(two, one, [ChainId(root), ChainId(one)])]
  }

  function Build(scenario: Scenario, prefix: string, seed: int, count: nat, retryAfter: real): seq<Delivery>
    requires prefix != []
  {
    var own := ScenarioPrefix(prefix, scenario);
    match scenario
    case Duplicate => Twice(own, seed, count, 0.0)
    case SlowRetry => Twice(own, seed, count, retryAfter)
    case ReplyFirst => RepliesFirst(own, seed)
    case References => GrowingChain(own, seed)
  }

  /** The deliveries of a run, scenario after scenario. */
  function Plan(selected: seq<Scenario>, prefix: string, seed: int, count: nat, retryAfter: real): seq<Delivery>
    requires prefix != []
  {
    if selected == [] then []
    else
      var last := |selected| - 1;
      Plan(selected[..last], prefix, seed, count, retryAfter) + Build(selected[last], prefix, seed, count, retryAfter)
  }

  // In which order they come

  ghost predicate Carries(ds: seq<Delivery>, k: nat, tag: string) {
    k < |ds| && ds[k].tag == tag
  }

  /** Each message of a redelivery comes exactly twice, the same both times: back to back without a gap, and
      otherwise its retry among the retries, which follow all the originals. */
  lemma EachComesTwice(own: string, seed: int, count: nat, gap: real, index: nat) returns (first: nat, again: nat)
    requires own != [] && index < count
    ensures var ds, tag := Twice(own, seed, count, gap), MakeTag(own, seed, index);
      && |ds| == 2 * count && first < again < |ds|
      && (forall k :: Carries(ds, k, tag) <==> k == first || k == again)
      && MessageOf(ds[first]) == MessageOf(ds[again])
      && (if gap <= 0.0 then again == first + 1 else first < count <= again)
  {
    hide MakeTag, Root;
    var ds, tag := Twice(own, seed, count, gap), MakeTag(own, seed, index);
    first, again := if gap <= 0.0 then 2 * index else index, if gap <= 0.0 then 2 * index + 1 else count + index;
    forall k: nat
      ensures Carries(ds, k, tag) <==> k == first || k == again
    {
      if k < |ds| {
        var i := if gap <= 0.0 then k / 2 else if k < count then k else k - count;
        CarriesItsTag(own, seed, count, gap, k, i);
        TagsCollideIff(own, seed, i, own, seed, index);
      }
    }
    CarriesItsTag(own, seed, count, gap, first, index);
    CarriesItsTag(own, seed, count, gap, again, index);
  }

  lemma CarriesItsTag(own: string, seed: int, count: nat, gap: real, k: nat, i: nat)
    requires own != [] && k < |Twice(own, seed, count, gap)|
    requires i == if gap <= 0.0 then k / 2 else if k < count then k else k - count
    ensures var d := Twice(own, seed, count, gap)[k];
      d.tag == MakeTag(own, seed, i) && MessageOf(d) == MessageOf(Root(MakeTag(own, seed, i)))
  {
    hide MakeTag;
  }

  /** The time a schedule waits between its deliveries. */
  function WaitOf(ds: seq<Delivery>): real {
    if ds == [] then 0.0 else WaitOf(ds[..|ds| - 1]) + ds[|ds| - 1].delay
  }

  /** The gap is waited for once, after the last original and before the first retry, however many
      messages there are. */
  lemma GapIsWaitedForOnce(own: string, seed: int, count: nat, gap: real)
    requires own != []
    ensures var ds := Twice(own, seed, count, gap);
      && WaitOf(ds) == (if gap > 0.0 && count > 0 then gap else 0.0)
      && forall k :: 0 <= k < |ds| && ds[k].delay != 0.0 ==> k == count && ds[k].delay == gap
  {
    hide MakeTag;
    var ds := Twice(own, seed, count, gap);
    WaitsOnce(ds, count, if gap > 0.0 then gap else 0.0);
  }

  lemma {:induction false} WaitsOnce(ds: seq<Delivery>, at: nat, gap: real)
    requires forall k :: 0 <= k < |ds| ==> ds[k].delay == if k == at then gap else 0.0
    ensures WaitOf(ds) == if at < |ds| then gap else 0.0
  {
    if ds != [] {
      WaitsOnce(ds[..|ds| - 1], at, gap);
    }
  }

  /** Three messages of one conversation, two of them replies. */
  ghost predicate Conversation(ds: seq<Delivery>) {
    && |ds| == 3 && WaitOf(ds) == 0.0
    && (forall i, j :: 0 <= i < j < 3 ==> ds[i].tag != ds[j].tag)
    && (exists r :: 0 <= r < 3 && IsRootOf(ds, r))
  }

  ghost predicate IsRootOf(ds: seq<Delivery>, r: nat) {
    r < |ds| && forall i :: 0 <= i < |ds| ==> (ds[i].replyTo == None <==> i == r)
  }

  /** The delivery at i replies to the one at j. */
  ghost predicate Answers(ds: seq<Delivery>, i: nat, j: nat) {
    i < |ds| && j < |ds| && ds[i].replyTo == Some(ds[j].tag)
  }

  /** Reply-first delivers every reply before the message it answers. */
  lemma RepliesComeFirst(own: string, seed: int)
    requires own != []
    ensures var ds := RepliesFirst(own, seed);
      && Conversation(ds) && Answers(ds, 0, 2) && Answers(ds, 1, 2)
      && forall i, j :: Answers(ds, i, j) ==> i < j
  {
    hide MakeTag, ChainId;
    IndicesDiffer(own, seed);
    var ds := RepliesFirst(own, seed);
    NoWait(ds);
    assert IsRootOf(ds, 2);
  }

  /** References delivers a thread in order, each reply answering the message just before it. */
  lemma ThreadComesInOrder(own: string, seed: int)
    requires own != []
    ensures var ds := GrowingChain(own, seed);
      && Conversation(ds) && Answers(ds, 1, 0) && Answers(ds, 2, 1)
      && (forall i, j :: Answers(ds, i, j) ==> j < i)
      && ds[2].references == [ds[0].messageId, ds[1].messageId]
  {
    hide MakeTag, ChainId;
    IndicesDiffer(own, seed);
    var ds := GrowingChain(own, seed);
    NoWait(ds);
    assert IsRootOf(ds, 0);
  }

  lemma NoWait(ds: seq<Delivery>)
    requires forall k :: 0 <= k < |ds| ==> ds[k].delay == 0.0
    ensures WaitOf(ds) == 0.0
  {
    WaitsOnce(ds, |ds|, 0.0);
  }

  // What a plan amounts to

  function MessageOf(d: Delivery): Message {
    Message(d.messageId, d.inReplyTo, d.references, Some(d.tag))
  }

  /** A delivery is a root, or a reply to another delivery whose ancestry it lists in full. */
  ghost predicate LinkedTo(d: Delivery, p: Delivery) {
    && d.references == p.references + [p.messageId]
    && d.inReplyTo == [p.messageId] && d.replyTo == Some(p.tag)
  }

  ghost predicate LinkedIn(ds: seq<Delivery>, d: Delivery) {
    && d.messageId == ChainId(d.tag)
    && (d.references == [] ==> d.inReplyTo == [] && d.replyTo == None)
    && (d.references != [] ==> exists p :: p in ds && LinkedTo(d, p))
  }

  ghost predicate Linked(ds: seq<Delivery>) {
    forall d :: d in ds ==> LinkedIn(ds, d)
  }

  /** One tag, one message. */
  ghost predicate OneMessagePerTag(ds: seq<Delivery>) {
    forall c, d :: c in ds && d in ds && c.tag == d.tag ==> MessageOf(c) == MessageOf(d) && c.replyTo == d.replyTo
  }

  lemma ChainIdsDiffer(a: string, b: string)
    ensures ChainId(a) == ChainId(b) ==> a == b
    ensures ChainId(a) != [] && !IsAck(ChainId(a))
  {
    if ChainId(a) == ChainId(b) {
      assert a == ChainId(a)[..|ChainId(a)| - |DOMAIN|] == b;
    }
    forall n: nat
      ensures ChainId(a) != AckId(n)
    {
      assert ChainId(a)[|ChainId(a)| - 1] == 't' && AckId(n)[|AckId(n)| - 1] == 'm';
    }
  }

  ghost function UniverseOf(ds: seq<Delivery>): Universe {
    if ds == [] then map[]
    else
      var last := ds[|ds| - 1];
      UniverseOf(ds[..|ds| - 1])[last.messageId := MessageOf(last)]
  }

  lemma {:induction false} UniverseHolds(ds: seq<Delivery>)
    requires OneMessagePerTag(ds) && forall d :: d in ds ==> d.messageId == ChainId(d.tag)
    ensures forall d :: d in ds ==> d.messageId in UniverseOf(ds) && UniverseOf(ds)[d.messageId] == MessageOf(d)
    ensures forall id :: id in UniverseOf(ds) ==> exists d :: d in ds && d.messageId == id
  {
    if ds != [] {
      var rest, last := ds[..|ds| - 1], ds[|ds| - 1];
      assert ds == rest + [last];
      UniverseHolds(rest);
      forall d | d in ds
        ensures d.messageId in UniverseOf(ds) && UniverseOf(ds)[d.messageId] == MessageOf(d)
      {
        ChainIdsDiffer(d.tag, last.tag);
      }
      forall id | id in UniverseOf(ds)
        ensures exists d :: d in ds && d.messageId == id
      {
        assert id == last.messageId || id in UniverseOf(rest);
        assert last in ds;
      }
    }
  }

  /** A linked plan is mail whose References carry the full ancestry. */
  lemma PlanIsThreaded(ds: seq<Delivery>)
    requires Linked(ds) && OneMessagePerTag(ds)
    ensures Threads(UniverseOf(ds))
  {
    var u := UniverseOf(ds);
    UniverseHolds(ds);
    forall id | id in u
      ensures WellThreaded(u, id)
    {
      var d :| d in ds && d.messageId == id;
      ChainIdsDiffer(d.tag, d.tag);
      assert LinkedIn(ds, d);
      if d.references != [] {
        var p :| p in ds && LinkedTo(d, p);
        assert Parent(u[id]) == p.messageId;
      }
    }
  }

  // The scenarios are threaded mail

  /** What every delivery of a scenario says about itself. */
  ghost predicate OfScenario(d: Delivery, own: string, seed: int)
    requires own != []
  {
    && d.messageId == ChainId(d.tag)
    && exists i: nat :: d.tag == MakeTag(own, seed, i)
  }

  lemma TagIsOfScenario(own: string, seed: int, i: nat)
    requires own != []
    ensures OfScenario(Root(MakeTag(own, seed, i)), own, seed)
  {
  }

  lemma TwiceIsLinked(own: string, seed: int, count: nat, gap: real)
    requires own != []
    ensures forall d :: d in Twice(own, seed, count, gap) ==>
      OfScenario(d, own, seed) && MessageOf(d) == MessageOf(Root(d.tag)) && d.replyTo == None
  {
    hide MakeTag;
    forall d | d in Twice(own, seed, count, gap)
      ensures OfScenario(d, own, seed) && MessageOf(d) == MessageOf(Root(d.tag)) && d.replyTo == None
    {
      var k :| 0 <= k < |Twice(own, seed, count, gap)| && d == Twice(own, seed, count, gap)[k];
      var i := if gap <= 0.0 then k / 2 else if k < count then k else k - count;
      assert d.tag == MakeTag(own, seed, i);
    }
  }

  lemma IndicesDiffer(own: string, seed: int)
    requires own != []
    ensures MakeTag(own, seed, 0) != MakeTag(own, seed, 1) && MakeTag(own, seed, 0) != MakeTag(own, seed, 2)
    ensures MakeTag(own, seed, 1) != MakeTag(own, seed, 2)
  {
    hide MakeTag;
    TagsCollideIff(own, seed, 0, own, seed, 1);
    TagsCollideIff(own, seed, 0, own, seed, 2);
    TagsCollideIff(own, seed, 1, own, seed, 2);
  }

  lemma RepliesFirstIsLinked(own: string, seed: int)
    requires own != [] && !EndsInDash(own)
    ensures Linked(RepliesFirst(own, seed)) && OneMessagePerTag(RepliesFirst(own, seed))
    ensures forall d :: d in RepliesFirst(own, seed) ==> OfScenario(d, own, seed)
  {
    hide MakeTag, ChainId;
    IndicesDiffer(own, seed);
    var ds := RepliesFirst(own, seed);
    assert ds[2] in ds && LinkedTo(ds[0], ds[2]) && LinkedTo(ds[1], ds[2]);
  }

  lemma GrowingChainIsLinked(own: string, seed: int)
    requires own != [] && !EndsInDash(own)
    ensures Linked(GrowingChain(own, seed)) && OneMessagePerTag(GrowingChain(own, seed))
    ensures forall d :: d in GrowingChain(own, seed) ==> OfScenario(d, own, seed)
  {
    hide MakeTag, ChainId;
    IndicesDiffer(own, seed);
    var ds := GrowingChain(own, seed);
    assert ds[0] in ds && ds[1] in ds && LinkedTo(ds[1], ds[0]) && LinkedTo(ds[2], ds[1]);
  }

  lemma ScenarioIsLinked(scenario: Scenario, prefix: string, seed: int, count: nat, retryAfter: real)
    requires prefix != []
    ensures var ds := Build(scenario, prefix, seed, count, retryAfter);
      && Linked(ds) && OneMessagePerTag(ds)
      && forall d :: d in ds ==> OfScenario(d, ScenarioPrefix(prefix, scenario), seed)
  {
    hide MakeTag, OfScenario;
    var own := ScenarioPrefix(prefix, scenario);
    ScenarioPrefixes(prefix, scenario);
    match scenario {
      case Duplicate => TwiceIsLinked(own, seed, count, 0.0);
      case SlowRetry => TwiceIsLinked(own, seed, count, retryAfter);
      case ReplyFirst => RepliesFirstIsLinked(own, seed);
      case References => GrowingChainIsLinked(own, seed);
    }
  }

  /** Each delivery of a plan comes from one of its scenarios. */
  lemma {:induction false} FromAScenario(selected: seq<Scenario>, prefix: string, seed: int, count: nat,
      retryAfter: real, d: Delivery)
    returns (scenario: Scenario)
    requires prefix != [] && d in Plan(selected, prefix, seed, count, retryAfter)
    ensures d in Build(scenario, prefix, seed, count, retryAfter)
    ensures forall e :: e in Build(scenario, prefix, seed, count, retryAfter) ==> e in Plan(selected, prefix, seed, count, retryAfter)
    decreases |selected|
  {
    hide Build;
    var last := |selected| - 1;
    if d in Plan(selected[..last], prefix, seed, count, retryAfter) {
      scenario := FromAScenario(selected[..last], prefix, seed, count, retryAfter, d);
    } else {
      scenario := selected[last];
    }
  }

  lemma PlanIsLinked(selected: seq<Scenario>, prefix: string, seed: int, count: nat, retryAfter: real)
    requires prefix != []
    ensures Linked(Plan(selected, prefix, seed, count, retryAfter))
    ensures OneMessagePerTag(Plan(selected, prefix, seed, count, retryAfter))
  {
    hide Build, Plan;
    var ds := Plan(selected, prefix, seed, count, retryAfter);
    forall d | d in ds
      ensures LinkedIn(ds, d)
    {
      var a := FromAScenario(selected, prefix, seed, count, retryAfter, d);
      ScenarioIsLinked(a, prefix, seed, count, retryAfter);
      assert LinkedIn(Build(a, prefix, seed, count, retryAfter), d);
    }
    forall c, d | c in ds && d in ds && c.tag == d.tag
      ensures MessageOf(c) == MessageOf(d) && c.replyTo == d.replyTo
    {
      var a := FromAScenario(selected, prefix, seed, count, retryAfter, c);
      var b := FromAScenario(selected, prefix, seed, count, retryAfter, d);
      ScenarioIsLinked(a, prefix, seed, count, retryAfter);
      ScenarioIsLinked(b, prefix, seed, count, retryAfter);
      SameScenario(prefix, a, b, seed, c, d);
    }
  }

  lemma SameScenario(prefix: string, a: Scenario, b: Scenario, seed: int, c: Delivery, d: Delivery)
    requires prefix != [] && OfScenario(c, ScenarioPrefix(prefix, a), seed) && OfScenario(d, ScenarioPrefix(prefix, b), seed)
    requires c.tag == d.tag
    ensures a == b
  {
    hide MakeTag;
    var i: nat :| c.tag == MakeTag(ScenarioPrefix(prefix, a), seed, i);
    var j: nat :| d.tag == MakeTag(ScenarioPrefix(prefix, b), seed, j);
    ScenarioTagsAreDisjoint(prefix, a, b, seed, i, seed, j);
  }

  // What the reference pipeline holds after a plan

  function IdsOf(ds: seq<Delivery>): seq<Id> {
    seq(|ds|, i requires 0 <= i < |ds| => ds[i].messageId)
  }

  lemma {:induction false} FindOnly(records: seq<Record>, tag: string, k: nat)
    requires k < |records| && records[k].message.tag == Some(tag)
    requires forall i :: 0 <= i < |records| && i != k ==> records[i].message.tag != Some(tag)
    ensures Find(records, tag) == [records[k]]
    decreases |records|
  {
    var n := |records| - 1;
    if k == n {
      FindNone(records[..n], tag);
    } else {
      FindOnly(records[..n], tag, k);
    }
  }

  lemma {:induction false} FindNone(records: seq<Record>, tag: string)
    requires forall i :: 0 <= i < |records| ==> records[i].message.tag != Some(tag)
    ensures Find(records, tag) == []
  {
    if records != [] {
      FindNone(records[..|records| - 1], tag);
    }
  }

  /** No two messages carry one tag. */
  ghost predicate TagsDiffer(u: Universe) {
    forall a, b :: a in u && b in u && u[a].tag == u[b].tag ==> a == b
  }

  /** Any redelivery schedule, in any order and with any repeats: a lookup by tag finds exactly one
      record of each message delivered. */
  lemma LookupFindsOne(u: Universe, ids: seq<Id>, id: Id) returns (k: nat)
    requires Threads(u) && Deliverable(u, ids) && TagsDiffer(u) && id in ids && u[id].tag.Some?
    ensures var s := Deliver(u, ids);
      && k < |s.records| && s.records[k].message == u[id] && Find(s.records, u[id].tag.value) == [s.records[k]]
      && TicketAfter(u, ids, id) == Some(s.records[k].ticket)
  {
    hide Threads, Deliver, TicketAfter;
    OneRecordPerMessage(u, ids);
    var s := Deliver(u, ids);
    k :| 0 <= k < |s.records| && s.records[k].message.id == id;
    FindOnly(s.records, u[id].tag.value, k);
  }

  /** Each delivery has one record, and each reply is on its parent's ticket. */
  ghost predicate Delivered(ds: seq<Delivery>, records: seq<Record>) {
    forall d :: d in ds ==> FiledOnce(d, records) && (d.replyTo.Some? ==> FiledTogether(d.tag, d.replyTo.value, records))
  }

  ghost predicate FiledOnce(d: Delivery, records: seq<Record>) {
    |Find(records, d.tag)| == 1 && Find(records, d.tag)[0].message == MessageOf(d)
  }

  ghost predicate FiledTogether(tag: string, parent: string, records: seq<Record>) {
    |Find(records, tag)| == 1 == |Find(records, parent)| && Find(records, tag)[0].ticket == Find(records, parent)[0].ticket
  }

  lemma UniverseTagsDiffer(ds: seq<Delivery>)
    requires OneMessagePerTag(ds) && forall d :: d in ds ==> d.messageId == ChainId(d.tag)
    ensures TagsDiffer(UniverseOf(ds)) && Deliverable(UniverseOf(ds), IdsOf(ds))
  {
    var u := UniverseOf(ds);
    UniverseHolds(ds);
    forall a, b | a in u && b in u && u[a].tag == u[b].tag
      ensures a == b
    {
      var c :| c in ds && c.messageId == a;
      var d :| d in ds && d.messageId == b;
      assert u[a] == MessageOf(c) && u[b] == MessageOf(d);
    }
    forall id | id in IdsOf(ds)
      ensures id in u
    {
      var i :| 0 <= i < |ds| && IdsOf(ds)[i] == id;
      assert ds[i] in ds;
    }
  }

  lemma DeliveryIsFiled(ds: seq<Delivery>, d: Delivery) returns (record: Record)
    requires Linked(ds) && OneMessagePerTag(ds) && d in ds
    ensures var u := UniverseOf(ds);
      && Deliverable(u, IdsOf(ds)) && d.messageId in IdsOf(ds)
      && record.message == MessageOf(d) && Find(Deliver(u, IdsOf(ds)).records, d.tag) == [record]
      && TicketAfter(u, IdsOf(ds), d.messageId) == Some(record.ticket)
  {
    hide Deliver, TicketAfter, UniverseOf;
    assert forall e :: e in ds ==> LinkedIn(ds, e);
    UniverseHolds(ds);
    UniverseTagsDiffer(ds);
    PlanIsThreaded(ds);
    var i :| 0 <= i < |ds| && ds[i] == d;
    assert IdsOf(ds)[i] == d.messageId;
    var k := LookupFindsOne(UniverseOf(ds), IdsOf(ds), d.messageId);
    record := Deliver(UniverseOf(ds), IdsOf(ds)).records[k];
  }

  lemma ReplyIsFiledTogether(ds: seq<Delivery>, d: Delivery)
    requires Linked(ds) && OneMessagePerTag(ds) && d in ds && d.replyTo.Some?
    requires Deliverable(UniverseOf(ds), IdsOf(ds))
    ensures FiledTogether(d.tag, d.replyTo.value, Deliver(UniverseOf(ds), IdsOf(ds)).records)
  {
    hide Deliver, TicketAfter, UniverseOf;
    assert LinkedIn(ds, d);
    var p :| p in ds && LinkedTo(d, p);
    var mine := DeliveryIsFiled(ds, d);
    var parents := DeliveryIsFiled(ds, p);
    UniverseHolds(ds);
    PlanIsThreaded(ds);
    ReplyJoinsParent(UniverseOf(ds), IdsOf(ds), d.messageId);
  }

  /** What the reference pipeline holds once the plan has been delivered to it. */
  ghost function Holdings(ds: seq<Delivery>): seq<Record> {
    if Deliverable(UniverseOf(ds), IdsOf(ds)) then Deliver(UniverseOf(ds), IdsOf(ds)).records else []
  }

  /** Every linked plan leaves the pipeline as redelivery wants it. */
  lemma LinkedPlanIsDelivered(ds: seq<Delivery>)
    requires Linked(ds) && OneMessagePerTag(ds)
    ensures Deliverable(UniverseOf(ds), IdsOf(ds)) && Delivered(ds, Holdings(ds))
  {
    hide Deliver, UniverseOf;
    assert forall e :: e in ds ==> LinkedIn(ds, e);
    UniverseTagsDiffer(ds);
    forall d | d in ds
      ensures FiledOnce(d, Holdings(ds))
      ensures d.replyTo.Some? ==> FiledTogether(d.tag, d.replyTo.value, Holdings(ds))
    {
      var record := DeliveryIsFiled(ds, d);
      if d.replyTo.Some? {
        ReplyIsFiledTogether(ds, d);
      }
    }
  }

  ghost predicate Delivers(ds: seq<Delivery>, tag: string) {
    exists d :: d in ds && d.tag == tag
  }

  /** The scenarios against the reference pipeline, any of them in any order: every message has
      exactly one record although half of them were delivered twice, every reply is on its parent's
      ticket although some arrived first, and an exactly-once accounting of what was sent, from
      lookups by tag, finds nothing lost and nothing duplicated. */
  lemma ScenariosAreDeliverySafe(selected: seq<Scenario>, prefix: string, seed: int, count: nat, retryAfter: real,
      sent: seq<Ledger.Sent>, readbacks: map<string, seq<Held>>, passes: (Ledger.Sent, Held) -> bool)
    requires prefix != []
    requires forall i :: 0 <= i < |sent| ==> Delivers(Plan(selected, prefix, seed, count, retryAfter), sent[i].tag)
    requires forall d :: d in Plan(selected, prefix, seed, count, retryAfter) ==>
      d.tag in readbacks && |readbacks[d.tag]| == |Find(Holdings(Plan(selected, prefix, seed, count, retryAfter)), d.tag)|
    ensures var ds := Plan(selected, prefix, seed, count, retryAfter);
      Deliverable(UniverseOf(ds), IdsOf(ds)) && Delivered(ds, Holdings(ds))
    ensures var t := Ledger.TallyOf(sent, readbacks, passes); t.lost == [] && t.duplicated == [] && t.produced == |sent|
  {
    hide Plan, Holdings, Ledger.TallyOf;
    var ds := Plan(selected, prefix, seed, count, retryAfter);
    PlanIsLinked(selected, prefix, seed, count, retryAfter);
    LinkedPlanIsDelivered(ds);
    forall i | 0 <= i < |sent|
      ensures |Ledger.Found(readbacks, sent[i].tag)| == 1
    {
      assert Delivers(ds, sent[i].tag);
      var d :| d in ds && d.tag == sent[i].tag;
      assert FiledOnce(d, Holdings(ds));
    }
    Ledger.OneRecordEachBalances(sent, readbacks, passes);
  }

  // Ancestry, as a scenario derives it

  /** The first delivery that carries the tag. */
  function DeliveryFor(ds: seq<Delivery>, tag: string): (r: Option<Delivery>)
    ensures r.Some? ==> r.value in ds && r.value.tag == tag
    ensures r.None? ==> forall d :: d in ds ==> d.tag != tag
  {
    if ds == [] then None
    else if ds[0].tag == tag then Some(ds[0])
    else DeliveryFor(ds[1..], tag)
  }

  function ParentOf(ds: seq<Delivery>, tag: string): (r: Option<Delivery>)
    ensures r.Some? ==> r.value in ds
  {
    match DeliveryFor(ds, tag)
    case None => None
    case Some(d) => if d.replyTo.Some? then DeliveryFor(ds, d.replyTo.value) else None
  }

  function TagsIn(ds: seq<Delivery>): set<string> {
    set d | d in ds :: d.tag
  }

  /** The ancestors met on the way up, nearest first, until a root or a tag already met. */
  function Climb(ds: seq<Delivery>, tag: string, seen: set<string>): seq<Id>
    decreases |TagsIn(ds) - seen|
  {
    match ParentOf(ds, tag)
    case None => []
    case Some(p) =>
      if p.tag in seen then []
      else
        Fewer(ds, p, seen);
        [p.messageId] + Climb(ds, p.tag, seen + {p.tag})
  }

  lemma Fewer(ds: seq<Delivery>, p: Delivery, seen: set<string>)
    requires p in ds && p.tag !in seen
    ensures |TagsIn(ds) - (seen + {p.tag})| < |TagsIn(ds) - seen|
  {
    assert TagsIn(ds) - seen == (TagsIn(ds) - (seen + {p.tag})) + {p.tag};
  }

  /** Message-IDs of every ancestor, root first. A scenario that replies in a circle ends the climb. */
  method AncestryOf(ds: seq<Delivery>, tag: string) returns (chain: seq<Id>)
    ensures chain == Reverse(Climb(ds, tag, {tag}))
  {
    hide TagsIn, ParentOf;
    var climbed: seq<Id> := [];
    var seen := {tag};
    var at := tag;
    var parent := ParentOf(ds, tag);
    while parent.Some? && parent.value.tag !in seen
      invariant parent == ParentOf(ds, at)
      invariant climbed + Climb(ds, at, seen) == Climb(ds, tag, {tag})
      decreases |TagsIn(ds) - seen|
    {
      Fewer(ds, parent.value, seen);
      climbed := climbed + [parent.value.messageId];
      at := parent.value.tag;
      seen := seen + {at};
      parent := ParentOf(ds, at);
    }
    assert climbed + [] == climbed;
    chain := Reverse(climbed);
  }

  lemma ReverseOfLonger(path: seq<Id>, last: Id)
    ensures Reverse(path + [last]) == [last] + Reverse(path)
  {
    assert (path + [last])[..|path|] == path;
  }

  lemma {:induction false} ReverseTwice(path: seq<Id>)
    ensures Reverse(Reverse(path)) == path
  {
    assert forall k :: 0 <= k < |path| ==> Reverse(Reverse(path))[k] == path[k];
  }

  /** No tag met so far is an ancestor still to come: those have shorter ancestries. */
  ghost predicate Above(ds: seq<Delivery>, seen: set<string>, depth: nat) {
    forall d :: d in ds && d.tag in seen ==> |d.references| >= depth
  }

  lemma ParentIsDelivered(ds: seq<Delivery>, d: Delivery) returns (parent: Delivery)
    requires Linked(ds) && OneMessagePerTag(ds) && d in ds && d.references != []
    ensures ParentOf(ds, d.tag) == Some(parent) && parent in ds
    ensures d.references == parent.references + [parent.messageId]
  {
    hide ChainId;
    var first := DeliveryFor(ds, d.tag).value;
    assert MessageOf(first) == MessageOf(d) && LinkedIn(ds, d);
    var p :| p in ds && LinkedTo(d, p);
    parent := DeliveryFor(ds, p.tag).value;
    assert MessageOf(parent) == MessageOf(p);
  }

  lemma RootsHaveNoParent(ds: seq<Delivery>, d: Delivery)
    requires Linked(ds) && OneMessagePerTag(ds) && d in ds && d.references == []
    ensures ParentOf(ds, d.tag) == None
  {
    var first := DeliveryFor(ds, d.tag).value;
    assert MessageOf(first) == MessageOf(d) && LinkedIn(ds, d);
  }

  lemma StaysAbove(ds: seq<Delivery>, seen: set<string>, depth: nat, parent: Delivery)
    requires OneMessagePerTag(ds) && parent in ds && Above(ds, seen, depth) && depth > |parent.references|
    ensures parent.tag !in seen && Above(ds, seen + {parent.tag}, |parent.references|)
  {
    forall e | e in ds && e.tag in seen + {parent.tag}
      ensures |e.references| >= |parent.references|
    {
      assert e.tag == parent.tag ==> MessageOf(e) == MessageOf(parent);
    }
  }

  lemma {:induction false} ClimbIsReferences(ds: seq<Delivery>, d: Delivery, seen: set<string>)
    requires Linked(ds) && OneMessagePerTag(ds) && d in ds && Above(ds, seen, |d.references|)
    ensures Climb(ds, d.tag, seen) == Reverse(d.references)
    decreases |d.references|
  {
    hide Linked, OneMessagePerTag, ParentOf, Above, TagsIn;
    if d.references == [] {
      RootsHaveNoParent(ds, d);
    } else {
      var parent := ParentIsDelivered(ds, d);
      StaysAbove(ds, seen, |d.references|, parent);
      ClimbIsReferences(ds, parent, seen + {parent.tag});
      ReverseOfLonger(parent.references, parent.messageId);
    }
  }

  /** The ancestry a scenario grades a reply against is the one its References header carries. */
  lemma AncestryIsReferences(ds: seq<Delivery>, d: Delivery)
    requires Linked(ds) && OneMessagePerTag(ds) && d in ds
    ensures Reverse(Climb(ds, d.tag, {d.tag})) == d.references
  {
    forall e | e in ds && e.tag in {d.tag}
      ensures |e.references| >= |d.references|
    {
      assert MessageOf(e) == MessageOf(d);
    }
    ClimbIsReferences(ds, d, {d.tag});
    ReverseTwice(d.references);
  }
}
