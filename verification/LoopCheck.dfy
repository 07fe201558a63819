/**
 The mail-loop check: which outbound records are new, whose replies they are, and what LOOP-SAFE
 entitles the tool to say.
 */
module LoopCheck {
  import opened Wrappers

  type Id = string

  /** An outbound record. Two records are the same when their serialised content is: `content` is all
      of it that the fields before do not say. */
  datatype Record = Record(tag: Option<string>, inReplyTo: Option<Id>, references: seq<Id>, content: string)

  // New records

  /** What `after` holds beyond `before`, copy by copy. */
  function NewRecords(after: seq<Record>, before: multiset<Record>): seq<Record> {
    if after == [] then []
    else if after[0] in before then NewRecords(after[1..], before - multiset{after[0]})
    else [after[0]] + NewRecords(after[1..], before)
  }

  method CountNew(after: seq<Record>, before: seq<Record>) returns (news: seq<Record>)
    ensures news == NewRecords(after, multiset(before))
  {
    var remaining := multiset(before);
    news := [];
    for i := 0 to |after|
      invariant news + NewRecords(after[i..], remaining) == NewRecords(after, multiset(before))
    {
      assert after[i..][1..] == after[i + 1..];
      var record := after[i];
      if remaining[record] > 0 {
        assert remaining[record := remaining[record] - 1] == remaining - multiset{record};
        remaining := remaining[record := remaining[record] - 1];
      } else {
        assert news + ([record] + NewRecords(after[i + 1..], remaining)) == news + [record] + NewRecords(after[i + 1..], remaining);
        news := news + [record];
      }
    }
    assert news + [] == news;
  }

  /** Exactly the multiset difference. */
  lemma {:induction false} NewIsTheDifference(after: seq<Record>, before: multiset<Record>)
    ensures multiset(NewRecords(after, before)) == multiset(after) - before
  {
    if after != [] {
      var rest := after[1..];
      assert after == [after[0]] + rest;
      if after[0] in before {
        NewIsTheDifference(rest, before - multiset{after[0]});
      } else {
        NewIsTheDifference(rest, before);
      }
    }
  }

  /** `part` is `whole` with some elements left out. */
  ghost predicate Subsequence(part: seq<Record>, whole: seq<Record>) {
    part == [] || (whole != [] &&
                   ((part[0] == whole[0] && Subsequence(part[1..], whole[1..])) || Subsequence(part, whole[1..])))
  }

  lemma {:induction false} NewIsInOrder(after: seq<Record>, before: multiset<Record>)
    ensures Subsequence(NewRecords(after, before), after)
  {
    if after != [] {
      if after[0] in before {
        NewIsInOrder(after[1..], before - multiset{after[0]});
      } else {
        NewIsInOrder(after[1..], before);
        assert NewRecords(after, before)[1..] == NewRecords(after[1..], before);
      }
    }
  }

  /** On a sink that only grows, the new records are the ones appended, in the order they came. */
  lemma {:induction false} NewIsWhatWasAppended(before: seq<Record>, appended: seq<Record>)
    ensures NewRecords(before + appended, multiset(before)) == appended
  {
    if before == [] {
      assert before + appended == appended;
      NothingBefore(appended);
    } else {
      assert before == [before[0]] + before[1..];
      assert (before + appended)[1..] == before[1..] + appended;
      assert multiset(before) - multiset{before[0]} == multiset(before[1..]);
      NewIsWhatWasAppended(before[1..], appended);
    }
  }

  lemma {:induction false} NothingBefore(after: seq<Record>)
    ensures NewRecords(after, multiset{}) == after
  {
    if after != [] {
      NothingBefore(after[1..]);
    }
  }

  // Attribution

  /** The first candidate that names a message sent. */
  function FirstNamed(candidates: seq<Id>, ids: map<Id, string>): Option<string> {
    if candidates == [] then None
    else if candidates[0] in ids && ids[candidates[0]] != [] then Some(ids[candidates[0]])
    else FirstNamed(candidates[1..], ids)
  }

  function Candidates(record: Record): seq<Id> {
    (if record.inReplyTo.Some? then [record.inReplyTo.value] else []) + record.references
  }

  /** The tag a record belongs to: its own, or that of the message it answers. */
  function Attribute(record: Record, tags: set<string>, ids: map<Id, string>): Option<string> {
    if record.tag.Some? && record.tag.value != [] && record.tag.value in tags then record.tag
    else FirstNamed(Candidates(record), ids)
  }

  ghost predicate Names(id: Id, ids: map<Id, string>, tag: string) {
    id in ids && ids[id] == tag && tag != []
  }

  lemma {:induction false} FirstNamedIs(candidates: seq<Id>, ids: map<Id, string>)
    ensures FirstNamed(candidates, ids).None? <==> forall i, tag :: 0 <= i < |candidates| ==> !Names(candidates[i], ids, tag)
    ensures FirstNamed(candidates, ids).Some? ==>
      exists i :: 0 <= i < |candidates| && Names(candidates[i], ids, FirstNamed(candidates, ids).value)
        && forall j, tag :: 0 <= j < i ==> !Names(candidates[j], ids, tag)
  {
    if candidates != [] {
      FirstNamedIs(candidates[1..], ids);
      assert forall i :: 0 < i < |candidates| ==> candidates[i] == candidates[1..][i - 1];
      if candidates[0] in ids && ids[candidates[0]] != [] {
        assert Names(candidates[0], ids, ids[candidates[0]]);
      } else if FirstNamed(candidates, ids).Some? {
        var i :| 0 <= i < |candidates[1..]| && Names(candidates[1..][i], ids, FirstNamed(candidates[1..], ids).value)
          && forall j, tag :: 0 <= j < i ==> !Names(candidates[1..][j], ids, tag);
        assert Names(candidates[i + 1], ids, FirstNamed(candidates, ids).value);
      }
    }
  }

  /** A record with a tag that was sent belongs to that tag; any other to the first message that its
      In-Reply-To, or then its References, name; and to nothing only when they name none. */
  lemma AttributeSays(record: Record, tags: set<string>, ids: map<Id, string>)
    ensures var own := record.tag.Some? && record.tag.value != [] && record.tag.value in tags;
      && (own ==> Attribute(record, tags, ids) == record.tag)
      && (forall tag :: !own && record.inReplyTo.Some? && Names(record.inReplyTo.value, ids, tag) ==>
           Attribute(record, tags, ids) == Some(tag))
      && (Attribute(record, tags, ids).None? <==>
           !own && forall i, tag :: 0 <= i < |Candidates(record)| ==> !Names(Candidates(record)[i], ids, tag))
      && (!own && Attribute(record, tags, ids).Some? ==>
           exists i :: 0 <= i < |Candidates(record)| && Names(Candidates(record)[i], ids, Attribute(record, tags, ids).value)
             && forall j, tag :: 0 <= j < i ==> !Names(Candidates(record)[j], ids, tag))
  {
    FirstNamedIs(Candidates(record), ids);
  }

  /** The ids belong to the messages whose tags are looked for. */
  ghost predicate KnownIds(tags: set<string>, ids: map<Id, string>) {
    forall id :: id in ids ==> ids[id] in tags
  }

  lemma {:induction false} NamedIsKnown(candidates: seq<Id>, tags: set<string>, ids: map<Id, string>)
    requires KnownIds(tags, ids)
    ensures FirstNamed(candidates, ids).Some? ==> FirstNamed(candidates, ids).value in tags
  {
    if candidates != [] {
      NamedIsKnown(candidates[1..], tags, ids);
    }
  }

  lemma AttributedIsKnown(record: Record, tags: set<string>, ids: map<Id, string>)
    requires KnownIds(tags, ids)
    ensures Attribute(record, tags, ids).Some? ==> Attribute(record, tags, ids).value in tags
  {
    NamedIsKnown(Candidates(record), tags, ids);
  }

  // Merging the lookups and the enumeration

  /** The records of one tag: what its lookup found, then what the enumeration adds to it. */
  function MergedFor(tag: string, looked: seq<Record>, enumerated: seq<Record>, tags: set<string>, ids: map<Id,
      string>): seq<Record> {
    if enumerated == [] then looked
    else
      var rest := MergedFor(tag, looked, enumerated[..|enumerated| - 1], tags, ids);
      var last := enumerated[|enumerated| - 1];
      if Attribute(last, tags, ids) == Some(tag) && last !in rest then rest + [last] else rest
  }

  function Unclaimed(enumerated: seq<Record>, tags: set<string>, ids: map<Id, string>): seq<Record> {
    if enumerated == [] then []
    else
      var rest := Unclaimed(enumerated[..|enumerated| - 1], tags, ids);
      var last := enumerated[|enumerated| - 1];
      if Attribute(last, tags, ids).None? then rest + [last] else rest
  }

  function Looked(byTag: map<string, seq<Record>>, tag: string): seq<Record> {
    if tag in byTag then byTag[tag] else []
  }

  ghost predicate MergedUpTo(merged: map<string, seq<Record>>, byTag: map<string, seq<Record>>, enumerated: seq<Record>,
      tags: set<string>, ids: map<Id, string>)
  {
    merged.Keys == tags && forall tag :: tag in tags ==> merged[tag] == MergedFor(tag, Looked(byTag, tag), enumerated, tags, ids)
  }

  lemma OneMoreMerged(merged: map<string, seq<Record>>, byTag: map<string, seq<Record>>, enumerated: seq<Record>,
      i: nat,
      tags: set<string>, ids: map<Id, string>, now: map<string, seq<Record>>)
    requires i < |enumerated| && MergedUpTo(merged, byTag, enumerated[..i], tags, ids) && KnownIds(tags, ids)
    requires var owner := Attribute(enumerated[i], tags, ids);
      now == if owner.Some? && owner.value in merged && enumerated[i] !in merged[owner.value]
             then merged[owner.value := merged[owner.value] + [enumerated[i]]] else merged
    ensures MergedUpTo(now, byTag, enumerated[..i + 1], tags, ids)
    ensures Unclaimed(enumerated[..i + 1], tags, ids)
      == Unclaimed(enumerated[..i], tags, ids) + (if Attribute(enumerated[i], tags, ids).None? then [enumerated[i]] else [])
  {
    hide Attribute, KnownIds, Looked;
    assert enumerated[..i + 1][..i] == enumerated[..i];
    AttributedIsKnown(enumerated[i], tags, ids);
    hide Unclaimed;
    UnclaimedGrows(enumerated, i, tags, ids);
  }

  lemma UnclaimedGrows(enumerated: seq<Record>, i: nat, tags: set<string>, ids: map<Id, string>)
    requires i < |enumerated|
    ensures Unclaimed(enumerated[..i + 1], tags, ids)
      == Unclaimed(enumerated[..i], tags, ids) + (if Attribute(enumerated[i], tags, ids).None? then [enumerated[i]] else [])
  {
    hide Attribute;
    assert enumerated[..i + 1][..i] == enumerated[..i];
  }

  method MergeOutbound(byTag: map<string, seq<Record>>, enumerated: seq<Record>, tags: set<string>, ids: map<Id,
      string>)
    returns (merged: map<string, seq<Record>>, unattributed: seq<Record>)
    requires KnownIds(tags, ids)
    ensures MergedUpTo(merged, byTag, enumerated, tags, ids)
    ensures unattributed == Unclaimed(enumerated, tags, ids)
  {
    hide Attribute;
    merged := map tag | tag in tags :: Looked(byTag, tag);
    unattributed := [];
    assert enumerated[..0] == [] && enumerated[..|enumerated|] == enumerated;
    for i := 0 to |enumerated|
      invariant MergedUpTo(merged, byTag, enumerated[..i], tags, ids)
      invariant unattributed == Unclaimed(enumerated[..i], tags, ids)
    {
      hide MergedFor, Unclaimed;
      var record := enumerated[i];
      var owner := Attribute(record, tags, ids);
      AttributedIsKnown(record, tags, ids);
      ghost var before := merged;
      if owner.None? {
        unattributed := unattributed + [record];
      } else if record !in merged[owner.value] {
        merged := merged[owner.value := merged[owner.value] + [record]];
      }
      OneMoreMerged(before, byTag, enumerated, i, tags, ids, merged);
    }
  }

  /** Nothing is lost and nothing is invented: a tag's records are those its lookup found and those
      the enumeration attributes to it. */
  lemma {:induction false} MergedHolds(tag: string, looked: seq<Record>, enumerated: seq<Record>, tags: set<string>,
      ids: map<Id, string>, r: Record)
    ensures r in MergedFor(tag, looked, enumerated, tags, ids)
      <==> r in looked || (r in enumerated && Attribute(r, tags, ids) == Some(tag))
  {
    hide Attribute;
    if enumerated != [] {
      MergedHolds(tag, looked, enumerated[..|enumerated| - 1], tags, ids, r);
      assert enumerated == enumerated[..|enumerated| - 1] + [enumerated[|enumerated| - 1]];
    }
  }

  lemma {:induction false} UnclaimedHolds(enumerated: seq<Record>, tags: set<string>, ids: map<Id, string>, r: Record)
    ensures r in Unclaimed(enumerated, tags, ids) <==> r in enumerated && Attribute(r, tags, ids).None?
  {
    hide Attribute;
    if enumerated != [] {
      UnclaimedHolds(enumerated[..|enumerated| - 1], tags, ids, r);
      assert enumerated == enumerated[..|enumerated| - 1] + [enumerated[|enumerated| - 1]];
    }
  }

  // Judging

  datatype Machine = Machine(tag: string, bait: bool)

  datatype Policy = NoTickets | TicketsAllowed

  datatype ReplyState = Yes | No | Unattributed | NotChecked

  datatype Finding = TicketOpened | BaitAnswered | ReplyEmitted

  datatype Result = Result(tag: string, bait: bool, ticked: bool, replied: Option<bool>, state: ReplyState, findings: seq<Finding>)

  function Opened(tickets: seq<string>, threaded: set<string>): seq<string> {
    if tickets == [] then []
    else (if tickets[0] in threaded then [] else [tickets[0]]) + Opened(tickets[1..], threaded)
  }

  /** One message: the tickets its lookup found, the outbound records laid to it (None without a
      sink), and whether outbound mail was seen that belongs to nobody. */
  function JudgeOne(m: Machine, tickets: seq<string>, outbound: Option<seq<Record>>, policy: Policy, strayMail: bool,
      threaded: set<string>): Result
  {
    var ticked := Opened(tickets, threaded) != [];
    var found := if ticked && policy.NoTickets? then [TicketOpened] else [];
    match outbound
    case None => Result(m.tag, m.bait, ticked, None, NotChecked, found)
    case Some(records) =>
      if records != [] then
        Result(m.tag, m.bait, ticked, Some(true), Yes, found + [if m.bait then BaitAnswered else ReplyEmitted])
      else if strayMail then Result(m.tag, m.bait, ticked, None, Unattributed, found)
      else Result(m.tag, m.bait, ticked, Some(false), No, found)
  }

  /** What `execute` knows once both directions have been read back. `listing` is the final
      enumeration of the sink, `baseline` the one taken before the machine mail went out. */
  datatype Run = Run(
    judged: seq<Machine>,
    precursor: string,
    ids: map<Id, string>,
    tickets: map<string, seq<string>>,
    sink: bool,
    canList: bool,
    baseline: seq<Record>,
    listing: seq<Record>,
    partial: bool,
    byTag: map<string, seq<Record>>,
    policy: Policy,
    unsettled: bool,
    failed: bool
  )

  function Tags(run: Run): (tags: set<string>)
    ensures forall tag :: tag in tags <==> tag == run.precursor || exists m :: m in run.judged && m.tag == tag
  {
    (set m | m in run.judged :: m.tag) + {run.precursor}
  }

  function Enumerated(run: Run): seq<Record> {
    if run.sink && run.canList then NewRecords(run.listing, multiset(run.baseline)) else []
  }

  function Stray(run: Run): seq<Record> {
    if run.sink then Unclaimed(Enumerated(run), Tags(run), run.ids) else []
  }

  function OutboundOf(run: Run, tag: string): Option<seq<Record>> {
    if run.sink then Some(MergedFor(tag, Looked(run.byTag, tag), Enumerated(run), Tags(run), run.ids)) else None
  }

  function TicketsOf(run: Run, tag: string): seq<string> {
    if tag in run.tickets then run.tickets[tag] else []
  }

  /** The bait may join the precursor's ticket; other machine mail may join none. */
  function Threaded(run: Run, m: Machine): set<string> {
    if m.bait then set t | t in TicketsOf(run, run.precursor) else {}
  }

  function ResultOf(run: Run, m: Machine): Result {
    JudgeOne(m, TicketsOf(run, m.tag), OutboundOf(run, m.tag), run.policy, Stray(run) != [], Threaded(run, m))
  }

  function Results(run: Run): seq<Result> {
    seq(|run.judged|, i requires 0 <= i < |run.judged| => ResultOf(run, run.judged[i]))
  }

  // The verdict

  datatype Verdict = LoopSafe | LoopsDetected | Unsettled | ReadbackFailed

  datatype Qualifier = Plain | RepliesNotChecked | UntaggedNotChecked

  function Count(results: seq<Result>, holds: Result -> bool): nat {
    if results == [] then 0 else (if holds(results[0]) then 1 else 0) + Count(results[1..], holds)
  }

  predicate Failing(r: Result) { r.findings != [] }

  predicate Skipped(r: Result) { r.state.NotChecked? }

  /** Failing messages, and what the run as a whole has against it. */
  function Findings(run: Run): nat {
    Count(Results(run), Failing)
    + (if Stray(run) != [] then 1 else 0)
    + (if run.failed || run.unsettled then 1 else 0)
  }

  function Headline(run: Run): (Verdict, Qualifier) {
    var verdict :=
      if run.failed then ReadbackFailed
      else if run.unsettled then Unsettled
      else if Findings(run) == 0 then LoopSafe
      else LoopsDetected;
    var qualifier :=
      if Count(Results(run), Skipped) > 0 then RepliesNotChecked
      else if run.sink && !run.canList then UntaggedNotChecked
      else Plain;
    (verdict, qualifier)
  }

  lemma {:induction false} CountIsZero(results: seq<Result>, holds: Result -> bool)
    ensures Count(results, holds) == 0 <==> forall i :: 0 <= i < |results| ==> !holds(results[i])
  {
    if results != [] {
      CountIsZero(results[1..], holds);
      assert forall i :: 0 < i < |results| ==> results[i] == results[1..][i - 1];
    }
  }

  lemma {:induction false} NoneOpened(tickets: seq<string>, threaded: set<string>)
    ensures Opened(tickets, threaded) == [] <==> forall t :: t in tickets ==> t in threaded
  {
    if tickets != [] {
      NoneOpened(tickets[1..], threaded);
      assert tickets == [tickets[0]] + tickets[1..];
    }
  }

  /** What the headline says is what the results say. */
  lemma PlainLoopSafe(run: Run)
    ensures Headline(run) == (LoopSafe, Plain) <==>
      && !run.failed && !run.unsettled && Stray(run) == [] && (run.sink ==> run.canList)
      && forall m :: m in run.judged ==> ResultOf(run, m).findings == [] && !ResultOf(run, m).state.NotChecked?
  {
    hide ResultOf, Stray;
    CountIsZero(Results(run), Failing);
    CountIsZero(Results(run), Skipped);
    assert forall i :: 0 <= i < |run.judged| ==> Results(run)[i] == ResultOf(run, run.judged[i]);
    assert forall m :: m in run.judged <==> exists i :: 0 <= i < |run.judged| && run.judged[i] == m;
  }

  /** A message opened a ticket of its own: the bait may be filed on the precursor's ticket, no other
      machine mail may open any. */
  ghost predicate OpenedATicket(run: Run, m: Machine) {
    exists t :: HasTicket(run, m.tag, t) && !(m.bait && HasTicket(run, run.precursor, t))
  }

  ghost predicate HasTicket(run: Run, tag: string, t: string) {
    tag in run.tickets && t in run.tickets[tag]
  }

  /** The sink lists more of this record than it did before the machine mail went out. */
  ghost predicate IsNew(run: Run, r: Record) {
    run.sink && run.canList && multiset(run.listing)[r] > multiset(run.baseline)[r]
  }

  ghost predicate IsLooked(run: Run, tag: string, r: Record) {
    tag in run.byTag && r in run.byTag[tag]
  }

  /** A record was laid to a message: by its lookup, or among the new records of the listing. */
  ghost predicate WasAnswered(run: Run, m: Machine) {
    && run.sink
    && exists r :: IsLooked(run, m.tag, r) || (IsNew(run, r) && Attribute(r, Tags(run), run.ids) == Some(m.tag))
  }

  /** New records belong to something that was sent. */
  ghost predicate AllAttributed(run: Run) {
    forall r :: IsNew(run, r) ==> Attribute(r, Tags(run), run.ids).Some?
  }

  lemma AMember(records: seq<Record>) returns (r: Record)
    requires records != []
    ensures r in records
  {
    r := records[0];
  }

  lemma {:induction false} SomeOpened(tickets: seq<string>, threaded: set<string>)
    ensures Opened(tickets, threaded) != [] <==> exists t :: t in tickets && t !in threaded
  {
    NoneOpened(tickets, threaded);
  }

  lemma NewIsEnumerated(run: Run, r: Record)
    ensures IsNew(run, r) <==> r in Enumerated(run)
  {
    NewIsTheDifference(run.listing, multiset(run.baseline));
    assert r in Enumerated(run) <==> multiset(Enumerated(run))[r] > 0;
  }

  lemma NothingStray(run: Run)
    ensures Stray(run) == [] <==> AllAttributed(run)
  {
    hide Attribute, Enumerated;
    forall r
      ensures IsNew(run, r) <==> r in Enumerated(run)
    {
      NewIsEnumerated(run, r);
    }
    if run.sink {
      forall r
        ensures r in Stray(run) <==> r in Enumerated(run) && Attribute(r, Tags(run), run.ids).None?
      {
        UnclaimedHolds(Enumerated(run), Tags(run), run.ids, r);
      }
      if Stray(run) != [] {
        var r := AMember(Stray(run));
      }
    }
  }

  lemma WasAnsweredIff(run: Run, m: Machine)
    ensures WasAnswered(run, m)
      <==> run.sink && MergedFor(m.tag, Looked(run.byTag, m.tag), Enumerated(run), Tags(run), run.ids) != []
  {
    hide Attribute, Enumerated, MergedFor;
    var merged := MergedFor(m.tag, Looked(run.byTag, m.tag), Enumerated(run), Tags(run), run.ids);
    forall r
      ensures r in merged <==>
        IsLooked(run, m.tag, r) || (IsNew(run, r) && Attribute(r, Tags(run), run.ids) == Some(m.tag))
    {
      MergedHolds(m.tag, Looked(run.byTag, m.tag), Enumerated(run), Tags(run), run.ids, r);
      NewIsEnumerated(run, r);
    }
    if merged != [] {
      var r := AMember(merged);
    }
  }

  /** The result of one message, every part of it: whether it opened a ticket, whether it was answered
      (unknown without a sink, or while mail that belongs to nobody was seen), and what counts against it. */
  lemma ResultSays(run: Run, m: Machine)
    ensures var r := ResultOf(run, m);
      && r.tag == m.tag && r.bait == m.bait
      && (r.ticked <==> OpenedATicket(run, m))
      && (r.replied == Some(true) <==> WasAnswered(run, m))
      && (r.replied == Some(false) <==> run.sink && !WasAnswered(run, m) && AllAttributed(run))
      && (r.state.Yes? <==> r.replied == Some(true)) && (r.state.No? <==> r.replied == Some(false))
      && (r.state.NotChecked? <==> !run.sink)
      && (TicketOpened in r.findings <==> OpenedATicket(run, m) && run.policy.NoTickets?)
      && (BaitAnswered in r.findings <==> WasAnswered(run, m) && m.bait)
      && (ReplyEmitted in r.findings <==> WasAnswered(run, m) && !m.bait)
      && (r.findings == [] <==> !(OpenedATicket(run, m) && run.policy.NoTickets?) && !WasAnswered(run, m))
  {
    hide Enumerated, MergedFor, Attribute, Stray, Opened, OpenedATicket, WasAnswered, AllAttributed, Tags;
    TicketOpenedIff(run, m);
    WasAnsweredIff(run, m);
    NothingStray(run);
  }

  lemma TicketOpenedIff(run: Run, m: Machine)
    ensures OpenedATicket(run, m) <==> Opened(TicketsOf(run, m.tag), Threaded(run, m)) != []
  {
    SomeOpened(TicketsOf(run, m.tag), Threaded(run, m));
    forall t
      ensures HasTicket(run, m.tag, t) <==> t in TicketsOf(run, m.tag)
      ensures HasTicket(run, run.precursor, t) <==> t in TicketsOf(run, run.precursor)
    {
    }
  }

  /** Nothing speaks against the pipeline: all new mail is attributed, and no judged message opened a
      ticket it may not open or was answered. */
  ghost predicate NothingFound(run: Run) {
    && AllAttributed(run)
    && forall m :: m in run.judged ==> !(OpenedATicket(run, m) && run.policy.NoTickets?) && !WasAnswered(run, m)
  }

  /** Every verdict and every qualifier, for every run. */
  lemma HeadlineSays(run: Run)
    ensures var (verdict, qualifier) := Headline(run);
      && (verdict.ReadbackFailed? <==> run.failed)
      && (verdict.Unsettled? <==> !run.failed && run.unsettled)
      && (verdict.LoopSafe? <==> !run.failed && !run.unsettled && NothingFound(run))
      && (verdict.LoopsDetected? <==> !run.failed && !run.unsettled && !NothingFound(run))
      && (qualifier.RepliesNotChecked? <==> !run.sink && run.judged != [])
      && (qualifier.UntaggedNotChecked? <==> run.sink && !run.canList)
      && (qualifier.Plain? <==> if run.sink then run.canList else run.judged == [])
  {
    hide ResultOf, Stray, AllAttributed, OpenedATicket, WasAnswered;
    CountIsZero(Results(run), Failing);
    CountIsZero(Results(run), Skipped);
    NothingStray(run);
    forall m
      ensures ResultOf(run, m).findings == [] <==>
        !(OpenedATicket(run, m) && run.policy.NoTickets?) && !WasAnswered(run, m)
      ensures ResultOf(run, m).state.NotChecked? <==> !run.sink
    {
      ResultSays(run, m);
    }
    assert forall i :: 0 <= i < |run.judged| ==> Results(run)[i] == ResultOf(run, run.judged[i]);
    assert forall m :: m in run.judged <==> exists i :: 0 <= i < |run.judged| && run.judged[i] == m;
  }

  lemma QuietResult(m: Machine, tickets: seq<string>, outbound: Option<seq<Record>>, policy: Policy, strayMail: bool,
      threaded: set<string>)
    requires var r := JudgeOne(m, tickets, outbound, policy, strayMail, threaded); r.findings == [] && !r.state.NotChecked?
    ensures outbound == Some([]) && (policy.NoTickets? ==> forall t :: t in tickets ==> t in threaded)
  {
    NoneOpened(tickets, threaded);
  }

  lemma QuietMessage(run: Run, m: Machine)
    requires Headline(run) == (LoopSafe, Plain) && m in run.judged
    ensures run.sink && run.canList
    ensures MergedFor(m.tag, Looked(run.byTag, m.tag), Enumerated(run), Tags(run), run.ids) == []
    ensures run.policy.NoTickets? ==> forall t :: t in TicketsOf(run, m.tag) ==> t in Threaded(run, m)
  {
    hide Headline, MergedFor, Unclaimed;
    PlainLoopSafe(run);
    QuietResult(m, TicketsOf(run, m.tag), OutboundOf(run, m.tag), run.policy, Stray(run) != [], Threaded(run, m));
  }

  /** LOOP-SAFE without a qualifier says of every record the listing shows beyond the baseline that it
      answers the precursor. */
  lemma ListedIsThePrecursors(run: Run, r: Record)
    requires Headline(run) == (LoopSafe, Plain) && run.judged != [] && KnownIds(Tags(run), run.ids)
    requires r in Enumerated(run)
    ensures Attribute(r, Tags(run), run.ids) == Some(run.precursor)
  {
    hide Headline, MergedFor, Unclaimed, Attribute, Enumerated;
    PlainLoopSafe(run);
    QuietMessage(run, run.judged[0]);
    UnclaimedHolds(Enumerated(run), Tags(run), run.ids, r);
    AttributedIsKnown(r, Tags(run), run.ids);
    if m :| m in run.judged && Attribute(r, Tags(run), run.ids) == Some(m.tag) {
      QuietMessage(run, m);
      MergedHolds(m.tag, Looked(run.byTag, m.tag), Enumerated(run), Tags(run), run.ids, r);
    }
  }

  /** Over a sink that only grew and was listed to its end: every record appended since the baseline
      belongs to the precursor, no judged message got a reply by either route, and, unless tickets are
      allowed, none opened one. */
  lemma LoopSafeIsSound(run: Run, appended: seq<Record>)
    requires Headline(run) == (LoopSafe, Plain)
    requires run.judged != [] && KnownIds(Tags(run), run.ids)
    requires run.listing == run.baseline + appended
    ensures forall r :: r in appended ==> Attribute(r, Tags(run), run.ids) == Some(run.precursor)
    ensures forall m :: m in run.judged ==> Looked(run.byTag, m.tag) == []
    ensures run.policy.NoTickets? ==> forall m, t :: m in run.judged && t in TicketsOf(run, m.tag) ==> t in Threaded(run, m)
  {
    hide Headline, MergedFor, Unclaimed, Attribute, TicketsOf, Threaded;
    NewIsWhatWasAppended(run.baseline, appended);
    QuietMessage(run, run.judged[0]);
    forall r | r in appended
      ensures Attribute(r, Tags(run), run.ids) == Some(run.precursor)
    {
      ListedIsThePrecursors(run, r);
    }
    forall m | m in run.judged
      ensures Looked(run.byTag, m.tag) == []
      ensures run.policy.NoTickets? ==> forall t :: t in TicketsOf(run, m.tag) ==> t in Threaded(run, m)
    {
      QuietMessage(run, m);
      LookedIsEmpty(run, m.tag);
    }
  }

  lemma LookedIsEmpty(run: Run, tag: string)
    requires MergedFor(tag, Looked(run.byTag, tag), Enumerated(run), Tags(run), run.ids) == []
    ensures Looked(run.byTag, tag) == []
  {
    hide MergedFor, Enumerated;
    var looked := Looked(run.byTag, tag);
    if looked != [] {
      MergedHolds(tag, looked, Enumerated(run), Tags(run), run.ids, looked[0]);
    }
  }

  // A listing that stopped at its page limit

  /** The records that carry a tag. */
  function Tagged(records: seq<Record>, tag: string): (found: seq<Record>)
    ensures forall r :: r in found <==> r in records && r.tag == Some(tag)
  {
    if records == [] then []
    else (if records[0].tag == Some(tag) then [records[0]] else []) + Tagged(records[1..], tag)
  }

  lemma {:induction false} NoneTagged(records: seq<Record>, tag: string)
    requires forall r :: r in records ==> r.tag != Some(tag)
    ensures Tagged(records, tag) == []
  {
    if records != [] {
      NoneTagged(records[1..], tag);
    }
  }

  /** The sink only grew; its listing is a beginning of it, all of it unless `partial`; and the lookup of
      a judged message's tag finds every record that carries it. */
  ghost predicate Lists(run: Run, appended: seq<Record>) {
    var whole := run.baseline + appended;
    && run.judged != [] && KnownIds(Tags(run), run.ids)
    && run.listing <= whole && (!run.partial ==> run.listing == whole)
    && forall m :: m in run.judged ==> Looked(run.byTag, m.tag) == Tagged(whole, m.tag)
  }

  /** What a listing that stopped early can hide: LOOP-SAFE still holds of the records listed, and none
      that was not listed carries the tag of a judged message. */
  lemma OnlyUntaggedRepliesHide(run: Run, appended: seq<Record>)
    requires Headline(run) == (LoopSafe, Plain) && Lists(run, appended)
    ensures forall k :: |run.baseline| <= k < |run.listing| ==>
      Attribute(run.listing[k], Tags(run), run.ids) == Some(run.precursor)
    ensures forall r, m :: r in appended && m in run.judged ==> r.tag != Some(m.tag)
  {
    hide Headline, MergedFor, Unclaimed, Attribute, Tags;
    var n := |run.baseline|;
    forall k | n <= k < |run.listing|
      ensures Attribute(run.listing[k], Tags(run), run.ids) == Some(run.precursor)
    {
      var listed := run.listing[n..];
      assert run.listing == run.baseline + listed;
      NewIsWhatWasAppended(run.baseline, listed);
      QuietMessage(run, run.judged[0]);
      assert listed[k - n] in listed;
      ListedIsThePrecursors(run, run.listing[k]);
    }
    forall r, m | r in appended && m in run.judged
      ensures r.tag != Some(m.tag)
    {
      QuietMessage(run, m);
      LookedIsEmpty(run, m.tag);
      assert r in run.baseline + appended;
    }
  }

  /** The listing has to reach the end of the sink: `partial` is recorded beside the verdict and not in
      it, so an untagged answer to the bait, on a page that was not read, leaves LOOP-SAFE standing. */
  lemma PartialListingHidesAReply() returns (run: Run, appended: seq<Record>)
    ensures Headline(run) == (LoopSafe, Plain) && run.partial && Lists(run, appended)
    ensures run.baseline == [] && |appended| == 2 && run.listing == [appended[0]]
    ensures appended[1].tag == None && run.judged[0].bait && run.judged[0].tag != run.precursor
    ensures Attribute(appended[1], Tags(run), run.ids) == Some(run.judged[0].tag)
  {
    hide MergedFor, Unclaimed;
    var bait := Machine("b", true);
    var answer, hidden := Record(None, Some("to p"), [], "1"), Record(None, Some("to b"), [], "2");
    appended := [answer, hidden];
    run := Run([bait], "p", map["to p" := "p", "to b" := "b"], map[], true, true, [], [answer], true, map[], NoTickets,
      false, false);
    assert appended == [answer] + [hidden];
    assert run.listing <= run.baseline + appended;
    NothingBefore([answer]);
    assert Attribute(answer, Tags(run), run.ids) == Some("p");
    assert Enumerated(run) == [answer];
    NoneTagged(run.baseline + appended, "b");
    if Stray(run) != [] {
      var r := AMember(Stray(run));
      UnclaimedHolds([answer], Tags(run), run.ids, r);
    }
    if MergedFor("b", [], [answer], Tags(run), run.ids) != [] {
      var r := AMember(MergedFor("b", [], [answer], Tags(run), run.ids));
      MergedHolds("b", [], [answer], Tags(run), run.ids, r);
    }
    assert Results(run) == [ResultOf(run, bait)];
    PlainLoopSafe(run);
  }

  ghost predicate AllThePrecursors(run: Run, appended: seq<Record>) {
    forall r :: r in appended ==> Attribute(r, Tags(run), run.ids) == Some(run.precursor)
  }

  ghost predicate Sound(run: Run, appended: seq<Record>) {
    Headline(run) == (LoopSafe, Plain) ==> AllThePrecursors(run, appended)
  }

  /** The unqualified verdict can be relied on exactly when the listing was not partial. */
  lemma SoundIffNotPartial(partial: bool)
    ensures (forall run, appended :: Lists(run, appended) && run.partial == partial ==> Sound(run, appended)) <==> !partial
  {
    hide Headline, Attribute;
    if partial {
      var run, appended := PartialListingHidesAReply();
      assert appended[1] in appended;
      assert Lists(run, appended) && !Sound(run, appended);
    } else {
      forall run, appended | Lists(run, appended) && run.partial == partial && Headline(run) == (LoopSafe, Plain)
        ensures AllThePrecursors(run, appended)
      {
        LoopSafeIsSound(run, appended);
      }
    }
  }
}
