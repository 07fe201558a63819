/**
 `read_back_all`: polls every tag until the observed state has held for the quiet window or the
 budget runs out. Proved against the settling rule over the lookups really made, the hard budget, and
 exactly when a run on a store that answers at once and does not change settles.
 */
module ReadBackAll {
  import opened Wrappers
  import opened Clocks
  import opened Reals
  import opened HttpReadback
  import opened Pagination
  import opened Settling

  /** What an adapter that is not the HTTP one reads from: its answers change as they like (the number
      of the lookup tells when), or are always the same and given at once. */
  datatype Backing = Varying(reply: (nat, Tag) -> Result<FetchResult, Failure>) | Constant(answer: Tag -> FetchResult) {
    function Reply(number: nat, tag: Tag): Result<FetchResult, Failure> {
      match this
      case Varying(reply) => reply(number, tag)
      case Constant(answer) => Ok(answer(tag))
    }
  }

  /** Any other adapter: it takes the time it takes, and never hears of the deadline. */
  class OtherAdapter {
    const backing: Backing
    var lookups: nat
    /** Every lookup so far; each is its own exchange. */
    ghost var log: seq<Entry>

    constructor (backing: Backing)
      ensures this.backing == backing && Logged() && log == []
    {
      this.backing, lookups, log := backing, 0, [];
    }

    ghost predicate Logged()
      reads this
    {
      && |log| == lookups
      && forall k :: 0 <= k < |log| ==>
           log[k].first == k && log[k].past == k + 1 && log[k].answer == backing.Reply(k, log[k].tag)
    }

    method Fetch(tag: Tag, clock: Clock) returns (r: Result<FetchResult, Failure>)
      requires Logged()
      modifies this, clock
      ensures Logged() && old(clock.now) <= clock.now
      ensures log == old(log) + [Entry(tag, r, old(clock.now), clock.now, old(lookups), lookups)]
      ensures backing.Constant? ==> r == Ok(backing.answer(tag)) && clock.now == old(clock.now)
    {
      ghost var began := clock.now;
      if backing.Varying? {
        var limit: real := *;
        clock.Spend(if limit >= 0.0 then limit else 0.0);
      }
      r := backing.Reply(lookups, tag);
      log := log + [Entry(tag, r, began, clock.now, lookups, lookups + 1)];
      lookups := lookups + 1;
    }
  }

  /** Where lookups go. */
  datatype Source = Http(adapter: HttpAdapter) | Other(other: OtherAdapter) {
    ghost function Repr(): set<object> {
      if Http? then {adapter} else {other}
    }

    ghost predicate Valid(clock: Clock)
      reads Repr(), clock
    {
      if Http? then adapter.clock == clock && adapter.Valid() && adapter.Logged() else other.Logged()
    }

    /** Ready for a run, whatever clock it was on. */
    ghost predicate Ready()
      reads Repr(), if Http? then {adapter.clock} else {}
    {
      if Http? then adapter.Valid() && adapter.Logged() else other.Logged()
    }

    /** The HTTP adapter runs on this clock and stops at this deadline. */
    ghost predicate Bound(clock: Clock, deadline: real)
      reads Repr(), clock
    {
      Valid(clock) && (Http? ==> adapter.deadline == Some(deadline))
    }

    ghost function Reached(clock: Clock): Mark
      reads Repr(), clock
    {
      Mark(clock.now, if Http? then adapter.starts else [])
    }

    /** Every lookup made so far. */
    ghost function Log(): seq<Entry>
      reads Repr()
    {
      if Http? then adapter.log else other.log
    }

    /** Seconds between request starts. */
    ghost function Gap(): (gap: real)
      requires Http? ==> adapter.Configured()
      ensures gap >= 0.0
    {
      if Http? then adapter.Gap() else 0.0
    }

    /** The pacing that the budget is sized by. */
    function Rate(): Option<real> {
      if Http? then adapter.rate else None
    }

    /** When the next request may go out. */
    ghost function Slot(clock: Clock): real
      reads Repr(), clock, if Http? then {adapter.clock} else {}
    {
      if Http? then adapter.EarliestStart() else clock.now
    }
  }

  datatype ReadError = BadOption | LookupFailed

  ghost predicate DistinctTags(tags: seq<Tag>) {
    forall i, j :: 0 <= i < j < |tags| ==> tags[i] != tags[j]
  }

  /** Tags in the order in which they are first seen. */
  function FirstSeen(probes: seq<Tag>): seq<Tag> {
    if probes == [] then []
    else
      var before, last := FirstSeen(probes[..|probes| - 1]), probes[|probes| - 1];
      if last in before then before else before + [last]
  }

  /** A tag is asked once per poll, not once per delivery. */
  method Distinct(probes: seq<Tag>) returns (asked: seq<Tag>)
    ensures asked == FirstSeen(probes)
    ensures forall tag :: tag in asked <==> tag in probes
    ensures DistinctTags(asked)
    ensures |asked| <= |probes| && (DistinctTags(probes) ==> asked == probes)
  {
    asked := [];
    assert probes[..0] == [] && probes[..|probes|] == probes;
    for k := 0 to |probes|
      invariant asked == FirstSeen(probes[..k])
      invariant forall tag :: tag in asked <==> tag in probes[..k]
      invariant DistinctTags(asked)
      invariant |asked| <= k && (DistinctTags(probes) ==> asked == probes[..k])
    {
      assert probes[..k + 1][..k] == probes[..k];
      if probes[k] !in asked {
        asked := asked + [probes[k]];
      }
    }
  }

  // A store that answers at once and never changes

  /** Every request, or every lookup, is answered at once and by one rule, and every tag's lookup
      succeeds, in however many pages. */
  ghost predicate Steady(source: Source, asked: seq<Tag>) {
    match source
    case Http(adapter) =>
      && adapter.Configured() && adapter.client.server.Instant?
      && forall tag :: tag in asked ==> adapter.Fixed(LookupUrl(tag), true).Ok?
    case Other(other) => other.backing.Constant?
  }

  /** What a steady store answers to the lookup of a tag. */
  ghost function FixedAnswer(source: Source, tag: Tag): FetchResult
    requires Steady(source, [tag])
  {
    match source
    case Http(adapter) =>
      assert tag in [tag];
      adapter.Fixed(LookupUrl(tag), true).value
    case Other(other) => other.backing.answer(tag)
  }

  /** How many requests the lookup of a tag takes on a steady store: one a page. */
  ghost function Cost(source: Source, tag: Tag): (requests: nat)
    requires Steady(source, [tag])
    ensures requests >= 1
  {
    match source
    case Http(adapter) => adapter.Pages(LookupUrl(tag), true)
    case Other(_) => 1
  }

  lemma SteadyFor(source: Source, asked: seq<Tag>, i: nat)
    requires Steady(source, asked) && i < |asked|
    ensures Steady(source, [asked[i]])
  {
  }

  /** How many requests the first `i` lookups of a poll take. */
  ghost function RequestsTo(source: Source, asked: seq<Tag>, i: nat): (requests: nat)
    requires Steady(source, asked) && i <= |asked|
    ensures requests >= i && (requests == 0 <==> i == 0)
  {
    if i == 0 then 0 else RequestsTo(source, asked, i - 1) + Cost(source, asked[i - 1])
  }

  /** How many requests a poll takes. */
  ghost function Requests(source: Source, asked: seq<Tag>): (requests: nat)
    requires Steady(source, asked)
    ensures requests >= |asked| && (requests == 0 <==> asked == [])
  {
    RequestsTo(source, asked, |asked|)
  }

  lemma {:induction false} RequestsGrow(source: Source, asked: seq<Tag>, i: nat, j: nat)
    requires Steady(source, asked) && i <= j <= |asked|
    ensures RequestsTo(source, asked, i) <= RequestsTo(source, asked, j)
    decreases j
  {
    if i < j {
      RequestsGrow(source, asked, i, j - 1);
    }
  }

  /** A poll takes as few requests as there are tags exactly when each lookup takes one. */
  lemma {:induction false} OneRequestATag(source: Source, asked: seq<Tag>, i: nat)
    requires Steady(source, asked) && i <= |asked|
    ensures RequestsTo(source, asked, i) == i <==> forall k :: 0 <= k < i ==> Cost(source, asked[k]) == 1
  {
    if i > 0 {
      OneRequestATag(source, asked, i - 1);
    }
  }

  /** How far a run has got: the time, and when the HTTP requests on this clock went out. */
  datatype Mark = Mark(now: real, starts: seq<real>)

  /** From `a` to `b` the budget was kept: no request at or after the deadline, and time at most the
      shortest timeout past it. An adapter that does not hear of the deadline promises nothing. */
  ghost predicate KeepsBudget(source: Source, a: Mark, b: Mark, deadline: real) {
    && a.now <= b.now
    && (source.Http? ==>
         && b.now <= Max(a.now, deadline + SHORTEST_TIMEOUT)
         && a.starts <= b.starts && AllBefore(b.starts, |a.starts|, Some(deadline)))
  }

  lemma MarkKeepsBudget(source: Source, a: Mark, deadline: real)
    ensures KeepsBudget(source, a, a, deadline)
  {
  }

  lemma BudgetIsKept(source: Source, a: Mark, b: Mark, c: Mark, deadline: real)
    requires KeepsBudget(source, a, b, deadline) && KeepsBudget(source, b, c, deadline)
    ensures KeepsBudget(source, a, c, deadline)
  {
  }

  /** A lookup of a tag on a steady store whose first request may go out at `slot`: it is answered when
      its last page's turn comes before the deadline, and otherwise given up at most a gap before it. */
  ghost predicate LookedUp(source: Source, tag: Tag, r: Result<FetchResult, Failure>, slot: real, now: real, later: real,
      deadline: real)
    requires Steady(source, [tag])
  {
    var last := slot + Times(Cost(source, tag) - 1, source.Gap());
    if source.Other? || last < deadline then r == Ok(FixedAnswer(source, tag)) && now == last && later == now + source.Gap()
    else r == Err(BudgetExhausted) && now >= deadline - source.Gap()
  }

  ghost predicate LogsLookup(e: Entry, tag: Tag, r: Result<FetchResult, Failure>, began: real, ended: real) {
    e.tag == tag && e.answer == r && e.began == began && e.ended == ended
  }

  /** One lookup, which becomes the last of the log. */
  method Fetch(source: Source, tag: Tag, clock: Clock, ghost deadline: real)
    returns (r: Result<FetchResult, Failure>)
    requires source.Bound(clock, deadline)
    modifies clock, source.Repr()
    ensures source.Bound(clock, deadline)
    ensures KeepsBudget(source, old(source.Reached(clock)), source.Reached(clock), deadline)
    ensures |source.Log()| == |old(source.Log())| + 1 && old(source.Log()) <= source.Log()
    ensures LogsLookup(source.Log()[|old(source.Log())|], tag, r, old(clock.now), clock.now)
    ensures Steady(source, [tag]) ==>
      LookedUp(source, tag, r, old(source.Slot(clock)), clock.now, source.Slot(clock), deadline)
  {
    match source
    case Http(adapter) =>
      assert Steady(source, [tag]) ==> tag in [tag] && adapter.Fixed(LookupUrl(tag), true).Ok?;
      r := adapter.Fetch(tag);
    case Other(other) =>
      r := other.Fetch(tag, clock);
  }

  // One poll

  /** A steady store's answers. */
  ghost predicate ReadsAsAnswered(source: Source, asked: seq<Tag>, found: map<Tag, seq<Readback>>)
    requires Steady(source, asked)
  {
    forall i :: 0 <= i < |asked| ==> Lookup(found, asked[i]) == FixedAnswer(source, asked[i]).records
  }

  /** When the last of so many requests went out. */
  ghost function LastOf(requests: nat, slot: real, gap: real, now: real): real {
    if requests == 0 then now else slot + Times(requests - 1, gap)
  }

  /** A poll of a steady store from `t0` to `t1`: it is complete when its last request's turn comes before
      the deadline, and otherwise given up at most a gap before it. */
  ghost predicate SteadyPoll(source: Source, asked: seq<Tag>, before: map<Tag, seq<Readback>>,
      found: map<Tag, seq<Readback>>, exhausted: bool, failed: bool, slot: real, t0: real, t1: real, later: real,
      deadline: real)
    requires Steady(source, asked)
  {
    var requests := Requests(source, asked);
    && !failed
    && (ReadsAsAnswered(source, asked, before) || !exhausted ==> ReadsAsAnswered(source, asked, found))
    && (if exhausted then asked != [] && t1 >= deadline - source.Gap()
        else t1 == LastOf(requests, slot, source.Gap(), t0) && later == slot + Times(requests, source.Gap()))
    && (t0 < deadline ==> (exhausted <==> LastOf(requests, slot, source.Gap(), t0) >= deadline))
  }

  /** A poll of a steady store under way, `i` lookups in. */
  ghost predicate OnSchedule(source: Source, asked: seq<Tag>, i: nat, before: map<Tag, seq<Readback>>,
      found: map<Tag, seq<Readback>>, slot: real, t0: real, now: real, later: real, deadline: real)
    requires Steady(source, asked) && i <= |asked|
  {
    var requests := RequestsTo(source, asked, i);
    && now == LastOf(requests, slot, source.Gap(), t0) && later == slot + Times(requests, source.Gap())
    && (i > 0 ==> source.Other? || now < deadline)
    && (source.Other? ==> slot == t0)
    && AnsweredTo(source, asked, i, before, found)
  }

  ghost predicate AnsweredTo(source: Source, asked: seq<Tag>, i: nat, before: map<Tag, seq<Readback>>,
      found: map<Tag, seq<Readback>>)
    requires Steady(source, asked) && i <= |asked|
  {
    && (forall k :: 0 <= k < i ==> Lookup(found, asked[k]) == FixedAnswer(source, asked[k]).records)
    && (ReadsAsAnswered(source, asked, before) ==> ReadsAsAnswered(source, asked, found))
  }

  lemma OneMoreAnswered(source: Source, asked: seq<Tag>, i: nat, before: map<Tag, seq<Readback>>,
      found: map<Tag, seq<Readback>>)
    requires Steady(source, asked) && i < |asked| && DistinctTags(asked) && AnsweredTo(source, asked, i, before, found)
    ensures AnsweredTo(source, asked, i + 1, before, found[asked[i] := FixedAnswer(source, asked[i]).records])
  {
    hide FixedAnswer, Steady;
  }

  lemma LastGrows(source: Source, asked: seq<Tag>, i: nat, slot: real, t0: real)
    requires Steady(source, asked) && 0 < i <= |asked|
    ensures LastOf(RequestsTo(source, asked, i), slot, source.Gap(), t0)
      <= LastOf(Requests(source, asked), slot, source.Gap(), t0)
  {
    RequestsGrow(source, asked, i, |asked|);
    var m := RequestsTo(source, asked, i);
    TimesAdd(m - 1, Requests(source, asked) - m, source.Gap());
  }

  lemma GivesUp(source: Source, asked: seq<Tag>, i: nat, before: map<Tag, seq<Readback>>, found: map<Tag, seq<Readback>>,
      slot: real, t0: real, now: real, later: real, deadline: real)
    requires Steady(source, asked) && i < |asked| && now >= deadline
    requires OnSchedule(source, asked, i, before, found, slot, t0, now, later, deadline)
    ensures SteadyPoll(source, asked, before, found, true, false, slot, t0, now, later, deadline)
  {
    if i > 0 {
      LastGrows(source, asked, i, slot, t0);
    }
  }

  lemma StaysOnSchedule(source: Source, asked: seq<Tag>, i: nat, before: map<Tag, seq<Readback>>,
      found: map<Tag, seq<Readback>>, slot: real, t0: real, began: real, due: real, r: Result<FetchResult, Failure>,
      now: real, later: real, deadline: real)
    requires Steady(source, asked) && i < |asked| && DistinctTags(asked)
    requires OnSchedule(source, asked, i, before, found, slot, t0, began, due, deadline)
    requires LookedUp(source, asked[i], r, due, now, later, deadline)
    ensures if r.Ok? then
        OnSchedule(source, asked, i + 1, before, found[asked[i] := r.value.records], slot, t0, now, later, deadline)
      else
        r.error == BudgetExhausted && SteadyPoll(source, asked, before, found, true, false, slot, t0, now, later, deadline)
  {
    hide Cost, FixedAnswer, AnsweredTo, ReadsAsAnswered;
    var m, cost := RequestsTo(source, asked, i), Cost(source, asked[i]);
    TimesAdd(m, cost - 1, source.Gap());
    TimesAdd(m, cost, source.Gap());
    LastGrows(source, asked, i + 1, slot, t0);
    OneMoreAnswered(source, asked, i, before, found);
    KeepsAnswers(source, asked, i, before, found);
    if source.Other? {
      TimesIsProduct(m, source.Gap());
    }
  }

  lemma KeepsAnswers(source: Source, asked: seq<Tag>, i: nat, before: map<Tag, seq<Readback>>,
      found: map<Tag, seq<Readback>>)
    requires Steady(source, asked) && i <= |asked| && AnsweredTo(source, asked, i, before, found)
    ensures ReadsAsAnswered(source, asked, before) || i == |asked| ==> ReadsAsAnswered(source, asked, found)
  {
  }

  lemma CompleteOnSchedule(source: Source, asked: seq<Tag>, before: map<Tag, seq<Readback>>,
      found: map<Tag, seq<Readback>>, slot: real, t0: real, now: real, later: real, deadline: real)
    requires Steady(source, asked)
    requires OnSchedule(source, asked, |asked|, before, found, slot, t0, now, later, deadline)
    ensures SteadyPoll(source, asked, before, found, false, false, slot, t0, now, later, deadline)
  {
    if source.Other? && asked != [] {
      TimesIsProduct(Requests(source, asked) - 1, source.Gap());
    }
  }

  /** The answers held, and how many lookups have been made. */
  datatype Held = Held(found: map<Tag, seq<Readback>>, partial: set<Tag>, lookups: nat)

  function Holding(held: Held, tag: Tag, answer: FetchResult): Held {
    held.(found := held.found[tag := answer.records],
          partial := if answer.partial then held.partial + {tag} else held.partial - {tag})
  }

  /** The lookups of one poll, complete or not, and what it left of the answers held before. */
  ghost predicate Looked(asked: seq<Tag>, log: seq<Entry>, before: Held, held: Held, t0: real) {
    && |log| <= |asked| && held.lookups == before.lookups + |log|
    && (forall i :: 0 <= i < |log| ==> Recorded(log[i], asked[i], held.found, held.partial) && log[i].began >= t0)
    && (log != [] ==> log[0].began == t0)
    && (forall i :: 0 <= i < |asked| && (i < |log| ==> log[i].answer.Err?) ==>
         && Lookup(held.found, asked[i]) == Lookup(before.found, asked[i])
         && (asked[i] in held.partial <==> asked[i] in before.partial))
  }

  ghost predicate AllAnswered(log: seq<Entry>) {
    forall i :: 0 <= i < |log| ==> log[i].answer.Ok?
  }

  /** Every tag was asked from `t0` to `t1`, and answered. */
  ghost predicate AllAsked(asked: seq<Tag>, log: seq<Entry>, t0: real, t1: real) {
    |log| == |asked| && AllAnswered(log) && t1 == if log == [] then t0 else log[|log| - 1].ended
  }

  lemma LookedOneMore(asked: seq<Tag>, log: seq<Entry>, e: Entry, before: Held, held: Held, t0: real)
    requires DistinctTags(asked) && Looked(asked, log, before, held, t0) && AllAnswered(log)
    requires |log| < |asked| && e.tag == asked[|log|] && t0 <= e.began <= e.ended && (log == [] ==> e.began == t0)
    ensures var now := if e.answer.Ok? then Holding(held, e.tag, e.answer.value) else held;
      Looked(asked, log + [e], before, now.(lookups := held.lookups + 1), t0)
    ensures e.answer.Ok? ==> AllAnswered(log + [e])
  {
  }

  /** Where a poll that began at `t0` stands after the lookups `log`, all of them answered. */
  ghost predicate Polling(source: Source, asked: seq<Tag>, log: seq<Entry>, before: Held, held: Held, slot: real, t0: real,
      now: real, later: real, deadline: real)
  {
    && Looked(asked, log, before, held, t0) && AllAnswered(log)
    && t0 <= now && now == (if log == [] then t0 else log[|log| - 1].ended)
    && (Steady(source, asked) ==>
         OnSchedule(source, asked, |log|, before.found, held.found, slot, t0, now, later, deadline))
  }

  /** How a poll ended. */
  ghost predicate Polled(source: Source, asked: seq<Tag>, log: seq<Entry>, before: Held, held: Held, exhausted: bool,
      failed: bool, slot: real, t0: real, now: real, later: real, deadline: real)
  {
    && Looked(asked, log, before, held, t0)
    && (!exhausted && !failed ==> AllAsked(asked, log, t0, now))
    && (exhausted ==> CutFor(asked, log, now, deadline))
    && (Steady(source, asked) ==>
         SteadyPoll(source, asked, before.found, held.found, exhausted, failed, slot, t0, now, later, deadline))
  }

  lemma PollBegins(source: Source, asked: seq<Tag>, held: Held, slot: real, t0: real, deadline: real)
    requires source.Other? ==> slot == t0
    ensures Polling(source, asked, [], held, held, slot, t0, t0, slot, deadline)
  {
  }

  lemma PollEnds(source: Source, asked: seq<Tag>, log: seq<Entry>, before: Held, held: Held, slot: real, t0: real,
      now: real, later: real, deadline: real)
    requires Polling(source, asked, log, before, held, slot, t0, now, later, deadline)
    ensures |log| == |asked| ==> Polled(source, asked, log, before, held, false, false, slot, t0, now, later, deadline)
    ensures |log| < |asked| && now >= deadline ==>
      Polled(source, asked, log, before, held, true, false, slot, t0, now, later, deadline)
  {
    hide Steady, OnSchedule, SteadyPoll;
    if Steady(source, asked) {
      if |log| == |asked| {
        CompleteOnSchedule(source, asked, before.found, held.found, slot, t0, now, later, deadline);
      } else if now >= deadline {
        GivesUp(source, asked, |log|, before.found, held.found, slot, t0, now, later, deadline);
      }
    }
  }

  lemma PollGoesOn(source: Source, asked: seq<Tag>, log: seq<Entry>, e: Entry, before: Held, held: Held, slot: real,
      t0: real, due: real, now: real, later: real, deadline: real)
    requires Polling(source, asked, log, before, held, slot, t0, e.began, due, deadline)
    requires |log| < |asked| && DistinctTags(asked) && e.tag == asked[|log|] && e.began <= e.ended == now
    requires Steady(source, [e.tag]) ==> LookedUp(source, e.tag, e.answer, due, now, later, deadline)
    ensures var once := held.(lookups := held.lookups + 1);
      if e.answer.Ok?
      then Polling(source, asked, log + [e], before, Holding(once, e.tag, e.answer.value), slot, t0, now, later, deadline)
      else Polled(source, asked, log + [e], before, once, e.answer.error == BudgetExhausted,
             e.answer.error != BudgetExhausted, slot, t0, now, later, deadline)
  {
    hide OnSchedule, SteadyPoll, LookedUp, Looked, AllAnswered, Steady;
    LookedOneMore(asked, log, e, before, held, t0);
    if Steady(source, asked) {
      SteadyFor(source, asked, |log|);
      StaysOnSchedule(source, asked, |log|, before.found, held.found, slot, t0, e.began, due, e.answer, now, later, deadline);
    }
  }

  /** One poll: every tag once, unless the budget cuts it short. */
  method PollOnce(source: Source, asked: seq<Tag>, before: Held, clock: Clock, deadline: real)
    returns (held: Held, exhausted: bool, failed: bool, ghost log: seq<Entry>)
    requires source.Bound(clock, deadline) && DistinctTags(asked)
    modifies clock, source.Repr()
    ensures source.Bound(clock, deadline)
    ensures KeepsBudget(source, old(source.Reached(clock)), source.Reached(clock), deadline)
    ensures source.Log() == old(source.Log()) + log
    ensures Polled(source, asked, log, before, held, exhausted, failed, old(source.Slot(clock)), old(clock.now), clock.now,
      source.Slot(clock), deadline)
  {
    hide Polling, Polled, LookedUp, Steady, KeepsBudget, HttpAdapter.Valid, HttpAdapter.Logged, OtherAdapter.Logged;
    ghost var begun := source.Reached(clock);
    MarkKeepsBudget(source, begun, deadline);
    held, exhausted, failed, log := before, false, false, [];
    ghost var t0, slot := clock.now, source.Slot(clock);
    PollBegins(source, asked, before, slot, t0, deadline);
    for i := 0 to |asked|
      invariant source.Bound(clock, deadline) && KeepsBudget(source, begun, source.Reached(clock), deadline)
      invariant source.Log() == old(source.Log()) + log && |log| == i && !exhausted && !failed
      invariant Polling(source, asked, log, before, held, slot, t0, clock.now, source.Slot(clock), deadline)
    {
      PollEnds(source, asked, log, before, held, slot, t0, clock.now, source.Slot(clock), deadline);
      if held.lookups > 0 && clock.now >= deadline {
        exhausted := true;
        return;
      }
      ghost var due, mark := source.Slot(clock), source.Reached(clock);
      var r := Fetch(source, asked[i], clock, deadline);
      BudgetIsKept(source, begun, mark, source.Reached(clock), deadline);
      ghost var e := source.Log()[|old(source.Log())| + i];
      assert source.Log() == old(source.Log()) + (log + [e]);
      PollGoesOn(source, asked, log, e, before, held, slot, t0, due, clock.now, source.Slot(clock), deadline);
      log := log + [e];
      held := held.(lookups := held.lookups + 1);
      if r.Err? {
        exhausted, failed := r.error == BudgetExhausted, r.error != BudgetExhausted;
        return;
      }
      held := Holding(held, asked[i], r.value);
    }
    PollEnds(source, asked, log, before, held, slot, t0, clock.now, source.Slot(clock), deadline);
  }

  // The loop

  /** The variables of the polling loop. */
  datatype Watching = Watching(
    held: Held,
    count: nat,
    complete: nat,
    previous: Option<seq<seq<Readback>>>,
    previousStart: real,
    quietSince: Option<real>,
    changed: bool)

  datatype Status = Going | Quiet | OutOfTime | Exhausted | Broken {
    predicate CutShort() { Exhausted? || Broken? }
  }

  /** What the variables say about the complete polls. */
  ghost predicate Tracks(asked: seq<Tag>, polls: seq<Poll>, w: Watching, started: real, now: real) {
    && WerePolled(asked, polls, started)
    && (forall j :: 0 <= j < |polls| ==> polls[j].start <= now)
    && w.complete == |polls| && (w.previous.Some? <==> polls != [])
    && (polls != [] ==>
          && w.previous.value == Observed(asked, polls[|polls| - 1].found)
          && w.previousStart == polls[|polls| - 1].start)
    && w.quietSince == QuietSince(asked, polls)
    && (w.changed <==> PollsDiffer(asked, polls))
  }

  /** What holds of the loop's variables between polls, and once the loop is over: the complete polls
      are tracked, and the answers held are theirs but for the lookups `cut` of a poll cut short. */
  ghost predicate Between(asked: seq<Tag>, polls: seq<Poll>, cut: seq<Entry>, w: Watching, status: Status, started: real,
      now: real, quietWindow: real)
  {
    && Tracks(asked, polls, w, started, now)
    && w.count == |polls| + (if status.CutShort() then 1 else 0)
    && EndsWith(asked, polls, cut, w.held.found, w.held.partial)
    && (!status.CutShort() ==> cut == [])
    && (status.Quiet? || status.OutOfTime? ==> polls != [])
    && (status.Quiet? ==> w.quietSince.Some? && now - w.quietSince.value >= quietWindow)
  }

  /** What a complete poll does to the variables. */
  function AfterPoll(w: Watching, signature: seq<seq<Readback>>, pollStart: real): Watching {
    var same := w.previous == Some(signature);
    w.(complete := w.complete + 1, previous := Some(signature), previousStart := pollStart,
       quietSince := if !same then None else if w.quietSince.None? then Some(w.previousStart) else w.quietSince,
       changed := w.changed || (w.previous.Some? && !same))
  }

  /** Settled, out of time, or worth another poll. */
  function PollStatus(w: Watching, now: real, started: real, quietWindow: real, maxWait: real): Status {
    if w.quietSince.Some? && now - w.quietSince.value >= quietWindow then Quiet
    else if now - started >= maxWait then OutOfTime
    else Going
  }

  lemma TracksFirstPoll(asked: seq<Tag>, w: Watching, started: real, now: real, next: Poll, later: real)
    requires Tracks(asked, [], w, started, now) && started <= now <= next.start <= later && Complete(asked, next)
    ensures Tracks(asked, [next], AfterPoll(w, Observed(asked, next.found), next.start), started, later)
  {
    hide Complete, Observed;
    assert |StatesOf(asked, [next])| == 1;
  }

  lemma TracksOnePoll(asked: seq<Tag>, polls: seq<Poll>, w: Watching, started: real, now: real, next: Poll, later: real)
    requires Tracks(asked, polls, w, started, now) && started <= now <= next.start <= later && Complete(asked, next)
    ensures Tracks(asked, polls + [next], AfterPoll(w, Observed(asked, next.found), next.start), started, later)
  {
    hide Complete, QuietSince, PollsDiffer, Observed;
    if polls != [] {
      OneMorePoll(asked, polls, next);
    } else {
      assert [] + [next] == [next];
      TracksFirstPoll(asked, w, started, now, next, later);
    }
  }

  /** The lookups of a whole poll make it complete. */
  lemma CompletePoll(asked: seq<Tag>, log: seq<Entry>, before: Held, held: Held, t0: real, t1: real)
    requires Looked(asked, log, before, held, t0) && AllAsked(asked, log, t0, t1)
    ensures Complete(asked, Poll(t0, t1, held.found, held.partial, log))
    ensures forall polls ::
      EndsWith(asked, polls + [Poll(t0, t1, held.found, held.partial, log)], [], held.found, held.partial)
  {
    forall polls
      ensures EndsWith(asked, polls + [Poll(t0, t1, held.found, held.partial, log)], [], held.found, held.partial)
    {
      var p := Poll(t0, t1, held.found, held.partial, log);
      assert (polls + [p])[|polls + [p]| - 1] == p;
    }
  }

  lemma CutPoll(asked: seq<Tag>, polls: seq<Poll>, log: seq<Entry>, before: Held, held: Held, t0: real)
    requires EndsWith(asked, polls, [], before.found, before.partial) && Looked(asked, log, before, held, t0)
    requires forall j :: 0 <= j < |polls| ==> polls[j].start <= t0
    ensures EndsWith(asked, polls, log, held.found, held.partial)
  {
  }

  /** What a poll makes of the loop's variables. */
  lemma JudgedBetween(asked: seq<Tag>, polls: seq<Poll>, before: Watching, held: Held, log: seq<Entry>, exhausted: bool,
      failed: bool, started: real, t0: real, t1: real, quietWindow: real, maxWait: real)
    requires Between(asked, polls, [], before, Going, started, t0, quietWindow) && started <= t0 <= t1
    requires Looked(asked, log, before.held, held, t0)
    requires !exhausted && !failed ==> AllAsked(asked, log, t0, t1)
    ensures var polled := before.(held := held, count := before.count + 1);
      if exhausted || failed
      then Between(asked, polls, log, polled, if exhausted then Exhausted else Broken, started, t1, quietWindow)
      else
        var poll := Poll(t0, t1, held.found, held.partial, log);
        var w := AfterPoll(polled, Observed(asked, held.found), t0);
        Between(asked, polls + [poll], [], w, PollStatus(w, t1, started, quietWindow, maxWait), started, t1, quietWindow)
  {
    hide Looked, Complete, EndsWith, PollsDiffer, QuietSince;
    if exhausted || failed {
      CutPoll(asked, polls, log, before.held, held, t0);
    } else {
      CompletePoll(asked, log, before.held, held, t0, t1);
      TracksOnePoll(asked, polls, before, started, t0, Poll(t0, t1, held.found, held.partial, log), t1);
    }
  }

  // The loop on a steady store

  ghost function PollGap(source: Source, asked: seq<Tag>): (gap: real)
    requires Steady(source, asked)
    ensures gap >= 0.0
  {
    source.Gap()
  }

  ghost predicate AllRead(source: Source, asked: seq<Tag>, polls: seq<Poll>)
    requires Steady(source, asked)
  {
    forall j :: 0 <= j < |polls| ==> ReadsAsAnswered(source, asked, polls[j].found)
  }

  /** What a budget comes to on a steady store whose first request may go out `offset` after the start. */
  ghost predicate Fits(source: Source, asked: seq<Tag>, offset: real, pollInterval: real, maxWait: real)
    requires Steady(source, asked)
  {
    TwoPollsFit(Requests(source, asked), PollGap(source, asked), offset, pollInterval, maxWait)
  }

  /** Where a run on a steady store stands when it may poll again; `slot` was when its first request
      could go out, `due` is when the next one can. */
  ghost predicate OnTrack(source: Source, asked: seq<Tag>, polls: seq<Poll>, found: map<Tag, seq<Readback>>,
      started: real, slot: real, now: real, due: real, pollInterval: real, maxWait: real)
    requires Steady(source, asked)
  {
    var end := LastOf(Requests(source, asked), slot, PollGap(source, asked), started);
    && AllRead(source, asked, polls)
    && (polls == [] ==> now == started && due == slot)
    && (polls != [] ==> polls[0].start == started && ReadsAsAnswered(source, asked, found))
    && (|polls| == 1 ==>
         && now == Min(end + pollInterval, started + maxWait)
         && (asked != [] ==> due == Max(now, end + PollGap(source, asked))))
    && (|polls| >= 2 ==> Fits(source, asked, slot - started, pollInterval, maxWait))
  }

  /** Where it stands right after a poll. */
  ghost predicate Rested(source: Source, asked: seq<Tag>, polls: seq<Poll>, found: map<Tag, seq<Readback>>,
      started: real, slot: real, now: real, due: real, pollInterval: real, maxWait: real)
    requires Steady(source, asked)
  {
    && AllRead(source, asked, polls)
    && polls != [] && polls[0].start == started && ReadsAsAnswered(source, asked, found)
    && (|polls| == 1 ==>
         && now == LastOf(Requests(source, asked), slot, PollGap(source, asked), started)
         && due == slot + Times(Requests(source, asked), PollGap(source, asked)))
    && (|polls| >= 2 ==> Fits(source, asked, slot - started, pollInterval, maxWait))
  }

  /** How it ends: with two complete polls exactly when they fit, and then, if the quiet window fits too,
      not before the window has passed. */
  ghost predicate SteadyEnd(source: Source, asked: seq<Tag>, polls: seq<Poll>, found: map<Tag, seq<Readback>>,
      status: Status, started: real, slot: real, now: real, quietWindow: real, pollInterval: real, maxWait: real)
    requires Steady(source, asked)
  {
    && !status.Broken? && AllRead(source, asked, polls)
    && (polls != [] ==> polls[0].start == started && ReadsAsAnswered(source, asked, found))
    && (|polls| >= 2 <==> Fits(source, asked, slot - started, pollInterval, maxWait))
    && (|polls| >= 2 && WindowFits(Requests(source, asked), PollGap(source, asked), quietWindow, maxWait) ==>
         now - started >= quietWindow)
  }

  lemma SteadyPollsAgree(source: Source, asked: seq<Tag>, a: map<Tag, seq<Readback>>, b: map<Tag, seq<Readback>>)
    requires Steady(source, asked) && ReadsAsAnswered(source, asked, a) && ReadsAsAnswered(source, asked, b)
    ensures SameState(asked, a, b)
  {
  }

  /** On a steady store the window counts from the very start. */
  lemma QuietFromTheStart(source: Source, asked: seq<Tag>, polls: seq<Poll>)
    requires Steady(source, asked) && |polls| >= 2 && AllRead(source, asked, polls)
    ensures QuietSince(asked, polls) == Some(polls[0].start)
  {
    hide Steady, ReadsAsAnswered;
    var states := StatesOf(asked, polls);
    LastRunIsConstant(states);
    var r := LastRun(states);
    if r > 0 {
      SteadyPollsAgree(source, asked, polls[r - 1].found, polls[|polls| - 1].found);
    } else {
      assert r == 0;
    }
  }

  /** The first poll of a steady store: it is complete when its requests go out in time. */
  lemma FirstPollFits(requests: nat, gap: real, slot: real, started: real, pollInterval: real, maxWait: real)
    requires gap >= 0.0 && started <= slot && pollInterval > 0.0 && maxWait >= 0.0
    requires maxWait == 0.0 || LastOf(requests, slot, gap, started) >= started + maxWait
    ensures !TwoPollsFit(requests, gap, slot - started, pollInterval, maxWait)
  {
  }

  /** The second poll of a steady store is complete exactly when two polls fit. */
  lemma SecondPollFits(requests: nat, gap: real, slot: real, started: real, now: real, due: real, pollInterval: real,
      maxWait: real)
    requires gap >= 0.0 && pollInterval > 0.0 && now < started + maxWait
    requires now == Min(LastOf(requests, slot, gap, started) + pollInterval, started + maxWait)
    requires requests > 0 ==> due == Max(now, LastOf(requests, slot, gap, started) + gap)
    ensures LastOf(requests, due, gap, now) < started + maxWait
      <==> TwoPollsFit(requests, gap, slot - started, pollInterval, maxWait)
  {
  }

  /** A poll of a steady store that was given up ends the run. */
  lemma SteadyCut(source: Source, asked: seq<Tag>, polls: seq<Poll>, before: map<Tag, seq<Readback>>,
      found: map<Tag, seq<Readback>>, started: real, slot: real, t0: real, due: real, t1: real, later: real,
      quietWindow: real, pollInterval: real, maxWait: real)
    requires Steady(source, asked) && pollInterval > 0.0 && maxWait >= 0.0 && started <= slot
    requires polls != [] ==> t0 < started + maxWait
    requires OnTrack(source, asked, polls, before, started, slot, t0, due, pollInterval, maxWait)
    requires SteadyPoll(source, asked, before, found, true, false, due, t0, t1, later, started + maxWait)
    ensures SteadyEnd(source, asked, polls, found, Exhausted, started, slot, t1, quietWindow, pollInterval, maxWait)
  {
    hide ReadsAsAnswered, LastOf, TwoPollsFit, Requests;
    var requests, gap := Requests(source, asked), PollGap(source, asked);
    if polls == [] {
      FirstPollFits(requests, gap, slot, started, pollInterval, maxWait);
    } else if |polls| == 1 {
      SecondPollFits(requests, gap, slot, started, t0, due, pollInterval, maxWait);
    }
  }

  /** A complete poll of a steady store is one more that read its answers, and the second one fits. */
  lemma SteadyComplete(source: Source, asked: seq<Tag>, polls: seq<Poll>, before: map<Tag, seq<Readback>>, next: Poll,
      started: real, slot: real, due: real, t1: real, later: real, pollInterval: real, maxWait: real)
    requires Steady(source, asked) && pollInterval > 0.0 && maxWait >= 0.0 && started <= slot
    requires polls != [] ==> next.start < started + maxWait
    requires OnTrack(source, asked, polls, before, started, slot, next.start, due, pollInterval, maxWait)
    requires SteadyPoll(source, asked, before, next.found, false, false, due, next.start, t1, later, started + maxWait)
    ensures Rested(source, asked, polls + [next], next.found, started, slot, t1, later, pollInterval, maxWait)
  {
    hide ReadsAsAnswered, LastOf, TwoPollsFit, Requests;
    if |polls| == 1 {
      SecondPollFits(Requests(source, asked), PollGap(source, asked), slot, started, next.start, due, pollInterval, maxWait);
    }
  }

  /** When the run ends there: it settled, or the budget is gone. */
  lemma SteadyDone(source: Source, asked: seq<Tag>, polls: seq<Poll>, w: Watching, started: real, slot: real, now: real,
      due: real, quietWindow: real, pollInterval: real, maxWait: real)
    requires Steady(source, asked) && pollInterval > 0.0 && maxWait >= 0.0 && started <= slot
    requires Rested(source, asked, polls, w.held.found, started, slot, now, due, pollInterval, maxWait)
    requires w.quietSince == QuietSince(asked, polls)
    ensures var status := PollStatus(w, now, started, quietWindow, maxWait);
      status.Going? || SteadyEnd(source, asked, polls, w.held.found, status, started, slot, now, quietWindow, pollInterval,
        maxWait)
  {
    hide ReadsAsAnswered, Requests, Steady;
    if |polls| >= 2 {
      QuietFromTheStart(source, asked, polls);
    } else if now >= started + maxWait {
      OnePollOnly(Requests(source, asked), PollGap(source, asked), slot, started, now, pollInterval, maxWait);
    }
  }

  lemma OnePollOnly(requests: nat, gap: real, slot: real, started: real, now: real, pollInterval: real, maxWait: real)
    requires gap >= 0.0 && started <= slot && pollInterval > 0.0 && maxWait >= 0.0
    requires now == LastOf(requests, slot, gap, started) && now >= started + maxWait
    ensures !TwoPollsFit(requests, gap, slot - started, pollInterval, maxWait)
  {
  }

  /** The deadline found at the top of the loop. */
  lemma SteadyLate(source: Source, asked: seq<Tag>, polls: seq<Poll>, found: map<Tag, seq<Readback>>, started: real,
      slot: real, now: real, due: real, quietWindow: real, pollInterval: real, maxWait: real)
    requires Steady(source, asked) && pollInterval > 0.0 && maxWait >= 0.0 && started <= slot
    requires OnTrack(source, asked, polls, found, started, slot, now, due, pollInterval, maxWait)
    requires polls != [] && now >= started + maxWait
    ensures SteadyEnd(source, asked, polls, found, OutOfTime, started, slot, now, quietWindow, pollInterval, maxWait)
  {
    hide ReadsAsAnswered, Requests, Steady;
  }

  /** How the loop got where it is: it has polled on for as long as it had to, and it stopped for a reason. */
  ghost predicate OnCourse(asked: seq<Tag>, polls: seq<Poll>, cut: seq<Entry>, status: Status, started: real, now: real,
      deadline: real, quietWindow: real, pollInterval: real)
  {
    && WentOn(asked, polls, started, deadline, quietWindow, pollInterval)
    && match status
       case Going => Undecided(asked, polls, deadline, quietWindow) && now == DueNext(polls, started, deadline, pollInterval)
       case Quiet => polls != [] && now == polls[|polls| - 1].ended && QuietAt(asked, polls, now, quietWindow)
       case OutOfTime => Stopped(asked, polls, started, now, deadline, quietWindow, pollInterval)
       case Exhausted => CutShortFor(asked, polls, cut, started, now, deadline, quietWindow, pollInterval)
       case Broken => true
  }

  lemma OnePollOn(asked: seq<Tag>, polls: seq<Poll>, next: Poll, started: real, deadline: real, quietWindow: real,
      pollInterval: real)
    requires WentOn(asked, polls, started, deadline, quietWindow, pollInterval)
    requires Undecided(asked, polls, deadline, quietWindow) && (polls != [] ==> next.start < deadline)
    requires next.start == DueNext(polls, started, deadline, pollInterval)
    ensures WentOn(asked, polls + [next], started, deadline, quietWindow, pollInterval)
  {
    WentOnOnce(asked, polls, next, started, deadline, quietWindow, pollInterval);
  }

  /** Where the loop stands: between polls, and, on a steady store, on track or at its end. */
  ghost predicate Standing(source: Source, asked: seq<Tag>, polls: seq<Poll>, cut: seq<Entry>, w: Watching,
      status: Status, started: real, slot: real, now: real, due: real, quietWindow: real, pollInterval: real, maxWait: real)
  {
    && Between(asked, polls, cut, w, status, started, now, quietWindow)
    && OnCourse(asked, polls, cut, status, started, now, started + maxWait, quietWindow, pollInterval)
    && (Steady(source, asked) ==>
         if status.Going?
         then OnTrack(source, asked, polls, w.held.found, started, slot, now, due, pollInterval, maxWait)
         else SteadyEnd(source, asked, polls, w.held.found, status, started, slot, now, quietWindow, pollInterval, maxWait))
  }

  /** Where the loop stands between a complete poll and the sleep before the next one. */
  ghost predicate AtRest(source: Source, asked: seq<Tag>, polls: seq<Poll>, w: Watching, started: real, slot: real,
      now: real, due: real, quietWindow: real, pollInterval: real, maxWait: real)
  {
    && Between(asked, polls, [], w, Going, started, now, quietWindow)
    && polls != [] && now == polls[|polls| - 1].ended < started + maxWait
    && WentOn(asked, polls, started, started + maxWait, quietWindow, pollInterval)
    && Undecided(asked, polls, started + maxWait, quietWindow)
    && (Steady(source, asked) ==>
         Rested(source, asked, polls, w.held.found, started, slot, now, due, pollInterval, maxWait))
  }

  /** The sleep before the next poll. */
  lemma SleepStands(source: Source, asked: seq<Tag>, polls: seq<Poll>, w: Watching, started: real, slot: real, now: real,
      due: real, later: real, quietWindow: real, pollInterval: real, maxWait: real)
    requires AtRest(source, asked, polls, w, started, slot, now, due, quietWindow, pollInterval, maxWait)
    requires pollInterval > 0.0 && later == now + Min(pollInterval, started + maxWait - now)
    ensures Standing(source, asked, polls, [], w, Going, started, slot, later, Max(later, due), quietWindow, pollInterval,
      maxWait)
  {
    hide ReadsAsAnswered, EndsWith, WerePolled, PollsDiffer, QuietSince, Observed, WentOn, Rested, OnTrack, Undecided;
    if Steady(source, asked) {
      SteadySleep(source, asked, polls, w.held.found, started, slot, now, due, later, pollInterval, maxWait);
    }
  }

  lemma SteadySleep(source: Source, asked: seq<Tag>, polls: seq<Poll>, found: map<Tag, seq<Readback>>, started: real,
      slot: real, now: real, due: real, later: real, pollInterval: real, maxWait: real)
    requires Steady(source, asked) && Rested(source, asked, polls, found, started, slot, now, due, pollInterval, maxWait)
    requires later == now + Min(pollInterval, started + maxWait - now)
    ensures OnTrack(source, asked, polls, found, started, slot, later, Max(later, due), pollInterval, maxWait)
  {
    hide ReadsAsAnswered;
    if asked != [] {
      var requests := Requests(source, asked);
      assert Times(requests, PollGap(source, asked)) == Times(requests - 1, PollGap(source, asked)) + PollGap(source, asked);
    }
  }

  /** The start of the run. */
  function FirstWatch(asked: seq<Tag>, started: real): Watching {
    Watching(Held(map tag | tag in asked :: [], {}, 0), 0, 0, None, started, None, false)
  }

  lemma FirstWatchStands(source: Source, asked: seq<Tag>, started: real, slot: real, quietWindow: real, pollInterval: real,
      maxWait: real)
    ensures Standing(source, asked, [], [], FirstWatch(asked, started), Going, started, slot, started, slot, quietWindow,
      pollInterval, maxWait)
  {
  }

  lemma LateStands(source: Source, asked: seq<Tag>, polls: seq<Poll>, w: Watching, started: real, slot: real, now: real,
      due: real, quietWindow: real, pollInterval: real, maxWait: real)
    requires started <= slot && pollInterval > 0.0 && maxWait >= 0.0
    requires Standing(source, asked, polls, [], w, Going, started, slot, now, due, quietWindow, pollInterval, maxWait)
    requires w.count > 0 && now >= started + maxWait
    ensures Standing(source, asked, polls, [], w, OutOfTime, started, slot, now, due, quietWindow, pollInterval, maxWait)
  {
    hide OnTrack, SteadyEnd, Steady, WentOn;
    if Steady(source, asked) {
      SteadyLate(source, asked, polls, w.held.found, started, slot, now, due, quietWindow, pollInterval, maxWait);
    }
  }

  /** One poll and its judgement: the variables, and what the run has become. */
  function Judged(before: Watching, held: Held, exhausted: bool, failed: bool, signature: seq<seq<Readback>>, t0: real,
      t1: real, started: real, quietWindow: real, maxWait: real): (Watching, Status)
  {
    var polled := before.(held := held, count := before.count + 1);
    if exhausted then (polled, Exhausted)
    else if failed then (polled, Broken)
    else
      var w := AfterPoll(polled, signature, t0);
      (w, PollStatus(w, t1, started, quietWindow, maxWait))
  }

  /** What the polls have become. */
  function WithPoll(polls: seq<Poll>, held: Held, exhausted: bool, failed: bool, log: seq<Entry>, t0: real, t1: real)
    : seq<Poll>
  {
    if exhausted || failed then polls else polls + [Poll(t0, t1, held.found, held.partial, log)]
  }

  lemma WithPollLogs(polls: seq<Poll>, held: Held, exhausted: bool, failed: bool, log: seq<Entry>, t0: real, t1: real)
    ensures Lookups(WithPoll(polls, held, exhausted, failed, log, t0, t1)) + (if exhausted || failed then log else [])
      == Lookups(polls) + log
  {
    var more := WithPoll(polls, held, exhausted, failed, log, t0, t1);
    assert !exhausted && !failed ==> more[..|more| - 1] == polls;
  }

  lemma JudgedOnCourse(asked: seq<Tag>, polls: seq<Poll>, before: Watching, held: Held, log: seq<Entry>, exhausted: bool,
      failed: bool, started: real, t0: real, t1: real, quietWindow: real, pollInterval: real, maxWait: real)
    requires Between(asked, polls, [], before, Going, started, t0, quietWindow) && started <= t0 <= t1
    requires OnCourse(asked, polls, [], Going, started, t0, started + maxWait, quietWindow, pollInterval)
    requires before.count > 0 ==> t0 < started + maxWait
    requires Looked(asked, log, before.held, held, t0)
    requires !exhausted && !failed ==> AllAsked(asked, log, t0, t1)
    requires exhausted ==> CutFor(asked, log, t1, started + maxWait)
    ensures var (w, status) :=
        Judged(before, held, exhausted, failed, Observed(asked, held.found), t0, t1, started, quietWindow, maxWait);
      var more := WithPoll(polls, held, exhausted, failed, log, t0, t1);
      if status.Going?
      then WentOn(asked, more, started, started + maxWait, quietWindow, pollInterval)
           && Undecided(asked, more, started + maxWait, quietWindow)
           && more != [] && t1 == more[|more| - 1].ended < started + maxWait
      else OnCourse(asked, more, if exhausted || failed then log else [], status, started, t1, started + maxWait,
             quietWindow, pollInterval)
  {
    hide WentOn, CutFor, QuietSince, Observed, AllAsked, Between, Undecided, QuietAt, Looked;
    LookedFrom(asked, log, before.held, held, t0);
    BetweenCounts(asked, polls, before, started, t0, quietWindow);
    if !exhausted && !failed {
      var next := Poll(t0, t1, held.found, held.partial, log);
      var w := AfterPoll(before.(held := held, count := before.count + 1), Observed(asked, held.found), t0);
      OnePollOn(asked, polls, next, started, started + maxWait, quietWindow, pollInterval);
      JudgedBetween(asked, polls, before, held, log, exhausted, failed, started, t0, t1, quietWindow, maxWait);
      BetweenKnowsQuiet(asked, polls + [next], w, PollStatus(w, t1, started, quietWindow, maxWait), started, t1, quietWindow);
      CompleteOnCourse(asked, polls, next, w, started, quietWindow, pollInterval, maxWait);
    }
  }

  lemma BetweenCounts(asked: seq<Tag>, polls: seq<Poll>, w: Watching, started: real, now: real, quietWindow: real)
    requires Between(asked, polls, [], w, Going, started, now, quietWindow)
    ensures w.count == |polls|
  {
  }

  lemma BetweenKnowsQuiet(asked: seq<Tag>, polls: seq<Poll>, w: Watching, status: Status, started: real, now: real,
      quietWindow: real)
    requires Between(asked, polls, [], w, status, started, now, quietWindow)
    ensures w.quietSince == QuietSince(asked, polls)
  {
  }

  lemma CompleteOnCourse(asked: seq<Tag>, polls: seq<Poll>, next: Poll, w: Watching, started: real, quietWindow: real,
      pollInterval: real, maxWait: real)
    requires WentOn(asked, polls + [next], started, started + maxWait, quietWindow, pollInterval)
    requires w.quietSince == QuietSince(asked, polls + [next])
    ensures var status := PollStatus(w, next.ended, started, quietWindow, maxWait);
      if status.Going? then Undecided(asked, polls + [next], started + maxWait, quietWindow) && next.ended < started + maxWait
      else OnCourse(asked, polls + [next], [], status, started, next.ended, started + maxWait, quietWindow, pollInterval)
  {
    hide WentOn, QuietSince;
    assert (polls + [next])[|polls + [next]| - 1] == next;
  }

  lemma LookedFrom(asked: seq<Tag>, log: seq<Entry>, before: Held, held: Held, t0: real)
    requires Looked(asked, log, before, held, t0)
    ensures log != [] ==> log[0].began == t0
  {
  }

  lemma PollStands(source: Source, asked: seq<Tag>, polls: seq<Poll>, before: Watching, held: Held, log: seq<Entry>,
      exhausted: bool, failed: bool, started: real, slot: real, t0: real, due: real, t1: real, later: real,
      quietWindow: real, pollInterval: real, maxWait: real)
    requires pollInterval > 0.0 && maxWait >= 0.0 && started <= slot && started <= t0 <= t1
    requires Standing(source, asked, polls, [], before, Going, started, slot, t0, due, quietWindow, pollInterval, maxWait)
    requires before.count > 0 ==> t0 < started + maxWait
    requires Polled(source, asked, log, before.held, held, exhausted, failed, due, t0, t1, later, started + maxWait)
    ensures var (w, status) :=
        Judged(before, held, exhausted, failed, Observed(asked, held.found), t0, t1, started, quietWindow, maxWait);
      var more := WithPoll(polls, held, exhausted, failed, log, t0, t1);
      if status.Going?
      then t1 < started + maxWait
           && AtRest(source, asked, more, w, started, slot, t1, later, quietWindow, pollInterval, maxWait)
      else Standing(source, asked, more, if exhausted || failed then log else [], w, status, started, slot, t1, later,
             quietWindow, pollInterval, maxWait)
  {
    hide OnTrack, Rested, SteadyEnd, Steady, Looked, AllAnswered, EndsWith, WerePolled, PollsDiffer, QuietSince, Observed;
    hide WentOn, CutFor;
    JudgedBetween(asked, polls, before, held, log, exhausted, failed, started, t0, t1, quietWindow, maxWait);
    JudgedOnCourse(asked, polls, before, held, log, exhausted, failed, started, t0, t1, quietWindow, pollInterval, maxWait);
    if Steady(source, asked) {
      if exhausted {
        SteadyCut(source, asked, polls, before.held.found, held.found, started, slot, t0, due, t1, later, quietWindow,
          pollInterval, maxWait);
      } else {
        var next := Poll(t0, t1, held.found, held.partial, log);
        var w := AfterPoll(before.(held := held, count := before.count + 1), Observed(asked, held.found), t0);
        SteadyComplete(source, asked, polls, before.held.found, next, started, slot, due, t1, later, pollInterval, maxWait);
        SteadyDone(source, asked, polls + [next], w, started, slot, t1, later, quietWindow, pollInterval, maxWait);
      }
    }
  }

  /** The sleep before the next poll, which ends by the deadline. */
  method Pause(source: Source, clock: Clock, seconds: real, ghost deadline: real)
    requires source.Bound(clock, deadline) && seconds >= 0.0 && clock.now + seconds <= deadline
    modifies clock
    ensures source.Bound(clock, deadline) && clock.now == old(clock.now) + seconds
    ensures source.Slot(clock) == Max(clock.now, old(source.Slot(clock)))
    ensures KeepsBudget(source, old(source.Reached(clock)), source.Reached(clock), deadline)
  {
    clock.Sleep(seconds);
  }

  /** One poll and the quiet-window test. */
  method PollAndJudge(source: Source, asked: seq<Tag>, before: Watching, started: real, quietWindow: real, maxWait: real,
      clock: Clock, ghost pollInterval: real, ghost polls: seq<Poll>, ghost slot: real, ghost past: seq<Entry>)
    returns (w: Watching, status: Status, ghost more: seq<Poll>, ghost cut: seq<Entry>)
    requires started <= clock.now && started <= slot && pollInterval > 0.0 && maxWait >= 0.0 && DistinctTags(asked)
    requires source.Bound(clock, started + maxWait) && source.Log() == past + Lookups(polls)
    requires Standing(source, asked, polls, [], before, Going, started, slot, clock.now, source.Slot(clock), quietWindow,
      pollInterval, maxWait)
    requires before.count > 0 ==> clock.now < started + maxWait
    modifies clock, source.Repr()
    ensures source.Bound(clock, started + maxWait) && source.Log() == past + Lookups(more) + cut
    ensures KeepsBudget(source, old(source.Reached(clock)), source.Reached(clock), started + maxWait)
    ensures if status.Going?
      then cut == [] && clock.now < started + maxWait && AtRest(source, asked, more, w, started, slot, clock.now,
             source.Slot(clock), quietWindow, pollInterval, maxWait)
      else Standing(source, asked, more, cut, w, status, started, slot, clock.now, source.Slot(clock), quietWindow,
             pollInterval, maxWait)
  {
    hide Standing, AtRest, Between, Rested, Polled, Steady, KeepsBudget, HttpAdapter.Valid, HttpAdapter.Logged, OtherAdapter.Logged;
    hide Lookups, WithPoll, Observed, AfterPoll, PollStatus;
    var pollStart := clock.now;
    ghost var due := source.Slot(clock);
    var held, exhausted, failed;
    ghost var log;
    held, exhausted, failed, log := PollOnce(source, asked, before.held, clock, started + maxWait);
    BudgetMovesOn(source, old(source.Reached(clock)), source.Reached(clock), started + maxWait);
    PollStands(source, asked, polls, before, held, log, exhausted, failed, started, slot, pollStart, due, clock.now,
      source.Slot(clock), quietWindow, pollInterval, maxWait);
    var judged := Judged(before, held, exhausted, failed, Observed(asked, held.found), pollStart, clock.now, started,
      quietWindow, maxWait);
    w, status := judged.0, judged.1;
    more := WithPoll(polls, held, exhausted, failed, log, pollStart, clock.now);
    cut := if exhausted || failed then log else [];
    WithPollLogs(polls, held, exhausted, failed, log, pollStart, clock.now);
    assert past + Lookups(polls) + log == past + (Lookups(more) + cut) == past + Lookups(more) + cut;
  }

  lemma BudgetMovesOn(source: Source, a: Mark, b: Mark, deadline: real)
    requires KeepsBudget(source, a, b, deadline)
    ensures a.now <= b.now
  {
  }

  /** One turn of the loop: it ends at the deadline, or polls, judges, and sleeps before the next poll. */
  method Turn(source: Source, asked: seq<Tag>, before: Watching, started: real, quietWindow: real, maxWait: real,
      pollInterval: real, clock: Clock, ghost polls: seq<Poll>, ghost slot: real, ghost past: seq<Entry>)
    returns (w: Watching, status: Status, ghost more: seq<Poll>, ghost cut: seq<Entry>)
    requires started <= clock.now && started <= slot && pollInterval > 0.0 && maxWait >= 0.0 && DistinctTags(asked)
    requires source.Bound(clock, started + maxWait) && source.Log() == past + Lookups(polls)
    requires Standing(source, asked, polls, [], before, Going, started, slot, clock.now, source.Slot(clock), quietWindow,
      pollInterval, maxWait)
    modifies clock, source.Repr()
    ensures source.Bound(clock, started + maxWait) && source.Log() == past + Lookups(more) + cut
    ensures KeepsBudget(source, old(source.Reached(clock)), source.Reached(clock), started + maxWait)
    ensures Standing(source, asked, more, cut, w, status, started, slot, clock.now, source.Slot(clock), quietWindow,
      pollInterval, maxWait)
    ensures status.Going? ==> cut == [] && old(clock.now) < started + maxWait
    ensures status.Going? ==> clock.now >= Min(old(clock.now) + pollInterval, started + maxWait)
  {
    hide Standing, AtRest, Between, Rested, Steady, KeepsBudget, Lookups, HttpAdapter.Valid, HttpAdapter.Logged, OtherAdapter.Logged;
    ghost var begun := source.Reached(clock);
    if before.count > 0 && clock.now >= started + maxWait {
      LateStands(source, asked, polls, before, started, slot, clock.now, source.Slot(clock), quietWindow, pollInterval,
        maxWait);
      MarkKeepsBudget(source, begun, started + maxWait);
      return before, OutOfTime, polls, [];
    }
    w, status, more, cut :=
      PollAndJudge(source, asked, before, started, quietWindow, maxWait, clock, pollInterval, polls, slot, past);
    BudgetMovesOn(source, begun, source.Reached(clock), started + maxWait);
    if status.Going? {
      ghost var now, due, mark := clock.now, source.Slot(clock), source.Reached(clock);
      Pause(source, clock, Min(pollInterval, started + maxWait - clock.now), started + maxWait);
      BudgetIsKept(source, begun, mark, source.Reached(clock), started + maxWait);
      SleepStands(source, asked, more, w, started, slot, now, due, clock.now, quietWindow, pollInterval, maxWait);
    }
  }

  /** Enough sleeps of one interval to cover the budget. */
  lemma SleepsCover(maxWait: real, interval: real) returns (sleeps: nat)
    requires interval > 0.0 && maxWait >= 0.0
    ensures maxWait <= Times(sleeps, interval)
  {
    var k := maxWait / interval;
    assert k >= 0.0;
    sleeps := k.Floor + 1;
    TimesIsProduct(sleeps, interval);
    Scales(maxWait, k, sleeps as real, interval);
  }

  /** Polls until the state has held for the quiet window or the budget is gone. */
  method Watch(source: Source, asked: seq<Tag>, quietWindow: real, maxWait: real, pollInterval: real, clock: Clock)
    returns (w: Watching, status: Status, ghost polls: seq<Poll>, ghost cut: seq<Entry>)
    requires quietWindow >= 0.0 && maxWait >= 0.0 && pollInterval > 0.0 && DistinctTags(asked)
    requires source.Bound(clock, clock.now + maxWait)
    modifies clock, source.Repr()
    ensures source.Bound(clock, old(clock.now) + maxWait) && !status.Going?
    ensures source.Log() == old(source.Log()) + Lookups(polls) + cut
    ensures KeepsBudget(source, old(source.Reached(clock)), source.Reached(clock), old(clock.now) + maxWait)
    ensures Standing(source, asked, polls, cut, w, status, old(clock.now), old(source.Slot(clock)), clock.now,
      source.Slot(clock), quietWindow, pollInterval, maxWait)
  {
    hide Standing, KeepsBudget, HttpAdapter.Valid, HttpAdapter.Logged, OtherAdapter.Logged;
    var started := clock.now;
    ghost var slot, begun, past := source.Slot(clock), source.Reached(clock), source.Log();
    w, status, polls, cut := FirstWatch(asked, started), Going, [], [];
    FirstWatchStands(source, asked, started, slot, quietWindow, pollInterval, maxWait);
    MarkKeepsBudget(source, begun, started + maxWait);
    ghost var sleeps := SleepsCover(maxWait, pollInterval);
    while status.Going?
      invariant source.Bound(clock, started + maxWait) && started <= clock.now && source.Log() == past + Lookups(polls) + cut
      invariant KeepsBudget(source, begun, source.Reached(clock), started + maxWait)
      invariant Standing(source, asked, polls, cut, w, status, started, slot, clock.now, source.Slot(clock), quietWindow,
        pollInterval, maxWait)
      invariant status.Going? ==> cut == [] && started + maxWait - clock.now <= Times(sleeps, pollInterval)
      decreases status.Going?, sleeps
    {
      ghost var mark := source.Reached(clock);
      w, status, polls, cut :=
        Turn(source, asked, w, started, quietWindow, maxWait, pollInterval, clock, polls, slot, past);
      BudgetMovesOn(source, mark, source.Reached(clock), started + maxWait);
      BudgetIsKept(source, begun, mark, source.Reached(clock), started + maxWait);
      sleeps := if sleeps > 0 then sleeps - 1 else 0;
    }
  }

  // The verdict

  /** The cause of a readback that did not settle. */
  function WhyUnsettled(complete: nat, changed: bool, lastTwoIdentical: bool): Cause {
    if complete < 2 then NoTime
    else if !lastTwoIdentical || changed then Changing
    else NoTime
  }

  /** A poll that the budget cut short still counts as evidence of a change. */
  function CutShortChanged(asked: seq<Tag>, w: Watching): bool {
    w.previous.Some? && w.previous.value != Observed(asked, w.held.found)
  }

  function Concluded(asked: seq<Tag>, w: Watching, status: Status, started: real, ended: real,
      quietWindow: real): Outcome {
    var late := w.quietSince.Some? && !CutShortChanged(asked, w) && ended - w.quietSince.value >= quietWindow;
    var stable := status.Quiet? || late;
    Outcome(w.held.found, ended - started, w.count, stable,
      Where(asked, tag => Lookup(w.held.found, tag) == []),
      Where(asked, tag => tag in w.held.partial),
      status.Exhausted?, w.complete,
      if stable then None
      else Some(WhyUnsettled(w.complete, w.changed || CutShortChanged(asked, w), w.quietSince.Some?)))
  }

  function Where(asked: seq<Tag>, holds: Tag -> bool): (tags: seq<Tag>)
    ensures forall tag :: tag in tags <==> tag in asked && holds(tag)
  {
    if asked == [] then []
    else if holds(asked[0]) then [asked[0]] + Where(asked[1..], holds)
    else Where(asked[1..], holds)
  }

  lemma ConcludesByTheRule(asked: seq<Tag>, polls: seq<Poll>, cut: seq<Entry>, w: Watching, status: Status,
      started: real, ended: real, quietWindow: real)
    requires Between(asked, polls, cut, w, status, started, ended, quietWindow) && !status.Going? && !status.Broken?
    ensures Reports(Concluded(asked, w, status, started, ended, quietWindow), asked, polls, cut, started, ended, quietWindow)
  {
    hide WerePolled, EndsWith, Observed, Settled, QuietSince, PollsDiffer;
    WereInOrder(asked, polls, started);
    SettledByQuietSince(asked, polls, w.held.found, ended, quietWindow);
    EndsTheSame(asked, polls, cut, w, Concluded(asked, w, status, started, ended, quietWindow).partial);
    if !status.CutShort() {
      NothingCut(asked, polls, w.held.found, w.held.partial);
    }
    assert polls != [] ==> CutShortChanged(asked, w) == !SameState(asked, polls[|polls| - 1].found, w.held.found);
    if |polls| >= 2 && w.quietSince.None? {
      LastTwoDiffer(asked, polls);
    }
  }

  lemma WereInOrder(asked: seq<Tag>, polls: seq<Poll>, started: real)
    requires WerePolled(asked, polls, started)
    ensures InOrder(polls)
  {
  }

  lemma LastTwoDiffer(asked: seq<Tag>, polls: seq<Poll>)
    requires |polls| >= 2 && QuietSince(asked, polls).None?
    ensures PollsDiffer(asked, polls)
  {
    hide Observed;
    var states := StatesOf(asked, polls);
    assert states[|polls| - 2] != states[|polls| - 1];
  }

  lemma EndsTheSame(asked: seq<Tag>, polls: seq<Poll>, cut: seq<Entry>, w: Watching, tags: seq<Tag>)
    requires EndsWith(asked, polls, cut, w.held.found, w.held.partial)
    requires forall tag :: tag in tags <==> tag in asked && tag in w.held.partial
    ensures EndsWith(asked, polls, cut, w.held.found, set tag | tag in tags)
  {
  }

  lemma NothingCut(asked: seq<Tag>, polls: seq<Poll>, found: map<Tag, seq<Readback>>, partial: set<Tag>)
    requires EndsWith(asked, polls, [], found, partial)
    ensures polls != [] ==> SameState(asked, polls[|polls| - 1].found, found)
  {
  }

  /** On a steady store the verdict is known beforehand. */
  ghost predicate Foretold(source: Source, asked: seq<Tag>, polls: seq<Poll>, o: Outcome, offset: real, quietWindow: real,
      pollInterval: real, maxWait: real)
    requires Steady(source, asked)
  {
    var fits := Fits(source, asked, offset, pollInterval, maxWait);
    && (polls != [] ==> ReadsAsAnswered(source, asked, o.readbacks))
    && (|polls| >= 2 <==> fits)
    && (o.stable ==> fits)
    && (WindowFits(Requests(source, asked), PollGap(source, asked), quietWindow, maxWait) ==> (fits ==> o.stable))
  }

  lemma ConcludesAsForetold(source: Source, asked: seq<Tag>, polls: seq<Poll>, cut: seq<Entry>, w: Watching,
      status: Status, started: real, slot: real, ended: real, due: real, quietWindow: real, pollInterval: real,
      maxWait: real)
    requires Standing(source, asked, polls, cut, w, status, started, slot, ended, due, quietWindow, pollInterval, maxWait)
    requires !status.Going?
    ensures Steady(source, asked) ==>
      && !status.Broken?
      && Foretold(source, asked, polls, Concluded(asked, w, status, started, ended, quietWindow), slot - started,
           quietWindow, pollInterval, maxWait)
  {
    hide Steady, Complete, EndsWith, ReadsAsAnswered, Fits, Requests, Observed, Settled;
    if Steady(source, asked) {
      ConcludesByTheRule(asked, polls, cut, w, status, started, ended, quietWindow);
      SettledByQuietSince(asked, polls, w.held.found, ended, quietWindow);
      if |polls| >= 2 {
        QuietFromTheStart(source, asked, polls);
        SteadyPollsAgree(source, asked, polls[|polls| - 1].found, w.held.found);
      }
    }
  }

  lemma StandsBetween(source: Source, asked: seq<Tag>, polls: seq<Poll>, cut: seq<Entry>, w: Watching, status: Status,
      started: real, slot: real, now: real, due: real, quietWindow: real, pollInterval: real, maxWait: real)
    requires Standing(source, asked, polls, cut, w, status, started, slot, now, due, quietWindow, pollInterval, maxWait)
    ensures Between(asked, polls, cut, w, status, started, now, quietWindow)
  {
  }

  lemma StandsOnCourse(source: Source, asked: seq<Tag>, polls: seq<Poll>, cut: seq<Entry>, w: Watching, status: Status,
      started: real, slot: real, now: real, due: real, quietWindow: real, pollInterval: real, maxWait: real)
    requires Standing(source, asked, polls, cut, w, status, started, slot, now, due, quietWindow, pollInterval, maxWait)
    requires !status.Going? && !status.Broken?
    ensures RanItsCourse(Concluded(asked, w, status, started, now, quietWindow), asked, polls, cut, started, now,
      quietWindow, maxWait, pollInterval)
  {
    hide Between, Steady, WentOn, CutFor, QuietSince, Observed, OnTrack, SteadyEnd;
  }

  lemma ForetoldSettles(source: Source, asked: seq<Tag>, polls: seq<Poll>, o: Outcome, offset: real, quietWindow: real,
      pollInterval: real, maxWait: real)
    requires Steady(source, asked) && Foretold(source, asked, polls, o, offset, quietWindow, pollInterval, maxWait)
    requires Fits(source, asked, offset, pollInterval, maxWait)
    requires WindowFits(Requests(source, asked), PollGap(source, asked), quietWindow, maxWait)
    ensures o.stable
  {
  }

  /** `maxWait` is the default for a plan of at least as many tags as a poll takes requests. */
  ghost predicate PlanSized(source: Source, asked: seq<Tag>, quietWindow: real, maxWait: real)
    requires Steady(source, asked)
  {
    exists tags: nat :: Requests(source, asked) <= tags
      && maxWait == ResolveMaxWait(None, tags, source.Rate(), quietWindow).seconds
  }

  lemma DefaultFits(source: Source, asked: seq<Tag>, offset: real, quietWindow: real, pollInterval: real, maxWait: real)
    requires Steady(source, asked) && PlanSized(source, asked, quietWindow, maxWait)
    requires quietWindow >= 0.0 && 0.0 < pollInterval <= 10.0 && offset <= PollGap(source, asked)
    ensures Fits(source, asked, offset, pollInterval, maxWait)
    ensures WindowFits(Requests(source, asked), PollGap(source, asked), quietWindow, maxWait)
  {
    var tags: nat :| Requests(source, asked) <= tags
      && maxWait == ResolveMaxWait(None, tags, source.Rate(), quietWindow).seconds;
    DefaultIsEnough(tags, Requests(source, asked), source.Rate(), offset, quietWindow, pollInterval);
  }

  /** How long the first request of a run may have to wait: for the slot, when the clock is still the same. */
  ghost function Offset(source: Source, clock: Clock): real
    reads source.Repr(), clock, if source.Http? then {source.adapter.clock} else {}
  {
    if source.Http? && source.adapter.clock == clock then source.Slot(clock) - clock.now else 0.0
  }

  /** No request went out at or after the deadline, and time is hardly past it. */
  ghost predicate InTime(source: Source, kept: int, now: real, deadline: real)
    requires kept >= 0
    reads source.Repr()
  {
    source.Http? ==>
      && now <= deadline + SHORTEST_TIMEOUT
      && AllBefore(source.adapter.starts, kept, Some(deadline))
  }

  /** How many of the starts logged so far a run on this clock keeps. */
  ghost function Kept(source: Source, clock: Clock): (kept: int)
    reads source.Repr()
    ensures kept >= 0
  {
    if source.Http? && source.adapter.clock == clock then |source.adapter.starts| else 0
  }

  lemma KeptInTime(source: Source, a: Mark, b: Mark, started: real, deadline: real)
    requires KeepsBudget(source, a, b, deadline) && a.now == started <= deadline
    ensures source.Http? ==> b.now <= deadline + SHORTEST_TIMEOUT && AllBefore(b.starts, |a.starts|, Some(deadline))
  {
  }

  /** The loop between binding the adapter to the run's clock and deadline, and letting it go. */
  method WatchBound(source: Source, asked: seq<Tag>, quietWindow: real, maxWait: real, pollInterval: real, clock: Clock)
    returns (w: Watching, status: Status, ghost polls: seq<Poll>, ghost cut: seq<Entry>)
    requires quietWindow >= 0.0 && maxWait >= 0.0 && pollInterval > 0.0 && DistinctTags(asked) && source.Ready()
    modifies clock, source.Repr()
    ensures source.Ready() && !status.Going?
    ensures source.Http? ==> source.adapter.clock == clock && source.adapter.deadline == None
    ensures source.Log() == old(source.Log()) + Lookups(polls) + cut
    ensures InTime(source, old(Kept(source, clock)), clock.now, old(clock.now) + maxWait)
    ensures Standing(source, asked, polls, cut, w, status, old(clock.now), old(clock.now + Offset(source, clock)), clock.now,
      source.Slot(clock), quietWindow, pollInterval, maxWait)
  {
    hide Standing, Lookups, KeepsBudget, AllBefore, HttpAdapter.Logged, OtherAdapter.Logged;
    var started := clock.now;
    ghost var slot := started + Offset(source, clock);
    match source {
      case Http(adapter) => adapter.BindClock(clock, Some(started + maxWait));
      case Other(_) =>
    }
    ghost var begun := source.Reached(clock);
    w, status, polls, cut := Watch(source, asked, quietWindow, maxWait, pollInterval, clock);
    KeptInTime(source, begun, source.Reached(clock), started, started + maxWait);
    match source {
      case Http(adapter) => adapter.BindClock(clock, None);
      case Other(_) =>
    }
  }

  /** Asks for every probe until the answers stop changing. */
  method ReadBackAll(source: Source, probes: seq<Tag>, quietWindow: real, maxWait: real, pollInterval: real,
      clock: Clock)
    returns (r: Result<Outcome, ReadError>, asked: seq<Tag>, ghost polls: seq<Poll>, ghost cut: seq<Entry>)
    requires source.Ready()
    modifies clock, source.Repr()
    ensures source.Ready()
    ensures r == Err(BadOption) <==> quietWindow < 0.0 || maxWait < 0.0 || pollInterval <= 0.0
    // The polls are all the lookups this run made, and the outcome reports what they answered.
    ensures r != Err(BadOption) ==> source.Log() == old(source.Log()) + Lookups(polls) + cut
    ensures r.Ok? ==>
      && asked == FirstSeen(probes) && (forall tag :: tag in asked <==> tag in probes) && DistinctTags(asked)
      && (DistinctTags(probes) ==> asked == probes)
      && Reports(r.value, asked, polls, cut, old(clock.now), clock.now, quietWindow)
    // The budget is hard: it ends within the shortest timeout of `maxWait`, and no request of this
    // run goes out at or after the deadline.
    // It ran its course: it polled on until there was a verdict or no time, and then it stopped.
    ensures r.Ok? ==>
      RanItsCourse(r.value, asked, polls, cut, old(clock.now), clock.now, quietWindow, maxWait, pollInterval)
    ensures r.Ok? && !r.value.stable && !r.value.budgetExhausted ==> r.value.elapsed >= maxWait
    ensures r != Err(BadOption) ==> InTime(source, old(Kept(source, clock)), clock.now, old(clock.now) + maxWait)
    ensures r != Err(BadOption) && source.Http? ==> source.adapter.clock == clock && source.adapter.deadline == None
    // On a store that answers at once and never changes, the answers and the verdict are known.
    ensures r != Err(BadOption) && Steady(source, asked) ==>
      && r.Ok?
      && Foretold(source, asked, polls, r.value, old(Offset(source, clock)), quietWindow, pollInterval, maxWait)
    // A default budget is enough there when a poll takes at most a request for each tag of the plan.
    ensures r != Err(BadOption) && Steady(source, asked) && pollInterval <= 10.0
        && PlanSized(source, asked, quietWindow, maxWait)
      ==> r.value.stable
  {
    hide Standing, Between, Reports, Foretold, Fits, WindowFits, PlanSized, Steady, Concluded, Lookups, FirstSeen, InTime;
    hide RanItsCourse;
    asked, polls, cut := [], [], [];
    if quietWindow < 0.0 || maxWait < 0.0 || pollInterval <= 0.0 {
      return Err(BadOption), asked, polls, cut;
    }
    asked := Distinct(probes);
    var started := clock.now;
    ghost var offset := Offset(source, clock);
    var w, status;
    w, status, polls, cut := WatchBound(source, asked, quietWindow, maxWait, pollInterval, clock);
    ConcludesAsForetold(source, asked, polls, cut, w, status, started, started + offset, clock.now, source.Slot(clock),
      quietWindow, pollInterval, maxWait);
    if status.Broken? {
      return Err(LookupFailed), asked, polls, cut;
    }
    r := Ok(Concluded(asked, w, status, started, clock.now, quietWindow));
    StandsBetween(source, asked, polls, cut, w, status, started, started + offset, clock.now, source.Slot(clock), quietWindow,
      pollInterval, maxWait);
    ConcludesByTheRule(asked, polls, cut, w, status, started, clock.now, quietWindow);
    StandsOnCourse(source, asked, polls, cut, w, status, started, started + offset, clock.now, source.Slot(clock),
      quietWindow, pollInterval, maxWait);
    if !r.value.stable {
      UnsettledMeansOutOfTime(r.value, asked, polls, cut, started, clock.now, quietWindow, maxWait, pollInterval);
    }
    if Steady(source, asked) && pollInterval <= 10.0 && PlanSized(source, asked, quietWindow, maxWait) {
      DefaultFits(source, asked, offset, quietWindow, pollInterval, maxWait);
      ForetoldSettles(source, asked, polls, r.value, offset, quietWindow, pollInterval, maxWait);
    }
  }

  // When the default budget is enough

  /** Each tag's lookup is served from a list of records, in pages of one size. */
  ghost predicate ServesEach(source: Source, asked: seq<Tag>, lists: Tag -> seq<Readback>, links: Tag -> (nat -> Url),
      size: nat)
    requires Steady(source, asked) && source.Http?
  {
    var adapter := source.adapter;
    adapter.paging.SinglePage? || forall tag :: tag in asked ==>
      Serves(adapter.client.server.answer, adapter.paging, LookupUrl(tag), links(tag), lists(tag), size)
  }

  /** A poll takes no more requests than there are tags exactly when the paging lets every lookup end on
      its first page; then every default budget for these tags is enough. */
  lemma OneRequestATagIff(source: Source, asked: seq<Tag>, lists: Tag -> seq<Readback>, links: Tag -> (nat -> Url), size: nat)
    requires Steady(source, asked) && source.Http? && size >= 1 && ServesEach(source, asked, lists, links, size)
    ensures Requests(source, asked) == |asked| <==> (
      || source.adapter.maxPages == 1
      || forall tag :: tag in asked ==> OneRequestIsEnough(source.adapter.paging, |lists(tag)|, size))
  {
    var adapter := source.adapter;
    OneRequestATag(source, asked, |asked|);
    forall k | 0 <= k < |asked|
      ensures Cost(source, asked[k]) == 1
        <==> adapter.maxPages == 1 || OneRequestIsEnough(adapter.paging, |lists(asked[k])|, size)
    {
      var tag := asked[k];
      assert tag in asked;
      OneRequestIffFewRecords(adapter.Paged(true), adapter.client.server.answer, LookupUrl(tag), links(tag),
        lists(tag), size);
    }
    assert forall tag :: tag in asked <==> exists k :: 0 <= k < |asked| && asked[k] == tag;
  }

  /** A store that holds one record of every tag, on the first page of its lookup. */
  function OneRecordATag(request: Request): Response {
    Response(200, None, Records(if request.page == Some(1) then [Readback("1", "")] else [], NoLink))
  }

  lemma TwoPages(l: Listing, url: Url)
    requires l.paging == ByNumber(false) && l.maxPages >= 2
    ensures Collected(l, OneRecordATag, FirstPage(url), 1).Ok? && PagesFrom(l, OneRecordATag, FirstPage(url), 1) == 2
  {
    var second := InstantStep(l, OneRecordATag, FirstPage(url), 1);
    assert second.More? && second.url == url;
    var third := InstantStep(l, OneRecordATag, second, 2);
    assert third.Done? && third.result.Ok?;
    assert PagesFrom(l, OneRecordATag, second, 2) == 1;
  }

  /** With page numbers and no page size such a lookup takes two requests. */
  lemma {:induction false} TwoRequestsATag(source: Source, asked: seq<Tag>, i: nat)
    requires source.Http? && source.adapter.Configured() && source.adapter.client.server == Instant(OneRecordATag)
    requires source.adapter.paging == ByNumber(false) && source.adapter.maxPages >= 2 && i <= |asked|
    ensures Steady(source, asked) && RequestsTo(source, asked, i) == 2 * i
  {
    forall tag
      ensures source.adapter.Fixed(LookupUrl(tag), true).Ok? && source.adapter.Pages(LookupUrl(tag), true) == 2
    {
      TwoPages(source.adapter.Paged(true), LookupUrl(tag));
    }
    if i > 0 {
      TwoRequestsATag(source, asked, i - 1);
    }
  }

  function Tags(n: nat): (tags: seq<Tag>)
    ensures |tags| == n && (forall k :: 0 <= k < n ==> |tags[k]| == k) && DistinctTags(tags)
  {
    seq(n, k requires 0 <= k < n => seq(k, _ => 'x'))
  }

  lemma TwoHundredTags()
    ensures ResolveMaxWait(None, 200, Some(4.0), 5.0).seconds == 132.0 && GapOf(Some(4.0)) == 0.25
    ensures !TwoPollsFit(400, 0.25, 0.0, 0.5, 132.0)
  {
    TimesIsProduct(399, 0.25);
    assert SettleTimeNeeded(200, Some(4.0), 5.0) == 105.0;
  }

  lemma FallsShort(source: Source, asked: seq<Tag>, polls: seq<Poll>, cut: seq<Entry>, o: Outcome, started: real,
      ended: real)
    requires source.Http? && source.adapter.Configured() && source.adapter.client.server == Instant(OneRecordATag)
    requires source.adapter.paging == ByNumber(false) && source.adapter.maxPages >= 2 && source.adapter.rate == Some(4.0)
    requires |asked| == 200 && Reports(o, asked, polls, cut, started, ended, 5.0)
    requires Steady(source, asked) ==> Foretold(source, asked, polls, o, 0.0, 5.0, 0.5, 132.0)
    ensures !o.stable && o.cause == Some(NoTime) && o.completePolls < 2
  {
    hide ReadsAsAnswered, WerePolled, EndsWith, ChangeSeen, TwoPollsFit, WindowFits;
    TwoRequestsATag(source, asked, 200);
    TwoHundredTags();
    assert PollGap(source, asked) == 0.25;
    CauseIsExact(o, asked, polls, cut, started, ended, 5.0);
  }

  /** The default falls short where a poll takes more requests than it counts: 200 tags with one record
      each, at the default rate and window, on a store that answers at once and never changes, looked up
      by page number without a page size. */
  method DefaultFallsShort() returns (maxWait: real, r: Result<Outcome, ReadError>)
    ensures maxWait == ResolveMaxWait(None, 200, Some(4.0), 5.0).seconds == 132.0
    ensures r.Ok? && !r.value.stable && r.value.cause == Some(NoTime) && r.value.completePolls < 2
  {
    hide Reports, Foretold, PlanSized, Steady, HttpAdapter.Logged, HttpAdapter.Valid, ResolveMaxWait, Lookups, FirstSeen;
    hide InTime, DistinctTags, AllBefore, OneRecordATag, RanItsCourse;
    TwoHundredTags();
    maxWait := ResolveMaxWait(None, 200, Some(4.0), 5.0).seconds;
    var clock := new Clock(0.0);
    var client := new Client(Instant(OneRecordATag));
    var adapter := new HttpAdapter(client, clock, Some(4.0), 10.0, 5, 0.5, 10, ByNumber(false));
    var source := Http(adapter);
    var asked;
    ghost var polls, cut;
    r, asked, polls, cut := ReadBackAll(source, Tags(200), 5.0, maxWait, 0.5, clock);
    TwoRequestsATag(source, asked, 0);
    FallsShort(source, asked, polls, cut, r.value, 0.0, clock.now);
  }
}
