/**
 The readback settling rule: what a poll history proves, and how large a readback budget has to be
 for the rule to reach a verdict.
 */
module Settling {
  import opened Wrappers
  import opened HttpReadback
  import opened Reals
  import opened Signatures

  /** One complete poll: when it began and ended, its lookups, and the answers held after it: the records
      of each tag, and the tags whose answer was cut short at the page limit. */
  datatype Poll = Poll(start: real, ended: real, found: map<Tag, seq<Readback>>, partial: set<Tag>, log: seq<Entry>)

  datatype Cause = Changing | NoTime

  datatype Outcome = Outcome(
    readbacks: map<Tag, seq<Readback>>,
    elapsed: real,
    polls: nat,
    stable: bool,
    missing: seq<Tag>,
    partial: seq<Tag>,
    budgetExhausted: bool,
    completePolls: nat,
    cause: Option<Cause>)

  function Lookup(found: map<Tag, seq<Readback>>, tag: Tag): seq<Readback> {
    if tag in found then found[tag] else []
  }

  /** The observed state: every tag's signature, an empty one for a tag not found. */
  function Observed(asked: seq<Tag>, found: map<Tag, seq<Readback>>): (o: seq<seq<Readback>>)
    ensures |o| == |asked|
    ensures forall i :: 0 <= i < |asked| ==> o[i] == Signature(Lookup(found, asked[i]))
  {
    seq(|asked|, i requires 0 <= i < |asked| => Signature(Lookup(found, asked[i])))
  }

  predicate SameState(asked: seq<Tag>, a: map<Tag, seq<Readback>>, b: map<Tag, seq<Readback>>) {
    Observed(asked, a) == Observed(asked, b)
  }

  /** Every complete poll from q on saw the state that `found` holds at the end. */
  ghost predicate HeldFrom(asked: seq<Tag>, polls: seq<Poll>, found: map<Tag, seq<Readback>>, q: int) {
    0 <= q && forall j :: q <= j < |polls| ==> SameState(asked, polls[j].found, found)
  }

  /** The rule: two or more complete polls agree with each other and with the final answers, and
      the quiet window has passed since the first of them began. */
  ghost predicate Settled(asked: seq<Tag>, polls: seq<Poll>, found: map<Tag, seq<Readback>>,
    ended: real, quietWindow: real)
  {
    exists q :: q < |polls| - 1 && HeldFrom(asked, polls, found, q) && ended - polls[q].start >= quietWindow
  }

  function StatesOf(asked: seq<Tag>, polls: seq<Poll>): (s: seq<seq<seq<Readback>>>)
    ensures |s| == |polls|
    ensures forall j :: 0 <= j < |polls| ==> s[j] == Observed(asked, polls[j].found)
  {
    seq(|polls|, j requires 0 <= j < |polls| => Observed(asked, polls[j].found))
  }

  /** Two neighbours differ. */
  ghost predicate Varies<T(!new)>(s: seq<T>) {
    exists j :: 0 <= j < |s| - 1 && s[j] != s[j + 1]
  }

  lemma VariesStep<T(!new)>(s: seq<T>, x: T)
    requires s != []
    ensures Varies(s + [x]) <==> Varies(s) || s[|s| - 1] != x
  {
    var n := |s|;
    var more := s + [x];
    if Varies(s) {
      var j :| 0 <= j < n - 1 && s[j] != s[j + 1];
      assert more[j] != more[j + 1];
    }
    if s[n - 1] != x {
      assert more[n - 1] != more[n];
    }
    if Varies(more) {
      var j :| 0 <= j < n && more[j] != more[j + 1];
      assert j < n - 1 ==> s[j] != s[j + 1];
    }
  }

  /** Two consecutive complete polls differ. */
  ghost predicate PollsDiffer(asked: seq<Tag>, polls: seq<Poll>) {
    Varies(StatesOf(asked, polls))
  }

  /** Some change was seen: between complete polls, or by a poll the budget cut short. */
  ghost predicate ChangeSeen(asked: seq<Tag>, polls: seq<Poll>, found: map<Tag, seq<Readback>>) {
    || PollsDiffer(asked, polls)
    || (polls != [] && !SameState(asked, polls[|polls| - 1].found, found))
  }

  // The lookups behind a run

  /** A lookup of `tag`, and, if it answered, the answer held. */
  ghost predicate Recorded(e: Entry, tag: Tag, found: map<Tag, seq<Readback>>, partial: set<Tag>) {
    && e.tag == tag && e.began <= e.ended
    && (e.answer.Ok? ==> Lookup(found, tag) == e.answer.value.records && (tag in partial <==> e.answer.value.partial))
  }

  /** A complete poll looked every tag up, in order, beginning at its start, and holds the answers. */
  ghost predicate Complete(asked: seq<Tag>, poll: Poll) {
    && |poll.log| == |asked|
    && (forall i :: 0 <= i < |asked| ==>
         && Recorded(poll.log[i], asked[i], poll.found, poll.partial)
         && poll.log[i].answer.Ok? && poll.log[i].began >= poll.start)
    && (asked != [] ==> poll.log[0].began == poll.start && poll.log[|asked| - 1].ended == poll.ended)
    && (asked == [] ==> poll.start == poll.ended)
  }

  function FoundAfter(polls: seq<Poll>): map<Tag, seq<Readback>> {
    if polls == [] then map[] else polls[|polls| - 1].found
  }

  function PartialAfter(polls: seq<Poll>): set<Tag> {
    if polls == [] then {} else polls[|polls| - 1].partial
  }

  /** The answers held at the end: those of the lookups `cut`, made by a poll the budget cut short, and
      for every tag it did not get an answer for those of the last complete poll. */
  ghost predicate EndsWith(asked: seq<Tag>, polls: seq<Poll>, cut: seq<Entry>, found: map<Tag, seq<Readback>>,
      partial: set<Tag>)
  {
    && |cut| <= |asked|
    && (forall i :: 0 <= i < |cut| ==>
         Recorded(cut[i], asked[i], found, partial) && (polls != [] ==> cut[i].began >= polls[|polls| - 1].start))
    && (forall i :: 0 <= i < |asked| && (i < |cut| ==> cut[i].answer.Err?) ==>
         && Lookup(found, asked[i]) == Lookup(FoundAfter(polls), asked[i])
         && (asked[i] in partial <==> asked[i] in PartialAfter(polls)))
  }

  /** All lookups of these polls, in the order they were made. */
  function Lookups(polls: seq<Poll>): seq<Entry> {
    if polls == [] then [] else Lookups(polls[..|polls| - 1]) + polls[|polls| - 1].log
  }

  /** The polls were complete, one after the other, from `started` on. */
  ghost predicate WerePolled(asked: seq<Tag>, polls: seq<Poll>, started: real) {
    && InOrder(polls)
    && forall j :: 0 <= j < |polls| ==> Complete(asked, polls[j]) && polls[j].start >= started
  }

  /** What an outcome reports about the complete polls behind it, and the lookups `cut` after them. */
  ghost predicate Reports(o: Outcome, asked: seq<Tag>, polls: seq<Poll>, cut: seq<Entry>, started: real, ended: real,
      quietWindow: real) {
    && WerePolled(asked, polls, started)
    && EndsWith(asked, polls, cut, o.readbacks, set tag | tag in o.partial)
    && o.elapsed == ended - started
    && o.completePolls == |polls| && o.polls == |polls| + (if o.budgetExhausted then 1 else 0)
    && (!o.budgetExhausted ==> cut == [])
    && (o.stable <==> Settled(asked, polls, o.readbacks, ended, quietWindow))
    && (o.stable <==> o.cause.None?)
    && (o.cause == Some(Changing) <==>
          !o.stable && |polls| >= 2 && ChangeSeen(asked, polls, o.readbacks))
    && (forall tag :: tag in o.missing <==> tag in asked && Lookup(o.readbacks, tag) == [])
  }

  // What a verdict entitles the tool to say

  lemma {:induction false} LookupsSplit(polls: seq<Poll>, q: nat)
    requires q <= |polls|
    ensures Lookups(polls) == Lookups(polls[..q]) + Lookups(polls[q..])
    decreases |polls|
  {
    var n := |polls| - 1;
    if q <= n {
      LookupsSplit(polls[..n], q);
      assert polls[..n][..q] == polls[..q] && polls[..n][q..] == polls[q..][..n - q];
    } else {
      assert polls[..q] == polls && polls[q..] == [];
    }
  }

  lemma {:induction false} LookupIsInPoll(polls: seq<Poll>, e: Entry) returns (j: nat, i: nat)
    requires e in Lookups(polls)
    ensures j < |polls| && i < |polls[j].log| && polls[j].log[i] == e
  {
    var n := |polls| - 1;
    if e in polls[n].log {
      j := n;
      i :| 0 <= i < |polls[n].log| && polls[n].log[i] == e;
    } else {
      j, i := LookupIsInPoll(polls[..n], e);
    }
  }

  lemma SameStateIffSameRecords(asked: seq<Tag>, a: map<Tag, seq<Readback>>, b: map<Tag, seq<Readback>>)
    ensures SameState(asked, a, b) <==>
      forall i :: 0 <= i < |asked| ==> multiset(Lookup(a, asked[i])) == multiset(Lookup(b, asked[i]))
  {
    forall i | 0 <= i < |asked|
      ensures Observed(asked, a)[i] == Observed(asked, b)[i]
        <==> multiset(Lookup(a, asked[i])) == multiset(Lookup(b, asked[i]))
    {
      SameSignatureIffSameRecords(Lookup(a, asked[i]), Lookup(b, asked[i]));
    }
  }

  /** The answer of a lookup is, up to order, what the outcome reports for its tag. */
  ghost predicate Confirms(e: Entry, o: Outcome) {
    && (e.answer.Ok? ==> multiset(e.answer.value.records) == multiset(Lookup(o.readbacks, e.tag)))
    && (e.answer.Ok? && e.tag in o.missing ==> e.answer.value.records == [])
  }

  lemma PollConfirms(o: Outcome, asked: seq<Tag>, poll: Poll, i: nat)
    requires Complete(asked, poll) && SameState(asked, poll.found, o.readbacks) && i < |asked|
    requires forall tag :: tag in o.missing ==> Lookup(o.readbacks, tag) == []
    ensures Confirms(poll.log[i], o)
  {
    var e := poll.log[i];
    SameStateIffSameRecords(asked, poll.found, o.readbacks);
    assert Recorded(e, asked[i], poll.found, poll.partial);
    assert e.tag in o.missing ==> |multiset(e.answer.value.records)| == 0;
  }

  lemma CutConfirms(o: Outcome, asked: seq<Tag>, polls: seq<Poll>, cut: seq<Entry>, i: nat)
    requires EndsWith(asked, polls, cut, o.readbacks, set tag | tag in o.partial) && i < |cut|
    requires forall tag :: tag in o.missing ==> Lookup(o.readbacks, tag) == []
    ensures Confirms(cut[i], o)
  {
    assert Recorded(cut[i], asked[i], o.readbacks, set tag | tag in o.partial);
  }

  /** A settled run has watched the store: from a complete poll q on, which began at least a quiet window
      before the end, every lookup of every tag that was answered gave exactly the records reported, in
      some order, and found nothing of a tag reported missing; and at least two complete polls did so. */
  lemma SettledIsSound(o: Outcome, asked: seq<Tag>, polls: seq<Poll>, cut: seq<Entry>, started: real, ended: real,
      quietWindow: real) returns (q: nat)
    requires Reports(o, asked, polls, cut, started, ended, quietWindow) && o.stable
    ensures q + 2 <= |polls| == o.completePolls && ended - polls[q].start >= quietWindow
    ensures forall j :: q <= j < |polls| ==> Complete(asked, polls[j])
    ensures Lookups(polls) + cut == Lookups(polls[..q]) + (Lookups(polls[q..]) + cut)
    ensures forall e :: e in Lookups(polls[q..]) + cut ==> e.began >= polls[q].start && Confirms(e, o)
  {
    hide Complete, Confirms, SameState, EndsWith;
    q :| q < |polls| - 1 && HeldFrom(asked, polls, o.readbacks, q) && ended - polls[q].start >= quietWindow;
    LookupsSplit(polls, q);
    forall e | e in Lookups(polls[q..]) + cut
      ensures e.began >= polls[q].start && Confirms(e, o)
    {
      if e in cut {
        var i :| 0 <= i < |cut| && cut[i] == e;
        CutConfirms(o, asked, polls, cut, i);
        CutIsLate(asked, polls, cut, o, i);
      } else {
        var k, i := LookupIsInPoll(polls[q..], e);
        CompleteIsLate(asked, polls[q + k], i);
        PollConfirms(o, asked, polls[q + k], i);
      }
    }
  }

  lemma CompleteIsLate(asked: seq<Tag>, poll: Poll, i: nat)
    requires Complete(asked, poll) && i < |poll.log|
    ensures i < |asked| && poll.log[i].began >= poll.start
  {
  }

  lemma CutIsLate(asked: seq<Tag>, polls: seq<Poll>, cut: seq<Entry>, o: Outcome, i: nat)
    requires EndsWith(asked, polls, cut, o.readbacks, set tag | tag in o.partial) && i < |cut| && polls != []
    ensures cut[i].began >= polls[|polls| - 1].start
  {
  }

  /** With two or more complete polls the cause tells the truth: NoTime means that no change was
      seen at all. With fewer, a change seen by the poll that was cut short is still NoTime. */
  lemma CauseIsExact(o: Outcome, asked: seq<Tag>, polls: seq<Poll>, cut: seq<Entry>, started: real, ended: real,
      quietWindow: real)
    requires Reports(o, asked, polls, cut, started, ended, quietWindow) && !o.stable
    ensures o.cause == Some(NoTime) <==> |polls| < 2 || !ChangeSeen(asked, polls, o.readbacks)
    ensures o.cause == Some(NoTime) && |polls| >= 2 ==> HeldFrom(asked, polls, o.readbacks, 0)
  {
    assert o.cause.Some? && (o.cause.value.NoTime? || o.cause.value.Changing?);
    if o.cause == Some(NoTime) && |polls| >= 2 {
      forall j | 0 <= j < |polls|
        ensures SameState(asked, polls[j].found, o.readbacks)
      {
        NeverDifferedMeansHeld(asked, polls, o.readbacks, j);
      }
    }
  }

  lemma {:induction false} NeverDifferedMeansHeld(asked: seq<Tag>, polls: seq<Poll>, found: map<Tag, seq<Readback>>,
      j: nat)
    requires j < |polls| && !ChangeSeen(asked, polls, found)
    ensures SameState(asked, polls[j].found, found)
    decreases |polls| - j
  {
    if j < |polls| - 1 {
      assert StatesOf(asked, polls)[j] == StatesOf(asked, polls)[j + 1];
      NeverDifferedMeansHeld(asked, polls, found, j + 1);
    }
  }

  // The two clocks the loop keeps

  /** Where the last constant stretch of a sequence begins. */
  function LastRun<T(==)>(s: seq<T>): (q: nat)
    requires s != []
    ensures q < |s|
  {
    var n := |s|;
    if n >= 2 && s[n - 1] == s[n - 2] then LastRun(s[..n - 1]) else n - 1
  }

  lemma {:induction false} LastRunIsConstant<T>(s: seq<T>)
    requires s != []
    ensures forall j :: LastRun(s) <= j < |s| ==> s[j] == s[|s| - 1]
    ensures LastRun(s) > 0 ==> s[LastRun(s) - 1] != s[|s| - 1]
  {
    var n := |s|;
    if n >= 2 && s[n - 1] == s[n - 2] {
      LastRunIsConstant(s[..n - 1]);
    }
  }

  lemma LastRunStep<T>(s: seq<T>, x: T)
    requires s != []
    ensures LastRun(s + [x]) == if x == s[|s| - 1] then LastRun(s) else |s|
  {
    assert (s + [x])[..|s|] == s;
  }

  /** The start the quiet window counts from, or None when the last two polls differed. */
  function QuietSince(asked: seq<Tag>, polls: seq<Poll>): (since: Option<real>)
    ensures since.Some? ==> |polls| >= 2
  {
    var states := StatesOf(asked, polls);
    if |polls| >= 2 && LastRun(states) < |polls| - 1 then Some(polls[LastRun(states)].start) else None
  }

  ghost predicate InOrder(polls: seq<Poll>) {
    forall i, j :: 0 <= i <= j < |polls| ==> polls[i].start <= polls[j].start
  }

  /** Deciding by the one remembered start is deciding by the rule: the first poll of the run is
      the best candidate. */
  lemma SettledByQuietSince(asked: seq<Tag>, polls: seq<Poll>, found: map<Tag, seq<Readback>>, ended: real,
      quietWindow: real)
    requires InOrder(polls)
    ensures Settled(asked, polls, found, ended, quietWindow) <==>
      && QuietSince(asked, polls).Some?
      && SameState(asked, polls[|polls| - 1].found, found)
      && ended - QuietSince(asked, polls).value >= quietWindow
  {
    if |polls| >= 2 {
      var states := StatesOf(asked, polls);
      LastRunIsConstant(states);
      var r := LastRun(states);
      if QuietSince(asked, polls).Some? && SameState(asked, polls[|polls| - 1].found, found)
        && ended - QuietSince(asked, polls).value >= quietWindow {
        assert HeldFrom(asked, polls, found, r);
      }
      if Settled(asked, polls, found, ended, quietWindow) {
        var q :| q < |polls| - 1 && HeldFrom(asked, polls, found, q) && ended - polls[q].start >= quietWindow;
        assert SameState(asked, polls[|polls| - 1].found, found);
        assert r > q ==> SameState(asked, polls[r - 1].found, found);
      }
    }
  }

  /** One more poll moves the start, and the record of change, exactly as the loop does. */
  lemma OneMorePoll(asked: seq<Tag>, polls: seq<Poll>, next: Poll)
    requires polls != []
    ensures var same := SameState(asked, next.found, polls[|polls| - 1].found);
      && QuietSince(asked, polls + [next]) == (
        if !same then None
        else if QuietSince(asked, polls).None? then Some(polls[|polls| - 1].start) else QuietSince(asked, polls))
      && (PollsDiffer(asked, polls + [next]) <==> PollsDiffer(asked, polls) || !same)
  {
    var states := StatesOf(asked, polls);
    var last := Observed(asked, next.found);
    assert StatesOf(asked, polls + [next]) == states + [last];
    VariesStep(states, last);
    LastRunStep(states, last);
  }

  // When the loop goes on, and when it stops

  /** The state has held for the quiet window at t. */
  predicate QuietAt(asked: seq<Tag>, polls: seq<Poll>, t: real, quietWindow: real) {
    QuietSince(asked, polls).Some? && t - QuietSince(asked, polls).value >= quietWindow
  }

  /** After these polls there is neither a verdict nor an end of the budget. */
  predicate Undecided(asked: seq<Tag>, polls: seq<Poll>, deadline: real, quietWindow: real) {
    polls != [] ==>
      polls[|polls| - 1].ended < deadline && !QuietAt(asked, polls, polls[|polls| - 1].ended, quietWindow)
  }

  /** When the poll after these is due: an interval after the last one ended, at the deadline at latest. */
  function DueNext(polls: seq<Poll>, started: real, deadline: real, pollInterval: real): real {
    if polls == [] then started else Min(polls[|polls| - 1].ended + pollInterval, deadline)
  }

  /** Another poll was called for, and it began when it was due. */
  ghost predicate Follows(asked: seq<Tag>, polls: seq<Poll>, start: real, started: real, deadline: real,
      quietWindow: real, pollInterval: real)
  {
    && Undecided(asked, polls, deadline, quietWindow)
    && start == DueNext(polls, started, deadline, pollInterval) && (polls != [] ==> start < deadline)
  }

  ghost predicate WentOn(asked: seq<Tag>, polls: seq<Poll>, started: real, deadline: real, quietWindow: real,
      pollInterval: real)
  {
    forall j :: 0 <= j < |polls| ==>
      Follows(asked, polls[..j], polls[j].start, started, deadline, quietWindow, pollInterval)
  }

  lemma WentOnOnce(asked: seq<Tag>, polls: seq<Poll>, next: Poll, started: real, deadline: real, quietWindow: real,
      pollInterval: real)
    requires WentOn(asked, polls, started, deadline, quietWindow, pollInterval)
    requires Follows(asked, polls, next.start, started, deadline, quietWindow, pollInterval)
    ensures WentOn(asked, polls + [next], started, deadline, quietWindow, pollInterval)
  {
    var more := polls + [next];
    forall j | 0 <= j < |more|
      ensures Follows(asked, more[..j], more[j].start, started, deadline, quietWindow, pollInterval)
    {
      assert more[..j] == polls[..j] && polls[..|polls|] == polls;
    }
  }

  /** Why a poll was cut short: the deadline had come before the next lookup, or the adapter itself gave
      a lookup up. */
  ghost predicate CutFor(asked: seq<Tag>, cut: seq<Entry>, ended: real, deadline: real) {
    || (|cut| < |asked| && ended >= deadline && forall i :: 0 <= i < |cut| ==> cut[i].answer.Ok?)
    || (cut != [] && cut[|cut| - 1].answer == Err(BudgetExhausted))
  }

  /** A run polls on, an interval after each poll, until the state has held for the quiet window or the
      budget is gone, and then stops at once. */
  ghost predicate RanItsCourse(o: Outcome, asked: seq<Tag>, polls: seq<Poll>, cut: seq<Entry>, started: real, ended: real,
      quietWindow: real, maxWait: real, pollInterval: real)
  {
    var deadline := started + maxWait;
    && WentOn(asked, polls, started, deadline, quietWindow, pollInterval)
    && (if o.budgetExhausted then
          CutShortFor(asked, polls, cut, started, ended, deadline, quietWindow, pollInterval)
        else Stopped(asked, polls, started, ended, deadline, quietWindow, pollInterval))
  }

  /** Another poll was due, and could not be completed. */
  ghost predicate CutShortFor(asked: seq<Tag>, polls: seq<Poll>, cut: seq<Entry>, started: real, ended: real,
      deadline: real, quietWindow: real, pollInterval: real)
  {
    var start := DueNext(polls, started, deadline, pollInterval);
    && Follows(asked, polls, start, started, deadline, quietWindow, pollInterval)
    && CutFor(asked, cut, ended, deadline) && (cut != [] ==> cut[0].began == start)
  }

  /** With a verdict right after a poll, or at the deadline, found there or when the next poll is due. */
  ghost predicate Stopped(asked: seq<Tag>, polls: seq<Poll>, started: real, ended: real, deadline: real,
      quietWindow: real, pollInterval: real)
  {
    && polls != []
    && (if QuietAt(asked, polls, polls[|polls| - 1].ended, quietWindow) then ended == polls[|polls| - 1].ended
        else ended >= deadline)
    && (ended == polls[|polls| - 1].ended || ended == DueNext(polls, started, deadline, pollInterval))
  }

  /** No verdict is given up early: a run that did not settle has used its budget, or a lookup that was
      due did not fit into what was left of it. */
  lemma UnsettledMeansOutOfTime(o: Outcome, asked: seq<Tag>, polls: seq<Poll>, cut: seq<Entry>, started: real,
      ended: real, quietWindow: real, maxWait: real, pollInterval: real)
    requires Reports(o, asked, polls, cut, started, ended, quietWindow) && !o.stable
    requires RanItsCourse(o, asked, polls, cut, started, ended, quietWindow, maxWait, pollInterval)
    ensures o.elapsed >= maxWait || (o.budgetExhausted && cut != [] && cut[|cut| - 1].answer == Err(BudgetExhausted))
  {
    hide Complete, EndsWith, QuietSince, Settled, Observed;
    if !o.budgetExhausted && QuietAt(asked, polls, polls[|polls| - 1].ended, quietWindow) {
      NothingLeftOver(asked, polls, o);
      SettledByQuietSince(asked, polls, o.readbacks, ended, quietWindow);
    }
  }

  lemma NothingLeftOver(asked: seq<Tag>, polls: seq<Poll>, o: Outcome)
    requires EndsWith(asked, polls, [], o.readbacks, set tag | tag in o.partial) && polls != []
    ensures SameState(asked, polls[|polls| - 1].found, o.readbacks)
  {
  }

  /** A store that is constant from some poll on settles, whatever it did before: when two complete polls
      have read that state, no later lookup saw another, and the window from the first of them fits into
      the budget, the run ends settled, unless a lookup was given up sooner. */
  lemma ConstantFromSomePollSettles(o: Outcome, asked: seq<Tag>, polls: seq<Poll>, cut: seq<Entry>, started: real,
      ended: real, quietWindow: real, maxWait: real, pollInterval: real, q: nat)
    requires Reports(o, asked, polls, cut, started, ended, quietWindow)
    requires RanItsCourse(o, asked, polls, cut, started, ended, quietWindow, maxWait, pollInterval)
    requires q + 2 <= |polls| && HeldFrom(asked, polls, o.readbacks, q)
    requires polls[q].start + quietWindow <= started + maxWait
    ensures o.stable || (o.budgetExhausted && cut != [] && cut[|cut| - 1].answer == Err(BudgetExhausted)
      && ended < polls[q].start + quietWindow)
  {
    hide Complete, EndsWith, QuietSince, Observed, WentOn;
    if !o.stable {
      UnsettledMeansOutOfTime(o, asked, polls, cut, started, ended, quietWindow, maxWait, pollInterval);
      assert HeldFrom(asked, polls, o.readbacks, q) && !(ended - polls[q].start >= quietWindow);
    }
  }

  /** And it makes those polls: a run with fewer than two complete polls from q on, that was not cut
      short, had no interval left before the deadline. */
  lemma StopsOnlyWithoutRoom(o: Outcome, asked: seq<Tag>, polls: seq<Poll>, cut: seq<Entry>, started: real,
      ended: real, quietWindow: real, maxWait: real, pollInterval: real)
    requires Reports(o, asked, polls, cut, started, ended, quietWindow) && !o.stable && !o.budgetExhausted
    requires RanItsCourse(o, asked, polls, cut, started, ended, quietWindow, maxWait, pollInterval)
    ensures polls != [] && polls[|polls| - 1].ended + Max(pollInterval, 0.0) >= started + maxWait
  {
    hide Complete, EndsWith, QuietSince, Settled, Observed, WentOn;
    UnsettledMeansOutOfTime(o, asked, polls, cut, started, ended, quietWindow, maxWait, pollInterval);
    if QuietAt(asked, polls, polls[|polls| - 1].ended, quietWindow) {
      NothingLeftOver(asked, polls, o);
      SettledByQuietSince(asked, polls, o.readbacks, ended, quietWindow);
    }
  }

  // The budget a plan gets

  const DEFAULT_MAX_WAIT := 60.0
  const MAX_WAIT_MARGIN := 0.25

  datatype MaxWait = MaxWait(seconds: real, given: bool, needed: real)

  function RoundUp(value: real): real {
    -((-(value - 0.000000001)).Floor as real)
  }

  function SettleTimeNeeded(tags: nat, rate: Option<real>, quietWindow: real): real
    requires rate.Some? ==> rate.value > 0.0
  {
    var perPoll := if rate.Some? then tags as real / rate.value else 0.0;
    2.0 * perPoll + quietWindow
  }

  function ResolveMaxWait(maxWait: Option<real>, tags: nat, rate: Option<real>, quietWindow: real): MaxWait
    requires rate.Some? ==> rate.value > 0.0
  {
    var needed := SettleTimeNeeded(tags, rate, quietWindow);
    match maxWait
    case Some(seconds) => MaxWait(seconds, true, needed)
    case None => MaxWait(Max(DEFAULT_MAX_WAIT, RoundUp(needed * (1.0 + MAX_WAIT_MARGIN))), false, needed)
  }

  lemma PollCost(tags: nat, n: nat, rate: Option<real>, quietWindow: real)
    requires rate.Some? ==> rate.value > 0.0
    requires n <= tags
    ensures GapOf(rate) >= 0.0
    ensures 0.0 <= n as real * GapOf(rate) <= tags as real * GapOf(rate)
    ensures SettleTimeNeeded(tags, rate, quietWindow) == 2.0 * (tags as real * GapOf(rate)) + quietWindow
    ensures n >= 1 ==> GapOf(rate) <= n as real * GapOf(rate)
  {
    var g := GapOf(rate);
    if rate.Some? {
      assert tags as real / rate.value == tags as real * (1.0 / rate.value);
    }
    assert (tags - n) as real * g >= 0.0;
    assert tags as real * g == n as real * g + (tags - n) as real * g;
    if n >= 1 {
      assert (n - 1) as real * g >= 0.0;
    }
  }

  /** The plan-sized default leaves room for two polls and an interval of up to 10s between them,
      and for the quiet window even when the last poll stops one gap before the deadline. */
  lemma DefaultBudgetFits(tags: nat, n: nat, rate: Option<real>, quietWindow: real, interval: real)
    requires rate.Some? ==> rate.value > 0.0
    requires n <= tags && quietWindow >= 0.0 && interval <= 10.0
    ensures var budget := ResolveMaxWait(None, tags, rate, quietWindow).seconds;
      && 2.0 * (n as real * GapOf(rate)) + interval < budget
      && quietWindow <= budget
      && (n >= 1 ==> quietWindow <= budget - GapOf(rate))
  {
    hide RoundUp, SettleTimeNeeded, GapOf;
    PollCost(tags, n, rate, quietWindow);
    var needed := SettleTimeNeeded(tags, rate, quietWindow);
    var raised := needed * (1.0 + MAX_WAIT_MARGIN);
    RoundUpIsAbove(raised);
    BudgetArithmetic(tags as real * GapOf(rate), n as real * GapOf(rate), GapOf(rate), quietWindow, interval,
      needed, raised, RoundUp(raised));
  }

  lemma RoundUpIsAbove(value: real)
    ensures value - 0.000000001 <= RoundUp(value) < value - 0.000000001 + 1.0
    ensures RoundUp(value) == RoundUp(value).Floor as real
  {
    var n := (-(value - 0.000000001)).Floor;
    assert RoundUp(value) == (-n) as real;
    IsItsOwnFloor(-n);
  }

  lemma IsItsOwnFloor(n: int)
    ensures (n as real).Floor == n
  {
  }

  /** A budget that was given is kept exactly; otherwise it is a minute, or the plan's two polls and the quiet
      window and a quarter more, up to the next whole second. */
  lemma ResolvesTo(maxWait: Option<real>, tags: nat, rate: Option<real>, quietWindow: real)
    requires rate.Some? ==> rate.value > 0.0
    ensures var r := ResolveMaxWait(maxWait, tags, rate, quietWindow);
      var plan := 1.25 * (2.0 * (tags as real * GapOf(rate)) + quietWindow) - 0.000000001;
      && (r.given <==> maxWait.Some?) && (maxWait.Some? ==> r.seconds == maxWait.value)
      && (maxWait.None? ==>
            && r.seconds >= 60.0 && r.seconds >= plan && r.seconds == r.seconds.Floor as real
            && (r.seconds == 60.0 || r.seconds < plan + 1.0))
  {
    hide RoundUp, SettleTimeNeeded, GapOf;
    PollCost(tags, tags, rate, quietWindow);
    RoundUpIsAbove(SettleTimeNeeded(tags, rate, quietWindow) * (1.0 + MAX_WAIT_MARGIN));
  }

  /** Two complete polls fit: on a store that answers at once, with so many requests a poll, the first
      of which may go out `offset` after the start, the last request of the second poll goes out before
      the budget ends. */
  ghost predicate TwoPollsFit(requests: nat, gap: real, offset: real, interval: real, maxWait: real) {
    if requests == 0 then interval < maxWait
    else offset + Times(requests - 1, gap) + Max(interval, gap) + Times(requests - 1, gap) < maxWait
  }

  /** The quiet window fits, even when the last poll is given up a gap before the end. */
  predicate WindowFits(requests: nat, gap: real, quietWindow: real, maxWait: real) {
    quietWindow <= maxWait && (requests > 0 ==> quietWindow <= maxWait - gap)
  }

  /** A default budget is enough when a poll takes at most a request for each tag of the plan. */
  lemma DefaultIsEnough(tags: nat, requests: nat, rate: Option<real>, offset: real, quietWindow: real, interval: real)
    requires rate.Some? ==> rate.value > 0.0
    requires requests <= tags && quietWindow >= 0.0 && 0.0 < interval <= 10.0 && offset <= GapOf(rate)
    ensures var budget := ResolveMaxWait(None, tags, rate, quietWindow).seconds;
      TwoPollsFit(requests, GapOf(rate), offset, interval, budget) && WindowFits(requests, GapOf(rate), quietWindow, budget)
  {
    var gap := GapOf(rate);
    DefaultBudgetFits(tags, requests, rate, quietWindow, interval);
    TimesIsProduct(requests, gap);
    assert Times(requests, gap) + Times(requests, gap) + interval < ResolveMaxWait(None, tags, rate, quietWindow).seconds;
    if requests > 0 {
      assert Times(requests, gap) == Times(requests - 1, gap) + gap;
    }
  }

  /** `x` is the time one planned poll takes and `p` the time one actual poll takes. */
  lemma BudgetArithmetic(x: real, p: real, gap: real, quietWindow: real, interval: real, needed: real, raised: real,
      rounded: real)
    requires 0.0 <= p <= x && gap >= 0.0 && quietWindow >= 0.0 && interval <= 10.0
    requires needed == 2.0 * x + quietWindow && raised == needed * 1.25 && rounded >= raised - 0.000000001
    ensures var budget := Max(60.0, rounded);
      && 2.0 * p + interval < budget && quietWindow <= budget
      && (gap <= p ==> quietWindow <= budget - gap)
  {
  }
}
