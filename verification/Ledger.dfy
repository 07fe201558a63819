/**
 Exactly-once accounting: what was sent against what the system holds.
 */
module Ledger {
  import opened Wrappers
  import opened Strays

  datatype Sent = Sent(tag: string, recordId: string)

  datatype Verdict = ReadbackFailed | Unaccounted | Unsettled | Misparsed | UnverifiedStrays | Balanced

  datatype Repeated = Repeated(tag: string, tickets: seq<string>)

  datatype Accounting = Accounting(
    sent: nat,
    produced: nat,
    exactlyOnce: nat,
    missing: seq<string>,
    notChecked: seq<string>,
    duplicated: seq<Repeated>,
    wrong: seq<Sent>,
    extra: Option<seq<Entry>>,
    extraCount: Option<nat>,
    otherRuns: Option<seq<Entry>>,
    otherRunsCount: Option<nat>,
    untagged: Option<nat>,
    searched: bool,
    unsettled: bool,
    readbackFailed: bool,
    balanced: bool
  )

  /** How one sent message came out. */
  datatype Class = Lost | Once | Mangled | Multiplied

  function Found(readbacks: map<string, seq<Held>>, tag: string): seq<Held> {
    if tag in readbacks then readbacks[tag] else []
  }

  /** `passes` stands for the content checks of one message against one record. */
  function ClassOf(message: Sent, readbacks: map<string, seq<Held>>, passes: (Sent, Held) -> bool): Class {
    var found := Found(readbacks, message.tag);
    if found == [] then Lost
    else if |found| > 1 then Multiplied
    else if passes(message, found[0]) then Once
    else Mangled
  }

  /** The messages of one class, in the order they were sent. */
  function OfClass(sent: seq<Sent>, readbacks: map<string, seq<Held>>, passes: (Sent, Held) -> bool,
      class_: Class): seq<Sent> {
    if sent == [] then []
    else
      var rest := OfClass(sent[..|sent| - 1], readbacks, passes, class_);
      var last := sent[|sent| - 1];
      if ClassOf(last, readbacks, passes) == class_ then rest + [last] else rest
  }

  function TagsOf(sent: seq<Sent>): seq<string> {
    seq(|sent|, i requires 0 <= i < |sent| => sent[i].tag)
  }

  function TicketsOf(found: seq<Held>): seq<string> {
    seq(|found|, i requires 0 <= i < |found| => found[i].ticketId)
  }

  function Duplicates(sent: seq<Sent>, readbacks: map<string, seq<Held>>): seq<Repeated> {
    seq(|sent|, i requires 0 <= i < |sent| => Repeated(sent[i].tag, TicketsOf(Found(readbacks, sent[i].tag))))
  }

  /** The records found for the messages, each message counted where it was sent. */
  function Produced(sent: seq<Sent>, readbacks: map<string, seq<Held>>): nat {
    if sent == [] then 0
    else Produced(sent[..|sent| - 1], readbacks) + |Found(readbacks, sent[|sent| - 1].tag)|
  }

  lemma OneMore(sent: seq<Sent>, i: nat, readbacks: map<string, seq<Held>>, passes: (Sent, Held) -> bool, class_: Class)
    requires i < |sent|
    ensures var rest := OfClass(sent[..i], readbacks, passes, class_);
      OfClass(sent[..i + 1], readbacks, passes, class_)
        == if ClassOf(sent[i], readbacks, passes) == class_ then rest + [sent[i]] else rest
    ensures Produced(sent[..i + 1], readbacks) == Produced(sent[..i], readbacks) + |Found(readbacks, sent[i].tag)|
  {
    hide ClassOf;
    assert sent[..i + 1][..i] == sent[..i];
  }

  /** What the messages came to, before any strays. */
  datatype Tally = Tally(produced: nat, lost: seq<string>, duplicated: seq<Repeated>, wrong: seq<Sent>, once: nat)

  function TallyOf(sent: seq<Sent>, readbacks: map<string, seq<Held>>, passes: (Sent, Held) -> bool): Tally {
    Tally(Produced(sent, readbacks),
          TagsOf(OfClass(sent, readbacks, passes, Lost)),
          Duplicates(OfClass(sent, readbacks, passes, Multiplied), readbacks),
          OfClass(sent, readbacks, passes, Mangled),
          |OfClass(sent, readbacks, passes, Once)|)
  }

  function TallyOne(t: Tally, message: Sent, found: seq<Held>, passed: bool): Tally {
    var counted := t.(produced := t.produced + |found|);
    if found == [] then counted.(lost := t.lost + [message.tag])
    else if |found| > 1 then counted.(duplicated := t.duplicated + [Repeated(message.tag, TicketsOf(found))])
    else if passed then counted.(once := t.once + 1)
    else counted.(wrong := t.wrong + [message])
  }

  lemma TallyGrows(sent: seq<Sent>, i: nat, readbacks: map<string, seq<Held>>, passes: (Sent, Held) -> bool)
    requires i < |sent|
    ensures var found := Found(readbacks, sent[i].tag);
      TallyOf(sent[..i + 1], readbacks, passes)
        == TallyOne(TallyOf(sent[..i], readbacks, passes), sent[i], found, |found| == 1 && passes(sent[i], found[0]))
  {
    hide OfClass, Produced;
    OneMore(sent, i, readbacks, passes, Lost);
    OneMore(sent, i, readbacks, passes, Once);
    OneMore(sent, i, readbacks, passes, Mangled);
    OneMore(sent, i, readbacks, passes, Multiplied);
  }

  /** The loop over the sent messages. */
  method TallySent(sent: seq<Sent>, readbacks: map<string, seq<Held>>, passes: (Sent, Held) -> bool) returns (t: Tally)
    ensures t == TallyOf(sent, readbacks, passes)
  {
    t := Tally(0, [], [], [], 0);
    assert sent[..0] == [] && sent[..|sent|] == sent;
    for i := 0 to |sent|
      invariant t == TallyOf(sent[..i], readbacks, passes)
    {
      hide TallyOf;
      TallyGrows(sent, i, readbacks, passes);
      var message := sent[i];
      var found := if message.tag in readbacks then readbacks[message.tag] else [];
      t := t.(produced := t.produced + |found|);
      if found == [] {
        t := t.(lost := t.lost + [message.tag]);
      } else if |found| > 1 {
        t := t.(duplicated := t.duplicated + [Repeated(message.tag, TicketsOf(found))]);
      } else if passes(message, found[0]) {
        t := t.(once := t.once + 1);
      } else {
        t := t.(wrong := t.wrong + [message]);
      }
    }
  }

  const MAX_ARTIFACT_STRAYS := 200

  function Capped(entries: seq<Entry>): seq<Entry> {
    if |entries| > MAX_ARTIFACT_STRAYS then entries[..MAX_ARTIFACT_STRAYS] else entries
  }

  /** The cap keeps the first 200 and drops the rest. */
  lemma CapKeepsTheFirst(entries: seq<Entry>)
    ensures Capped(entries) <= entries
    ensures |Capped(entries)| == if |entries| <= 200 then |entries| else 200
  {
  }

  function OwnTickets(readbacks: map<string, seq<Held>>): set<string> {
    set tag, r | tag in readbacks && r in readbacks[tag] :: r.ticketId
  }

  /** What an accounting says of the run it is for. */
  ghost predicate Accounts(a: Accounting, sent: seq<Sent>, readbacks: map<string, seq<Held>>,
      passes: (Sent, Held) -> bool, strays: Option<seq<Held>>, prefix: string, partial: bool, unsettled: bool,
      readbackFailed: bool) {
    var t := TallyOf(sent, readbacks, passes);
    && a.sent == |sent| && a.unsettled == unsettled && a.readbackFailed == readbackFailed
    && a.produced == t.produced && a.exactlyOnce == t.once && a.duplicated == t.duplicated && a.wrong == t.wrong
    && (a.missing, a.notChecked) == (if readbackFailed then ([], t.lost) else (t.lost, []))
    && (a.searched <==> strays.Some? && !partial)
    && a.extra.Some? == a.extraCount.Some? == a.otherRuns.Some? == a.otherRunsCount.Some? == a.untagged.Some? == strays.Some?
    && (strays.Some? ==>
          var extra := StraysOf(Extra, sent, readbacks, strays.value, prefix);
          var others := StraysOf(OtherRun, sent, readbacks, strays.value, prefix);
          && a.extra == Some(Capped(Entries(extra))) && a.extraCount == Some(|extra|)
          && a.otherRuns == Some(Capped(Entries(others))) && a.otherRunsCount == Some(|others|)
          && a.untagged == Some(|StraysOf(Untagged, sent, readbacks, strays.value, prefix)|))
  }

  /** The listed records of one class, judged by the run's one prefix. */
  function StraysOf(class_: Strays.Class, sent: seq<Sent>, readbacks: map<string, seq<Held>>, listed: seq<Held>,
      prefix: string): seq<Held> {
    Strays.OfClass(listed, class_, set m | m in sent :: m.tag, OwnTickets(readbacks), [prefix])
  }

  /** The accounting a run publishes. `strays` is what the store listed, where it could; a partial
      listing is no searched store. */
  method Account(sent: seq<Sent>, readbacks: map<string, seq<Held>>, passes: (Sent, Held) -> bool,
      strays: Option<seq<Held>>,
      prefix: string, partial: bool, unsettled: bool, readbackFailed: bool) returns (a: Accounting)
    ensures Accounts(a, sent, readbacks, passes, strays, prefix, partial, unsettled, readbackFailed)
    ensures a.balanced <==> BalancesOut(a)
  {
    var t := TallySent(sent, readbacks, passes);
    var searched := strays.Some? && !partial;
    var extra, others, untagged := None, None, None;
    if strays.Some? {
      var e, o, u := ClassifyStrays(strays.value, set m | m in sent :: m.tag, OwnTickets(readbacks), [prefix]);
      extra, others, untagged := Some(e), Some(o), Some(u);
    }
    a := Accounting(|sent|, t.produced, t.once,
      if readbackFailed then [] else t.lost, if readbackFailed then t.lost else [],
      t.duplicated, t.wrong,
      if extra.Some? then Some(Capped(extra.value)) else None, if extra.Some? then Some(|extra.value|) else None,
      if others.Some? then Some(Capped(others.value)) else None, if others.Some? then Some(|others.value|) else None,
      untagged, searched, unsettled, readbackFailed,
      (readbackFailed || t.lost == []) && t.duplicated == [] && t.wrong == [] && searched
      && (extra.Some? ==> extra.value == []) && !unsettled && !readbackFailed);
  }

  /** Nothing lost, repeated or mangled, and a settled readback of a searched store with no strays. */
  predicate BalancesOut(a: Accounting) {
    && a.missing == [] && a.duplicated == [] && a.wrong == [] && a.searched
    && (a.extraCount.Some? ==> a.extraCount.value == 0) && !a.unsettled && !a.readbackFailed
  }

  function VerdictOf(a: Accounting): Verdict {
    if a.readbackFailed then ReadbackFailed
    else if a.duplicated != [] || (a.extra.Some? && a.extra.value != []) then Unaccounted
    else if a.unsettled && a.missing != [] then Unsettled
    else if a.missing != [] then Unaccounted
    else if a.wrong != [] then Misparsed
    else if a.unsettled then Unsettled
    else if !a.searched then UnverifiedStrays
    else Balanced
  }

  // What the classes and the verdicts mean

  ghost predicate NotHeld(m: Sent, readbacks: map<string, seq<Held>>) {
    m.tag in readbacks ==> readbacks[m.tag] == []
  }

  ghost predicate HeldTwice(m: Sent, readbacks: map<string, seq<Held>>) {
    m.tag in readbacks && |readbacks[m.tag]| >= 2
  }

  ghost predicate HeldOnce(m: Sent, readbacks: map<string, seq<Held>>) {
    m.tag in readbacks && |readbacks[m.tag]| == 1
  }

  /** Exactly one record, and its content is right. */
  ghost predicate HeldRight(m: Sent, readbacks: map<string, seq<Held>>, passes: (Sent, Held) -> bool) {
    HeldOnce(m, readbacks) && passes(m, readbacks[m.tag][0])
  }

  /** The places in the sent messages of those held right. */
  ghost function Rights(sent: seq<Sent>, readbacks: map<string, seq<Held>>, passes: (Sent, Held) -> bool): set<nat> {
    set i: nat | i < |sent| && HeldRight(sent[i], readbacks, passes)
  }

  lemma OneMoreRight(sent: seq<Sent>, n: nat, readbacks: map<string, seq<Held>>, passes: (Sent, Held) -> bool)
    requires n < |sent|
    ensures |Rights(sent[..n + 1], readbacks, passes)|
      == |Rights(sent[..n], readbacks, passes)| + (if HeldRight(sent[n], readbacks, passes) then 1 else 0)
  {
    hide HeldRight;
    var before := Rights(sent[..n], readbacks, passes);
    assert Rights(sent[..n + 1], readbacks, passes)
      == if HeldRight(sent[n], readbacks, passes) then before + {n} else before;
  }

  /** `exactly_once` counts the messages whose one record is right in content, and no others. */
  lemma {:induction false} ExactlyOnceCountsTheRight(sent: seq<Sent>, readbacks: map<string, seq<Held>>, passes: (Sent,
      Held) -> bool)
    ensures TallyOf(sent, readbacks, passes).once == |Rights(sent, readbacks, passes)|
  {
    if sent != [] {
      hide TallyOf;
      var n := |sent| - 1;
      ExactlyOnceCountsTheRight(sent[..n], readbacks, passes);
      TallyGrows(sent, n, readbacks, passes);
      OneMoreRight(sent, n, readbacks, passes);
      assert sent[..n + 1] == sent;
    }
  }

  /** `wrong` holds the messages with one record of the wrong content, `missing` those without a record and
      `duplicated` those with more than one, under all their tickets. */
  lemma {:induction false} ListsHold(sent: seq<Sent>, readbacks: map<string, seq<Held>>, passes: (Sent, Held) -> bool)
    ensures var t := TallyOf(sent, readbacks, passes);
      && (forall m :: m in t.wrong <==> m in sent && HeldOnce(m, readbacks) && !HeldRight(m, readbacks, passes))
      && (forall tag :: tag in t.lost <==> exists m :: m in sent && m.tag == tag && NotHeld(m, readbacks))
      && (forall d :: d in t.duplicated <==>
            exists m :: m in sent && HeldTwice(m, readbacks) && d == Repeated(m.tag, TicketsOf(readbacks[m.tag])))
  {
    if sent != [] {
      hide TallyOf, TicketsOf;
      var n := |sent| - 1;
      ListsHold(sent[..n], readbacks, passes);
      TallyGrows(sent, n, readbacks, passes);
      assert sent[..n + 1] == sent && sent == sent[..n] + [sent[n]];
    }
  }

  /** Some record of the listing is not the run's own and yet carries a tag of its prefix. */
  ghost predicate SomeStray(sent: seq<Sent>, readbacks: map<string, seq<Held>>, strays: Option<seq<Held>>, prefix: string) {
    var tags, own := set m | m in sent :: m.tag, OwnTickets(readbacks);
    strays.Some? && exists r :: r in strays.value && StrayTag(r).1 && MintedUnder(prefix, r) && !IsOwn(r, tags, own)
  }

  lemma SomeStrayIff(sent: seq<Sent>, readbacks: map<string, seq<Held>>, listed: seq<Held>, prefix: string)
    ensures SomeStray(sent, readbacks, Some(listed), prefix) <==> StraysOf(Extra, sent, readbacks, listed, prefix) != []
  {
    hide StrayTag, MintedUnder, IsOwn, Strays.OfClass;
    var tags, own := set m | m in sent :: m.tag, OwnTickets(readbacks);
    var extra := StraysOf(Extra, sent, readbacks, listed, prefix);
    forall r
      ensures r in extra <==> r in listed && !IsOwn(r, tags, own) && StrayTag(r).1 && MintedUnder(prefix, r)
    {
      ClassesHold(listed, tags, own, [prefix], r);
      assert prefix in [prefix];
    }
    assert extra != [] ==> extra[0] in extra;
  }

  /** The word an operator reads first, for every run: when each verdict is given. */
  lemma VerdictSays(a: Accounting, sent: seq<Sent>, readbacks: map<string, seq<Held>>, passes: (Sent, Held) -> bool,
      strays: Option<seq<Held>>, prefix: string, partial: bool, unsettled: bool, readbackFailed: bool)
    requires Accounts(a, sent, readbacks, passes, strays, prefix, partial, unsettled, readbackFailed)
    ensures var v := VerdictOf(a);
      var twice := exists m :: m in sent && HeldTwice(m, readbacks);
      var lost := exists m :: m in sent && NotHeld(m, readbacks);
      var wrong := exists m :: m in sent && HeldOnce(m, readbacks) && !HeldRight(m, readbacks, passes);
      var stray := SomeStray(sent, readbacks, strays, prefix);
      && (v == ReadbackFailed <==> readbackFailed)
      && (v == Unaccounted <==> !readbackFailed && (twice || stray || (lost && !unsettled)))
      && (v == Unsettled <==> !readbackFailed && unsettled && !twice && !stray && (lost || !wrong))
      && (v == Misparsed <==> !readbackFailed && !twice && !stray && !lost && wrong)
      && (v == UnverifiedStrays <==>
            && !readbackFailed && !unsettled && !twice && !stray && !lost && !wrong && (strays.None? || partial))
  {
    hide TallyOf, StraysOf, SomeStray, NotHeld, HeldTwice, HeldOnce, HeldRight;
    ListsAreEmptyIff(sent, readbacks, passes);
    if strays.Some? {
      SomeStrayIff(sent, readbacks, strays.value, prefix);
    }
    NoListingNoStray(sent, readbacks, prefix);
  }

  lemma NoListingNoStray(sent: seq<Sent>, readbacks: map<string, seq<Held>>, prefix: string)
    ensures !SomeStray(sent, readbacks, None, prefix)
  {
  }

  lemma ListsAreEmptyIff(sent: seq<Sent>, readbacks: map<string, seq<Held>>, passes: (Sent, Held) -> bool)
    ensures var t := TallyOf(sent, readbacks, passes);
      && (t.wrong != [] <==> exists m :: m in sent && HeldOnce(m, readbacks) && !HeldRight(m, readbacks, passes))
      && (t.lost != [] <==> exists m :: m in sent && NotHeld(m, readbacks))
      && (t.duplicated != [] <==> exists m :: m in sent && HeldTwice(m, readbacks))
  {
    hide TallyOf, HeldOnce, HeldRight, NotHeld, HeldTwice;
    ListsHold(sent, readbacks, passes);
    var t := TallyOf(sent, readbacks, passes);
    assert t.wrong != [] ==> t.wrong[0] in t.wrong;
    assert t.lost != [] ==> t.lost[0] in t.lost;
    assert t.duplicated != [] ==> t.duplicated[0] in t.duplicated;
    if m :| m in sent && NotHeld(m, readbacks) {
      assert m.tag in t.lost;
    }
    if m :| m in sent && HeldTwice(m, readbacks) {
      TwiceIsListed(m, sent, readbacks, t.duplicated);
    }
  }

  lemma TwiceIsListed(m: Sent, sent: seq<Sent>, readbacks: map<string, seq<Held>>, duplicated: seq<Repeated>)
    requires m in sent && HeldTwice(m, readbacks)
    requires forall d :: d in duplicated <==>
      exists k :: k in sent && HeldTwice(k, readbacks) && d == Repeated(k.tag, TicketsOf(readbacks[k.tag]))
    ensures duplicated != []
  {
    assert Repeated(m.tag, TicketsOf(readbacks[m.tag])) in duplicated;
  }

  /** A ledger balances, in word and in flag, exactly when the readback settled and did not fail, every
      message sent has one record of the right content, and a whole listing holds no stray of the run. */
  lemma BalancedIff(a: Accounting, sent: seq<Sent>, readbacks: map<string, seq<Held>>, passes: (Sent, Held) -> bool,
      strays: Option<seq<Held>>, prefix: string, partial: bool, unsettled: bool, readbackFailed: bool)
    requires Accounts(a, sent, readbacks, passes, strays, prefix, partial, unsettled, readbackFailed)
    ensures VerdictOf(a) == Balanced <==> BalancesOut(a)
    ensures BalancesOut(a) <==>
      && !readbackFailed && !unsettled && strays.Some? && !partial && !SomeStray(sent, readbacks, strays, prefix)
      && (forall m :: m in sent ==> HeldRight(m, readbacks, passes))
  {
    hide TallyOf, StraysOf, SomeStray;
    ListsAreEmptyIff(sent, readbacks, passes);
    forall m
      ensures HeldRight(m, readbacks, passes)
        <==> && !NotHeld(m, readbacks) && !HeldTwice(m, readbacks)
             && !(HeldOnce(m, readbacks) && !HeldRight(m, readbacks, passes))
    {
    }
    if strays.Some? {
      SomeStrayIff(sent, readbacks, strays.value, prefix);
    }
  }

  // Conservation

  function CountOfDuplicates(duplicated: seq<Repeated>): nat {
    if duplicated == [] then 0
    else CountOfDuplicates(duplicated[..|duplicated| - 1]) + |duplicated[|duplicated| - 1].tickets|
  }

  lemma CountOneMore(duplicated: seq<Repeated>, d: Repeated)
    ensures CountOfDuplicates(duplicated + [d]) == CountOfDuplicates(duplicated) + |d.tickets|
  {
    assert (duplicated + [d])[..|duplicated|] == duplicated;
  }

  /** Each sent message falls in exactly one class, and the records found are those of the messages
      found once, those found wrong, and those of the duplicates. */
  lemma {:induction false} AccountConserves(sent: seq<Sent>, readbacks: map<string, seq<Held>>, passes: (Sent,
      Held) -> bool)
    ensures var t := TallyOf(sent, readbacks, passes);
      && |sent| == t.once + |t.wrong| + |t.duplicated| + |t.lost|
      && t.produced == t.once + |t.wrong| + CountOfDuplicates(t.duplicated)
  {
    if sent != [] {
      hide TallyOf;
      var n := |sent| - 1;
      AccountConserves(sent[..n], readbacks, passes);
      TallyGrows(sent, n, readbacks, passes);
      assert sent[..n + 1] == sent;
      var found := Found(readbacks, sent[n].tag);
      if |found| > 1 {
        CountOneMore(TallyOf(sent[..n], readbacks, passes).duplicated, Repeated(sent[n].tag, TicketsOf(found)));
      }
    }
  }

  /** The classes part the messages sent, order and repeats included. */
  lemma {:induction false} SentPartition(sent: seq<Sent>, readbacks: map<string, seq<Held>>, passes: (Sent,
      Held) -> bool)
    ensures multiset(sent) == multiset(OfClass(sent, readbacks, passes, Lost)) + multiset(OfClass(sent, readbacks, passes, Once))
      + multiset(OfClass(sent, readbacks, passes, Mangled)) + multiset(OfClass(sent, readbacks, passes, Multiplied))
  {
    hide ClassOf;
    if sent != [] {
      SentPartition(sent[..|sent| - 1], readbacks, passes);
      assert sent == sent[..|sent| - 1] + [sent[|sent| - 1]];
    }
  }

  /** When every message has exactly one record, nothing is lost and nothing is duplicated. */
  lemma {:induction false} OneRecordEachBalances(sent: seq<Sent>, readbacks: map<string, seq<Held>>, passes: (Sent,
      Held) -> bool)
    requires forall i :: 0 <= i < |sent| ==> |Found(readbacks, sent[i].tag)| == 1
    ensures var t := TallyOf(sent, readbacks, passes); t.lost == [] && t.duplicated == [] && t.produced == |sent|
  {
    if sent != [] {
      hide TallyOf;
      var n := |sent| - 1;
      OneRecordEachBalances(sent[..n], readbacks, passes);
      TallyGrows(sent, n, readbacks, passes);
      assert sent[..n + 1] == sent;
    }
  }
}
