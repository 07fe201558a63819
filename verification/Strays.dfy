/** Records nobody sent: which run and which scenario their tags belong to. */
module Strays {
  import opened Wrappers
  import opened Decimal
  import opened Strings
  import opened Sorting
  import opened Stamps
  import opened Tags

  // Who minted a tag

  predicate Mints(prefix: string, tag: string) {
    |prefix| < |tag| && tag[..|prefix| + 1] == prefix + "-" && IsTail(tag[|prefix| + 1..])
  }

  predicate LongerFirst(a: string, b: string) {
    |a| >= |b|
  }

  function FirstMinter(prefixes: seq<string>, tag: string): (r: Option<string>)
    ensures r.Some? ==> r.value in prefixes && Mints(r.value, tag)
    ensures r.None? ==> forall p :: p in prefixes ==> !Mints(p, tag)
  {
    if prefixes == [] then None
    else if Mints(prefixes[0], tag) then Some(prefixes[0])
    else FirstMinter(prefixes[1..], tag)
  }

  function NonEmpty(family: seq<string>): (r: seq<string>)
    ensures forall p :: p in r <==> p in family && p != []
  {
    if family == [] then []
    else (if family[0] != [] then [family[0]] else []) + NonEmpty(family[1..])
  }

  /** The prefix of the family that minted the tag; the longest wins. */
  function MintedBy(tag: string, family: seq<string>): Option<string> {
    FirstMinter(Sort(LongerFirst, NonEmpty(family)), tag)
  }

  predicate InFamily(tag: string, family: seq<string>) {
    MintedBy(tag, family).Some?
  }

  lemma SplitsAfter(prefix: string, tag: string)
    requires Mints(prefix, tag)
    ensures tag == prefix + "-" + tag[|prefix| + 1..]
  {
    assert tag == tag[..|prefix| + 1] + tag[|prefix| + 1..];
  }

  /** Two prefixes mint one tag only when one is the other and a dash. */
  lemma TwoMinters(p: string, q: string, tag: string)
    requires Mints(p, tag) && Mints(q, tag)
    ensures p == q || p == q + "-" || q == p + "-"
  {
    hide ParseTail;
    SplitsAfter(p, tag);
    SplitsAfter(q, tag);
    if |p| < |q| {
      OneTailPoint(p, tag[|p| + 1..], q, tag[|q| + 1..]);
    } else if |q| < |p| {
      OneTailPoint(q, tag[|q| + 1..], p, tag[|p| + 1..]);
    } else {
      TailsBesideTheSameDash(p, tag[|p| + 1..], q, tag[|q| + 1..]);
    }
  }

  /** No member of the family is another and a dash. */
  ghost predicate Separate(family: seq<string>) {
    forall p, q :: p in family && q in family && p != [] && q != [] ==> p != q + "-"
  }

  /** In a family whose prefixes do not run into one another, `minted_by` names the one prefix that
      minted the tag, whatever the order of the family. */
  lemma MinterIsUnique(tag: string, family: seq<string>, p: string)
    requires Separate(family)
    ensures MintedBy(tag, family) == Some(p) <==> p in family && p != [] && Mints(p, tag)
  {
    hide Mints;
    var sorted := Sort(LongerFirst, NonEmpty(family));
    SortSorts(LongerFirst, NonEmpty(family));
    forall q
      ensures q in sorted <==> q in family && q != []
    {
      assert q in sorted <==> q in multiset(sorted);
      assert q in NonEmpty(family) <==> q in multiset(NonEmpty(family));
    }
    if p in family && p != [] && Mints(p, tag) {
      TwoMinters(p, FirstMinter(sorted, tag).value, tag);
    }
  }

  /** In any family it names the longest prefix that minted the tag, if there is one. */
  lemma LongestMinter(tag: string, family: seq<string>)
    ensures InFamily(tag, family) <==> exists p :: p in family && p != [] && Mints(p, tag)
    ensures forall p :: MintedBy(tag, family) == Some(p) ==>
      && p in family && Mints(p, tag) && forall q :: q in family && Mints(q, tag) ==> |q| <= |p|
  {
    hide Mints;
    var sorted := Sort(LongerFirst, NonEmpty(family));
    SortSorts(LongerFirst, NonEmpty(family));
    forall q
      ensures q in sorted <==> q in family && q != []
    {
      assert q in sorted <==> q in multiset(sorted);
      assert q in NonEmpty(family) <==> q in multiset(NonEmpty(family));
    }
    FirstIsLongest(sorted, tag);
  }

  lemma {:induction false} FirstIsLongest(prefixes: seq<string>, tag: string)
    requires Sorted(LongerFirst, prefixes)
    ensures forall p, q :: FirstMinter(prefixes, tag) == Some(p) && q in prefixes && Mints(q, tag) ==> |q| <= |p|
  {
    hide Mints;
    if prefixes != [] && !Mints(prefixes[0], tag) {
      FirstIsLongest(prefixes[1..], tag);
    }
  }

  lemma MakerMints(p: string, seed: int, index: nat)
    requires p != []
    ensures Mints(p, MakeTag(p, seed, index))
  {
    hide ParseTail, Printed, PrintedIndex;
    PrintedReadsBack(seed, index);
    var tag := MakeTag(p, seed, index);
    assert tag[..|p| + 1] == p + "-" && tag[|p| + 1..] == Printed(seed) + "-" + PrintedIndex(index);
  }

  lemma MintedTagSplitsThere(tag: string, p: string)
    requires Mints(p, tag) && p != [] && !EndsInDash(p) && '\n' !in p
    ensures FirstSplit(tag, 1) == Some(|p|) && tag[..|p|] == p
  {
    hide IsTail, Mints, FirstSplit;
    SplitsAfter(p, tag);
    MintsSplits(p, tag);
    FirstSplitIs(tag, 1);
    var k := FirstSplit(tag, 1).value;
    if k < |p| {
      assert tag == tag[..k] + "-" + tag[k + 1..];
      OneTailPoint(tag[..k], tag[k + 1..], p, tag[|p| + 1..]);
    }
  }

  lemma MintsSplits(p: string, tag: string)
    requires Mints(p, tag) && p != [] && '\n' !in p
    ensures tag[..|p|] == p && SplitPoint(tag, |p|) && IsTail(tag[|p| + 1..])
  {
    hide ParseTail;
    assert tag[..|p|] == tag[..|p| + 1][..|p|] == p;
    assert tag[|p|] == tag[..|p| + 1][|p|] == '-';
  }

  /** For a tag with no blank around it, `minted_by` and `split_tag` agree on every prefix that holds
      no newline and does not end in a dash. */
  lemma MintingAgreesWithSplitting(tag: string, p: string)
    requires Strip(tag) == tag && p != [] && !EndsInDash(p) && '\n' !in p
    ensures Mints(p, tag) <==> SplitTag(tag).Some? && SplitTag(tag).value.0 == p
  {
    hide ParseTail, Strip;
    FirstSplitIs(tag, 1);
    if Mints(p, tag) {
      MintedTagSplitsThere(tag, p);
    } else if SplitTag(tag).Some? {
      var k := FirstSplit(tag, 1).value;
      assert tag[..k + 1] == tag[..k] + "-";
    }
  }

  /** A printed tag stamped into a clean body is found again, for prefixes without a bracket or a line
      break. */
  lemma MadeTagIsFound(body: string, p: string, seed: int, index: nat)
    requires p != [] && ']' !in p && forall i :: 0 <= i < |p| ==> !Breaks(p[i])
    requires FirstHeader(Lines(body)).None? && Find(body, MARKER_OPEN, 0).None?
    ensures FindTag(StampedBody(body, MakeTag(p, seed, index))) == Some(MakeTag(p, seed, index))
  {
    hide Digits, ZeroPad, FindTag, Lines, FirstHeader, Find;
    var tag := MakeTag(p, seed, index);
    forall i | 0 <= i < |tag|
      ensures tag[i] != ']' && !Breaks(tag[i])
    {
      if i > |p| {
        var t := Printed(seed) + "-" + PrintedIndex(index);
        assert tag[i] == t[i - |p| - 1];
        assert IsDigit(t[i - |p| - 1]) || t[i - |p| - 1] == '-';
      }
    }
    StampedTagIsFound(body, tag);
  }

  // Scenarios

  datatype Scenario = Duplicate | SlowRetry | ReplyFirst | References

  const SCENARIOS := [Duplicate, SlowRetry, ReplyFirst, References]

  function Suffix(scenario: Scenario): string {
    match scenario
    case Duplicate => "dup"
    case SlowRetry => "rty"
    case ReplyFirst => "r1st"
    case References => "ref"
  }

  function ScenarioPrefix(prefix: string, scenario: Scenario): string {
    prefix + "-" + Suffix(scenario)
  }

  /** The run's family: its own prefix and every scenario's under it. */
  function Family(prefix: string): seq<string> {
    [prefix, ScenarioPrefix(prefix, Duplicate), ScenarioPrefix(prefix, SlowRetry),
     ScenarioPrefix(prefix, ReplyFirst), ScenarioPrefix(prefix, References)]
  }

  lemma ScenarioPrefixes(prefix: string, a: Scenario)
    ensures !EndsInDash(ScenarioPrefix(prefix, a)) && ScenarioPrefix(prefix, a) != prefix + "-"
    ensures ScenarioPrefix(prefix, a) in Family(prefix) && |ScenarioPrefix(prefix, a)| > |prefix| + 1
    ensures forall b :: ScenarioPrefix(prefix, a) == ScenarioPrefix(prefix, b) ==> a == b
  {
    var p := ScenarioPrefix(prefix, a);
    assert p[|p| - 1] == Suffix(a)[|Suffix(a)| - 1];
    assert a.Duplicate? ==> p == Family(prefix)[1];
    assert a.SlowRetry? ==> p == Family(prefix)[2];
    assert a.ReplyFirst? ==> p == Family(prefix)[3];
    assert a.References? ==> p == Family(prefix)[4];
    forall b | p == ScenarioPrefix(prefix, b)
      ensures a == b
    {
      assert Suffix(a) == p[|prefix| + 1..] == Suffix(b);
      assert Suffix(a)[1..] == Suffix(b)[1..] && Suffix(a)[2] == Suffix(b)[2];
    }
  }

  /** No tag of one scenario is a tag of another. */
  lemma ScenarioTagsAreDisjoint(prefix: string, a: Scenario, b: Scenario, seed: int, index: nat, other: int, j: nat)
    requires MakeTag(ScenarioPrefix(prefix, a), seed, index) == MakeTag(ScenarioPrefix(prefix, b), other, j)
    ensures a == b && seed == other && index == j
  {
    ScenarioPrefixes(prefix, a);
    ScenarioPrefixes(prefix, b);
    MakeTagIsInjective(ScenarioPrefix(prefix, a), seed, index, ScenarioPrefix(prefix, b), other, j);
  }

  lemma FamilyIsSeparate(prefix: string)
    ensures Separate(Family(prefix))
  {
    forall p, q | p in Family(prefix) && q in Family(prefix)
      ensures p != q + "-"
    {
      InTheFamily(prefix, p);
      if p == prefix {
        InTheFamily(prefix, q);
      }
    }
  }

  lemma InTheFamily(prefix: string, p: string)
    requires p in Family(prefix)
    ensures |p| >= |prefix| && (p != prefix ==> !EndsInDash(p))
  {
    ScenarioPrefixes(prefix, Duplicate);
    ScenarioPrefixes(prefix, SlowRetry);
    ScenarioPrefixes(prefix, ReplyFirst);
    ScenarioPrefixes(prefix, References);
  }

  /** The scenario a tag is a finding against: the one whose prefix minted it. */
  function Owner(prefix: string, tag: string): Option<Scenario> {
    match MintedBy(tag, Family(prefix))
    case None => None
    case Some(p) => WithPrefix(SCENARIOS, prefix, p)
  }

  function WithPrefix(scenarios: seq<Scenario>, prefix: string, p: string): (r: Option<Scenario>)
    ensures r.Some? ==> r.value in scenarios && ScenarioPrefix(prefix, r.value) == p
    ensures r.None? ==> forall a :: a in scenarios ==> ScenarioPrefix(prefix, a) != p
  {
    if scenarios == [] then None
    else if ScenarioPrefix(prefix, scenarios[0]) == p then Some(scenarios[0])
    else WithPrefix(scenarios[1..], prefix, p)
  }

  /** Every stray has one owner: a scenario's tags belong to that scenario, however the run's prefix
      looks, and the run's own tags to no scenario. */
  lemma OwnersAreRight(prefix: string, tag: string, a: Scenario)
    requires prefix != []
    ensures Owner(prefix, tag) == Some(a) <==> Mints(ScenarioPrefix(prefix, a), tag)
  {
    hide Mints, MintedBy;
    FamilyIsSeparate(prefix);
    ScenarioPrefixes(prefix, a);
    var mine := ScenarioPrefix(prefix, a);
    MinterIsUnique(tag, Family(prefix), mine);
    assert a in SCENARIOS;
    if Owner(prefix, tag).Some? {
      ScenarioPrefixes(prefix, Owner(prefix, tag).value);
      MinterIsUnique(tag, Family(prefix), ScenarioPrefix(prefix, Owner(prefix, tag).value));
    }
  }

  lemma RunTagsHaveNoOwner(prefix: string, seed: int, index: nat)
    requires prefix != []
    ensures Owner(prefix, MakeTag(prefix, seed, index)) == None
    ensures InFamily(MakeTag(prefix, seed, index), Family(prefix))
  {
    var tag := MakeTag(prefix, seed, index);
    FamilyIsSeparate(prefix);
    MakerMints(prefix, seed, index);
    MinterIsUnique(tag, Family(prefix), prefix);
    if Owner(prefix, tag).Some? {
      ScenarioPrefixes(prefix, Owner(prefix, tag).value);
    }
  }

  // Sorting the records of an enumeration

  /** What a record of the store says about itself. */
  datatype Held = Held(tag: Option<string>, body: Option<string>, subject: Option<string>, ticketId: string)

  datatype Class = Own | Extra | OtherRun | Untagged

  /** `^\S+-(-?\d+)-\d{4,}$`: some prefix without a blank, its dash, and a tail. */
  predicate HasShape(tag: string, k: nat) {
    k < |tag| && ((k >= 1 && tag[k] == '-' && NoBlank(tag[..k]) && IsTail(tag[k + 1..])) || (k > 0 && HasShape(tag, k - 1)))
  }

  predicate NoBlank(s: string) {
    forall i :: 0 <= i < |s| ==> !Strippable(s[i])
  }

  function Harvest(candidates: seq<Option<string>>): Option<string> {
    if candidates == [] then None
    else
      var tag := match candidates[0] case None => None case Some(text) => FindTag(text);
      if tag.Some? && tag.value != [] then tag else Harvest(candidates[1..])
  }

  /** The tag a record carries, and whether it is one TestingHQ stamps. */
  function StrayTag(record: Held): (Option<string>, bool) {
    var tag := match record.tag case None => [] case Some(t) => Strip(t);
    if tag != [] && HasShape(tag, |tag| - 1) then (Some(tag), true)
    else
      var harvested := Harvest([record.body, record.subject]);
      if harvested.Some? then (harvested, true) else (if tag != [] then Some(tag) else None, false)
  }

  /** A tag as it is printed: something without a blank, a dash, and a seed and index. */
  ghost predicate ShapedAt(tag: string, k: nat) {
    1 <= k < |tag| && tag[k] == '-' && IsTail(tag[k + 1..]) && forall i :: 0 <= i < k ==> !Strippable(tag[i])
  }

  lemma {:induction false} HasShapeIff(tag: string, k: nat)
    requires k < |tag|
    ensures HasShape(tag, k) <==> exists j: nat :: j <= k && ShapedAt(tag, j)
  {
    hide IsTail, Strippable;
    assert forall i :: 0 <= i < k ==> tag[..k][i] == tag[i];
    assert NoBlank(tag[..k]) <==> forall i :: 0 <= i < k ==> !Strippable(tag[i]);
    if k > 0 {
      HasShapeIff(tag, k - 1);
      assert HasShape(tag, k) <==> ShapedAt(tag, k) || HasShape(tag, k - 1);
    } else {
      assert !HasShape(tag, 0) && !ShapedAt(tag, 0);
    }
  }

  /** What the body stores, or else the subject. */
  ghost function Stored(record: Held): Option<string> {
    var body := if record.body.Some? then FindTag(record.body.value) else None;
    if body.Some? && body.value != [] then body
    else
      var subject := if record.subject.Some? then FindTag(record.subject.value) else None;
      if subject.Some? && subject.value != [] then subject else None
  }

  /** Where a stray's tag comes from: its tag field if that has the shape that is printed, else what the record
      stores, and only then a label of another kind, which is no tag of ours. */
  lemma StrayTagSays(record: Held)
    ensures var field := if record.tag.Some? then Strip(record.tag.value) else [];
      StrayTag(record) ==
        if exists k: nat :: ShapedAt(field, k) then (Some(field), true)
        else if Stored(record).Some? then (Stored(record), true)
        else (if field != [] then Some(field) else None, false)
  {
    hide FindTag, Strip, HasShape, Stored, Harvest, ShapedAt;
    HarvestIsStored(record);
    var field := if record.tag.Some? then Strip(record.tag.value) else [];
    if field != [] {
      HasShapeIff(field, |field| - 1);
    }
    ShapedIsInside(field);
  }

  lemma ShapedIsInside(tag: string)
    ensures forall k: nat :: ShapedAt(tag, k) ==> k < |tag|
  {
    hide IsTail;
  }

  lemma HarvestIsStored(record: Held)
    ensures Harvest([record.body, record.subject]) == Stored(record)
  {
    hide FindTag;
    var candidates := [record.body, record.subject];
    assert candidates[1..] == [record.subject] && candidates[1..][1..] == [];
    assert Harvest(candidates[1..][1..]) == None;
  }

  function ClassOf(record: Held, sent: set<string>, own: set<string>, family: seq<string>): Class {
    var (tag, stamped) := StrayTag(record);
    if (tag.Some? && tag.value in sent) || record.ticketId in own then Own
    else if !stamped || tag.None? then Untagged
    else if InFamily(tag.value, family) then Extra
    else OtherRun
  }

  datatype Entry = Entry(tag: string, ticket: string)

  function EntryOf(record: Held): Entry {
    match StrayTag(record).0
    case None => Entry([], record.ticketId)
    case Some(tag) => Entry(tag, record.ticketId)
  }

  /** The records of one class, in the order they were listed. */
  function OfClass(strays: seq<Held>, class_: Class, sent: set<string>, own: set<string>,
      family: seq<string>): seq<Held> {
    if strays == [] then []
    else
      var rest := OfClass(strays[..|strays| - 1], class_, sent, own, family);
      var last := strays[|strays| - 1];
      if ClassOf(last, sent, own, family) == class_ then rest + [last] else rest
  }

  function Entries(records: seq<Held>): seq<Entry> {
    seq(|records|, i requires 0 <= i < |records| => EntryOf(records[i]))
  }

  lemma ClassGrows(strays: seq<Held>, i: nat, class_: Class, sent: set<string>, own: set<string>, family: seq<string>)
    requires i < |strays|
    ensures var rest := OfClass(strays[..i], class_, sent, own, family);
      OfClass(strays[..i + 1], class_, sent, own, family)
        == if ClassOf(strays[i], sent, own, family) == class_ then rest + [strays[i]] else rest
  {
    hide ClassOf;
    assert strays[..i + 1][..i] == strays[..i];
  }

  /** What the classification publishes: the extra, the other runs', and how many are untagged. */
  function Classified(strays: seq<Held>, sent: set<string>, own: set<string>, family: seq<string>): (seq<Entry>,
      seq<Entry>, nat) {
    (Entries(OfClass(strays, Extra, sent, own, family)),
     Entries(OfClass(strays, OtherRun, sent, own, family)),
     |OfClass(strays, Untagged, sent, own, family)|)
  }

  lemma ClassifiedGrows(strays: seq<Held>, i: nat, sent: set<string>, own: set<string>, family: seq<string>)
    requires i < |strays|
    ensures var (extra, others, untagged) := Classified(strays[..i], sent, own, family);
      Classified(strays[..i + 1], sent, own, family) ==
        match ClassOf(strays[i], sent, own, family)
        case Own => (extra, others, untagged)
        case Extra => (extra + [EntryOf(strays[i])], others, untagged)
        case OtherRun => (extra, others + [EntryOf(strays[i])], untagged)
        case Untagged => (extra, others, untagged + 1)
  {
    hide OfClass, ClassOf, EntryOf;
    ClassGrows(strays, i, Extra, sent, own, family);
    ClassGrows(strays, i, OtherRun, sent, own, family);
    ClassGrows(strays, i, Untagged, sent, own, family);
    EntriesGrow(OfClass(strays[..i], Extra, sent, own, family), strays[i]);
    EntriesGrow(OfClass(strays[..i], OtherRun, sent, own, family), strays[i]);
    match ClassOf(strays[i], sent, own, family) {
      case Own =>
      case Extra =>
      case OtherRun =>
      case Untagged =>
    }
  }

  lemma EntriesGrow(records: seq<Held>, r: Held)
    ensures Entries(records + [r]) == Entries(records) + [EntryOf(r)]
  {
    hide EntryOf;
  }

  method ClassifyStrays(strays: seq<Held>, sent: set<string>, own: set<string>, family: seq<string>)
    returns (extra: seq<Entry>, otherRuns: seq<Entry>, untagged: nat)
    ensures (extra, otherRuns, untagged) == Classified(strays, sent, own, family)
  {
    extra, otherRuns, untagged := [], [], 0;
    assert strays[..0] == [] && strays[..|strays|] == strays;
    for i := 0 to |strays|
      invariant (extra, otherRuns, untagged) == Classified(strays[..i], sent, own, family)
    {
      hide Classified, StrayTag, InFamily;
      ClassifiedGrows(strays, i, sent, own, family);
      var record := strays[i];
      var (tag, stamped) := StrayTag(record);
      if (tag.Some? && tag.value in sent) || record.ticketId in own {
      } else if !stamped || tag.None? {
        untagged := untagged + 1;
      } else if InFamily(tag.value, family) {
        extra := extra + [Entry(tag.value, record.ticketId)];
      } else {
        otherRuns := otherRuns + [Entry(tag.value, record.ticketId)];
      }
    }
  }

  /** Every record listed falls in exactly one class, and none is lost. */
  lemma {:induction false} ClassesPartition(strays: seq<Held>, sent: set<string>, own: set<string>, family: seq<string>)
    ensures multiset(strays) == multiset(OfClass(strays, Own, sent, own, family)) + multiset(OfClass(strays, Extra, sent, own, family))
      + multiset(OfClass(strays, OtherRun, sent, own, family)) + multiset(OfClass(strays, Untagged, sent, own, family))
  {
    hide ClassOf;
    if strays != [] {
      ClassesPartition(strays[..|strays| - 1], sent, own, family);
      assert strays == strays[..|strays| - 1] + [strays[|strays| - 1]];
    }
  }

  /** A record is the run's own when it carries a tag that was sent or its ticket is one the lookups found. */
  ghost predicate IsOwn(record: Held, sent: set<string>, own: set<string>) {
    record.ticketId in own || (StrayTag(record).0.Some? && StrayTag(record).0.value in sent)
  }

  ghost predicate MintedUnder(prefix: string, record: Held) {
    prefix != [] && StrayTag(record).0.Some? && Mints(prefix, StrayTag(record).0.value)
  }

  /** What each class holds: the extra records are those of other messages whose tag some prefix of the family
      minted, the other runs' those with a stamped tag none of them minted. */
  lemma ClassesHold(strays: seq<Held>, sent: set<string>, own: set<string>, family: seq<string>, r: Held)
    ensures r in OfClass(strays, Own, sent, own, family) <==> r in strays && IsOwn(r, sent, own)
    ensures r in OfClass(strays, Untagged, sent, own, family) <==>
      r in strays && !IsOwn(r, sent, own) && !StrayTag(r).1
    ensures r in OfClass(strays, Extra, sent, own, family) <==>
      && r in strays && !IsOwn(r, sent, own) && StrayTag(r).1
      && exists p :: p in family && MintedUnder(p, r)
    ensures r in OfClass(strays, OtherRun, sent, own, family) <==>
      && r in strays && !IsOwn(r, sent, own) && StrayTag(r).1
      && forall p :: p in family ==> !MintedUnder(p, r)
  {
    hide StrayTag, InFamily, Mints, ClassOf;
    OfClassHolds(strays, Own, sent, own, family, r);
    OfClassHolds(strays, Untagged, sent, own, family, r);
    OfClassHolds(strays, Extra, sent, own, family, r);
    OfClassHolds(strays, OtherRun, sent, own, family, r);
    ClassIs(r, sent, own, family);
  }

  lemma {:induction false} OfClassHolds(strays: seq<Held>, class_: Class, sent: set<string>, own: set<string>,
      family: seq<string>, r: Held)
    ensures r in OfClass(strays, class_, sent, own, family) <==> r in strays && ClassOf(r, sent, own, family) == class_
  {
    hide ClassOf;
    if strays != [] {
      OfClassHolds(strays[..|strays| - 1], class_, sent, own, family, r);
      assert strays == strays[..|strays| - 1] + [strays[|strays| - 1]];
    }
  }

  lemma ClassIs(r: Held, sent: set<string>, own: set<string>, family: seq<string>)
    ensures ClassOf(r, sent, own, family).Own? <==> IsOwn(r, sent, own)
    ensures ClassOf(r, sent, own, family).Untagged? <==> !IsOwn(r, sent, own) && !StrayTag(r).1
    ensures ClassOf(r, sent, own, family).Extra? <==>
      !IsOwn(r, sent, own) && StrayTag(r).1 && exists p :: p in family && MintedUnder(p, r)
  {
    hide Mints;
    StampedHasTag(r);
    if StrayTag(r).0.Some? {
      LongestMinter(StrayTag(r).0.value, family);
    }
  }

  lemma StampedHasTag(r: Held)
    ensures StrayTag(r).1 ==> StrayTag(r).0.Some?
  {
  }

  // Whose findings the extra records are

  /** How many strays a scenario lists; later ones of the same scenario are left out of the list. */
  const MAX_STRAYS := 200

  function OwnerAmong(prefix: string, tag: string, selected: set<Scenario>): Option<Scenario> {
    match Owner(prefix, tag)
    case Some(a) => if a in selected then Some(a) else None
    case None => None
  }

  /** The entries that belong to one scenario, or to none that ran. */
  function OwnedBy(extra: seq<Entry>, prefix: string, selected: set<Scenario>, who: Option<Scenario>): seq<Entry> {
    if extra == [] then []
    else
      var rest := OwnedBy(extra[..|extra| - 1], prefix, selected, who);
      var last := extra[|extra| - 1];
      if OwnerAmong(prefix, last.tag, selected) == who then rest + [last] else rest
  }

  function Listed(entries: seq<Entry>): seq<Entry> {
    if |entries| > MAX_STRAYS then entries[..MAX_STRAYS] else entries
  }

  lemma ListKeepsTheFirst(entries: seq<Entry>)
    ensures Listed(entries) <= entries && |Listed(entries)| == if |entries| <= 200 then |entries| else 200
  {
  }

  lemma OneMoreOwned(extra: seq<Entry>, i: nat, prefix: string, selected: set<Scenario>, who: Option<Scenario>)
    requires i < |extra|
    ensures var rest := OwnedBy(extra[..i], prefix, selected, who);
      OwnedBy(extra[..i + 1], prefix, selected, who)
        == if OwnerAmong(prefix, extra[i].tag, selected) == who then rest + [extra[i]] else rest
  {
    hide OwnerAmong;
    assert extra[..i + 1][..i] == extra[..i];
  }

  lemma OneMoreListed(entries: seq<Entry>, entry: Entry)
    ensures Listed(entries + [entry]) == if |Listed(entries)| < MAX_STRAYS then Listed(entries) + [entry] else Listed(entries)
  {
  }

  lemma NoneOwned(prefix: string, selected: set<Scenario>)
    ensures forall who :: OwnedBy([], prefix, selected, who) == []
    ensures Listed([]) == []
  {
  }

  /** One more stray of scenario a, whose strays so far are `owned`. */
  method ListStray(found: map<Scenario, seq<Entry>>, a: Scenario, entry: Entry, ghost owned: seq<Entry>)
    returns (now: map<Scenario, seq<Entry>>)
    requires a in found && found[a] == Listed(owned)
    ensures now == found[a := Listed(owned + [entry])]
  {
    OneMoreListed(owned, entry);
    now := found;
    if |found[a]| < MAX_STRAYS {
      now := found[a := found[a] + [entry]];
    }
  }

  method AttributeStrays(extra: seq<Entry>, prefix: string, selected: set<Scenario>)
    returns (found: map<Scenario, seq<Entry>>, unattributed: seq<Entry>)
    ensures found.Keys == selected && forall a :: a in selected ==> found[a] == Listed(OwnedBy(extra, prefix, selected, Some(a)))
    ensures unattributed == OwnedBy(extra, prefix, selected, None)
  {
    hide OwnedBy, Listed, Owner;
    NoneOwned(prefix, selected);
    found := map a | a in selected :: [];
    unattributed := [];
    assert extra[..0] == [] && extra[..|extra|] == extra;
    for i := 0 to |extra|
      invariant found.Keys == selected
      invariant forall a :: a in selected ==> found[a] == Listed(OwnedBy(extra[..i], prefix, selected, Some(a)))
      invariant unattributed == OwnedBy(extra[..i], prefix, selected, None)
    {
      var entry := extra[i];
      var owner := OwnerAmong(prefix, entry.tag, selected);
      OneMoreOwned(extra, i, prefix, selected, None);
      forall a | a in selected
        ensures var rest := OwnedBy(extra[..i], prefix, selected, Some(a));
          OwnedBy(extra[..i + 1], prefix, selected, Some(a)) == if owner == Some(a) then rest + [entry] else rest
      {
        OneMoreOwned(extra, i, prefix, selected, Some(a));
      }
      if owner.None? {
        unattributed := unattributed + [entry];
      } else {
        found := ListStray(found, owner.value, entry, OwnedBy(extra[..i], prefix, selected, owner));
      }
    }
  }

  /** A scenario that ran owns the extra records whose tag its prefix minted, and those that no such scenario
      minted belong to none. */
  lemma OwnedByHolds(extra: seq<Entry>, prefix: string, selected: set<Scenario>, e: Entry)
    requires prefix != []
    ensures forall a :: e in OwnedBy(extra, prefix, selected, Some(a)) <==>
      e in extra && a in selected && Mints(ScenarioPrefix(prefix, a), e.tag)
    ensures e in OwnedBy(extra, prefix, selected, None) <==>
      e in extra && forall a :: a in selected ==> !Mints(ScenarioPrefix(prefix, a), e.tag)
  {
    hide Mints, Owner, OwnedBy;
    forall a
      ensures Owner(prefix, e.tag) == Some(a) <==> Mints(ScenarioPrefix(prefix, a), e.tag)
      ensures e in OwnedBy(extra, prefix, selected, Some(a)) <==> e in extra && OwnerAmong(prefix, e.tag, selected) == Some(a)
    {
      OwnersAreRight(prefix, e.tag, a);
      OwnedByIs(extra, prefix, selected, Some(a), e);
    }
    OwnedByIs(extra, prefix, selected, None, e);
  }

  lemma {:induction false} OwnedByIs(extra: seq<Entry>, prefix: string, selected: set<Scenario>, who: Option<Scenario>, e: Entry)
    ensures e in OwnedBy(extra, prefix, selected, who) <==> e in extra && OwnerAmong(prefix, e.tag, selected) == who
  {
    hide OwnerAmong;
    if extra != [] {
      OwnedByIs(extra[..|extra| - 1], prefix, selected, who, e);
      assert extra == extra[..|extra| - 1] + [extra[|extra| - 1]];
    }
  }

  lemma OwnedCounts(extra: seq<Entry>, prefix: string, selected: set<Scenario>, who: Option<Scenario>)
    requires extra != []
    ensures var before, last := extra[..|extra| - 1], extra[|extra| - 1];
      multiset(OwnedBy(extra, prefix, selected, who)) == multiset(OwnedBy(before, prefix, selected, who))
        + (if OwnerAmong(prefix, last.tag, selected) == who then multiset{last} else multiset{})
  {
    hide OwnerAmong;
  }

  /** Every extra record has one owner, or is one of the unattributed. */
  lemma {:induction false} OwnersPartition(extra: seq<Entry>, prefix: string, selected: set<Scenario>)
    ensures multiset(extra) == multiset(OwnedBy(extra, prefix, selected, None))
      + multiset(OwnedBy(extra, prefix, selected, Some(Duplicate))) + multiset(OwnedBy(extra, prefix, selected, Some(SlowRetry)))
      + multiset(OwnedBy(extra, prefix, selected, Some(ReplyFirst))) + multiset(OwnedBy(extra, prefix, selected, Some(References)))
  {
    hide OwnerAmong;
    if extra != [] {
      hide OwnedBy;
      OwnersPartition(extra[..|extra| - 1], prefix, selected);
      OwnedCounts(extra, prefix, selected, None);
      OwnedCounts(extra, prefix, selected, Some(Duplicate));
      OwnedCounts(extra, prefix, selected, Some(SlowRetry));
      OwnedCounts(extra, prefix, selected, Some(ReplyFirst));
      OwnedCounts(extra, prefix, selected, Some(References));
      assert extra == extra[..|extra| - 1] + [extra[|extra| - 1]];
      var owner := OwnerAmong(prefix, extra[|extra| - 1].tag, selected);
      assert owner.None? || owner.value.Duplicate? || owner.value.SlowRetry? || owner.value.ReplyFirst? || owner.value.References?;
    }
  }
}
