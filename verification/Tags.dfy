/**
 Tags: how the identity of a message is printed, stamped into a payload, and found again.
 */
module Tags {
  import opened Wrappers
  import opened Decimal
  import opened Strings
  import opened Sorting

  function Printed(seed: int): string {
    if seed < 0 then "-" + Digits(-seed) else Digits(seed)
  }

  function PrintedIndex(index: nat): string {
    ZeroPad(Digits(index), 4)
  }

  /** `<prefix>-<seed>-<index>`, the index in at least four digits. */
  function MakeTag(prefix: string, seed: int, index: nat): string
    requires prefix != []
  {
    prefix + "-" + (Printed(seed) + "-" + PrintedIndex(index))
  }

  /** What follows the prefix and its dash: `-?\d+-\d{4,}`, all of it. */
  function ParseTail(t: string): (r: Option<(int, nat)>)
    ensures r.Some? ==> var (sign, dash) := TailShape(t); sign < dash < |t| && t[dash] == '-'
  {
    var (sign, dash) := TailShape(t);
    if sign < dash < |t| && AllDigits(t[sign..dash]) && AllDigits(t[dash + 1..]) && |t| >= dash + 5
    then
      var seed: int := Value(t[sign..dash]);
      Some((if sign == 1 then -seed else seed, Value(t[dash + 1..])))
    else None
  }

  /** The length of the sign, and the first dash after it. */
  function TailShape(t: string): (r: (nat, nat))
    ensures r.0 <= 1 && r.0 <= |t| && (r.0 == 1 <==> t != [] && t[0] == '-')
    ensures r.0 <= r.1 <= |t| && (r.1 < |t| ==> t[r.1] == '-')
    ensures forall i :: r.0 <= i < r.1 ==> t[i] != '-'
  {
    var sign := if t != [] && t[0] == '-' then 1 else 0;
    (sign, FirstDash(t, sign))
  }

  function FirstDash(t: string, from: nat): (i: nat)
    requires from <= |t|
    ensures from <= i <= |t| && (i < |t| ==> t[i] == '-')
    ensures forall j :: from <= j < i ==> t[j] != '-'
    decreases |t| - from
  {
    if from < |t| && t[from] != '-' then FirstDash(t, from + 1) else from
  }

  predicate IsTail(t: string) {
    ParseTail(t).Some?
  }

  lemma {:induction false} FirstDashIs(t: string, from: nat, i: nat)
    requires from <= i < |t| && t[i] == '-' && forall j :: from <= j < i ==> t[j] != '-'
    ensures FirstDash(t, from) == i
    decreases i - from
  {
    if from < i {
      FirstDashIs(t, from + 1, i);
    }
  }

  /** A printed seed and index read back. */
  lemma PrintedReadsBack(seed: int, index: nat)
    ensures ParseTail(Printed(seed) + "-" + PrintedIndex(index)) == Some((seed, index))
  {
    hide Digits, Value, ZeroPad;
    var t := Printed(seed) + "-" + PrintedIndex(index);
    var sign := if seed < 0 then 1 else 0;
    var dash := |Printed(seed)|;
    var magnitude := if seed < 0 then Digits(-seed) else Digits(seed);
    assert Printed(seed)[sign..] == magnitude;
    assert t[sign..dash] == magnitude && t[dash + 1..] == PrintedIndex(index);
    assert forall j :: sign <= j < dash ==> t[j] == magnitude[j - sign];
    FirstDashIs(t, sign, dash);
    ValueOfDigits(if seed < 0 then -seed else seed);
    PaddedReadsBack(index, 4);
  }

  /** The dashes of a tail: its sign, and the one before the index. */
  lemma DashesOfTail(t: string, k: nat)
    requires IsTail(t) && k < |t| && t[k] == '-'
    ensures k == TailShape(t).1 || (k == 0 && TailShape(t).0 == 1)
  {
    var (sign, dash) := TailShape(t);
    assert forall i :: dash < i < |t| ==> t[i] == t[dash + 1..][i - dash - 1];
  }

  lemma AfterTheDash(t: string)
    requires IsTail(t)
    ensures !IsTail(t[TailShape(t).1 + 1..])
  {
    var rest := t[TailShape(t).1 + 1..];
    assert forall i :: 0 <= i < |rest| ==> rest[i] != '-';
  }

  /** One text splits into a prefix and a tail at one dash; only where the tail is unsigned and a
      second dash stands before it can it also be read with a sign. */
  lemma OneTailPoint(p: string, t: string, q: string, u: string)
    requires p + "-" + t == q + "-" + u && IsTail(t) && IsTail(u) && |p| < |q|
    ensures q == p + "-" && t == "-" + u
  {
    hide IsTail;
    var text := p + "-" + t;
    var d := |q| - |p|;
    assert text[|p| + 1..] == t && text[|q| + 1..] == u && text[|q|] == '-';
    assert u == t[d..] && t[d - 1] == '-';
    DashesOfTail(t, d - 1);
    AfterTheDash(t);
    assert d == 1;
    assert q == text[..|q|] == p + "-";
    assert t == [t[0]] + t[1..];
  }

  lemma TailsBesideTheSameDash(p: string, t: string, q: string, u: string)
    requires p + "-" + t == q + "-" + u && |p| == |q|
    ensures p == q && t == u
  {
    var text := p + "-" + t;
    assert p == text[..|p|] == q && t == text[|p| + 1..] == u;
  }

  predicate EndsInDash(p: string) {
    p != [] && p[|p| - 1] == '-'
  }

  // Printing is injective, but for a sign

  lemma SignOfPrinted(seed: int, rest: string)
    ensures (Printed(seed) + rest)[0] == '-' <==> seed < 0
  {
    hide Digits;
    var first := (Printed(seed) + rest)[0];
    assert first == Printed(seed)[0];
    assert seed >= 0 ==> IsDigit(Digits(seed)[0]);
  }

  /** A dash before a tail is a sign, unless it has one. */
  lemma SignedTail(u: string)
    requires IsTail(u)
    ensures IsTail("-" + u) <==> u[0] != '-'
    ensures u[0] != '-' ==> ParseTail("-" + u) == Some((-ParseTail(u).value.0, ParseTail(u).value.1))
  {
    hide Value;
    var t := "-" + u;
    var dash := TailShape(u).1;
    if u[0] == '-' {
      FirstDashIs(t, 1, 1);
    } else {
      FirstDashIs(t, 1, dash + 1);
      assert t[1..dash + 1] == u[0..dash] && t[dash + 2..] == u[dash + 1..];
    }
  }

  /** Two tags are the same text exactly when they are the same tag, or one prefix is the other and
      a dash that makes the other's negative seed look positive. */
  lemma TagsCollideIff(p: string, seed: int, index: nat, q: string, other: int, j: nat)
    requires p != [] && q != []
    ensures MakeTag(p, seed, index) == MakeTag(q, other, j) <==>
      index == j && ((p == q && seed == other) || (p == q + "-" && seed == -other > 0) || (q == p + "-" && other == -seed > 0))
  {
    hide ParseTail, Printed, PrintedIndex;
    var t, u := Printed(seed) + "-" + PrintedIndex(index), Printed(other) + "-" + PrintedIndex(j);
    PrintedReadsBack(seed, index);
    PrintedReadsBack(other, j);
    if MakeTag(p, seed, index) == MakeTag(q, other, j) {
      if |p| == |q| {
        TailsBesideTheSameDash(p, t, q, u);
      } else if |p| < |q| {
        OneTailPoint(p, t, q, u);
        SameTextSigned(seed, index, other, j);
      } else {
        OneTailPoint(q, u, p, t);
        SameTextSigned(other, j, seed, index);
      }
    } else if p == q + "-" && index == j && seed == -other > 0 {
      PrintsTheSame(q, other, index);
    } else if q == p + "-" && index == j && other == -seed > 0 {
      PrintsTheSame(p, seed, index);
    }
  }

  lemma PrintsTheSame(p: string, seed: int, index: nat)
    requires p != [] && seed < 0
    ensures MakeTag(p, seed, index) == MakeTag(p + "-", -seed, index)
  {
    assert Printed(seed) == "-" + Printed(-seed);
  }

  lemma SameTextSigned(seed: int, index: nat, other: int, j: nat)
    requires Printed(seed) + "-" + PrintedIndex(index) == "-" + (Printed(other) + "-" + PrintedIndex(j))
    ensures seed == -other && other > 0 && index == j
  {
    hide ParseTail, Printed, PrintedIndex;
    var t, u := Printed(seed) + "-" + PrintedIndex(index), Printed(other) + "-" + PrintedIndex(j);
    PrintedReadsBack(seed, index);
    PrintedReadsBack(other, j);
    SignedTail(u);
    SignOfPrinted(seed, "-" + PrintedIndex(index));
    assert t == Printed(seed) + ("-" + PrintedIndex(index));
  }

  /** Prefixes that do not end in a dash print apart. */
  lemma MakeTagIsInjective(p: string, seed: int, index: nat, q: string, other: int, j: nat)
    requires p != [] && q != [] && !EndsInDash(p) && !EndsInDash(q)
    requires MakeTag(p, seed, index) == MakeTag(q, other, j)
    ensures p == q && seed == other && index == j
  {
    TagsCollideIff(p, seed, index, q, other, j);
  }

  // Reading a tag

  /** The prefix may end at k: it is on one line, and what follows its dash is a tail. */
  predicate SplitPoint(text: string, k: nat) {
    1 <= k < |text| && text[k] == '-' && '\n' !in text[..k] && IsTail(text[k + 1..])
  }

  lemma NewlineStays(text: string, k: nat)
    requires 1 <= k < |text| && text[k - 1] == '\n'
    ensures forall i :: k <= i ==> !SplitPoint(text, i)
  {
    hide IsTail;
    assert forall i :: k <= i < |text| ==> text[..i][k - 1] == '\n';
  }

  /** The shortest prefix of at least k characters that fits: `.+?` does not cross a newline. */
  function FirstSplit(text: string, k: nat): (r: Option<nat>)
    requires 1 <= k
    ensures r.Some? ==> k <= r.value < |text|
    decreases |text| - k
  {
    if k >= |text| || text[k - 1] == '\n' then None
    else if text[k] == '-' && IsTail(text[k + 1..]) then
      Some(k)
    else
      FirstSplit(text, k + 1)
  }

  lemma {:induction false} FirstSplitIs(text: string, k: nat)
    requires 1 <= k && forall i :: 0 <= i < k - 1 && i < |text| ==> text[i] != '\n'
    ensures var r := FirstSplit(text, k);
      && (r.Some? ==> k <= r.value && SplitPoint(text, r.value) && forall i :: k <= i < r.value ==> !SplitPoint(text, i))
      && (r.None? ==> forall i :: k <= i ==> !SplitPoint(text, i))
    decreases |text| - k
  {
    hide IsTail;
    if k < |text| {
      if text[k - 1] == '\n' {
        NewlineStays(text, k);
      } else if !(text[k] == '-' && IsTail(text[k + 1..])) {
        FirstSplitIs(text, k + 1);
      }
    }
  }

  /** (prefix, seed, index), or nothing when the tag has another shape. */
  function SplitTag(tag: string): Option<(string, int, nat)> {
    var text := Strip(tag);
    FirstSplitIs(text, 1);
    match FirstSplit(text, 1)
    case None => None
    case Some(k) =>
      var tail := ParseTail(text[k + 1..]).value;
      Some((text[..k], tail.0, tail.1))
  }

  lemma MadeIsTight(p: string, seed: int, index: nat)
    requires p != [] && !Strippable(p[0])
    ensures Strip(MakeTag(p, seed, index)) == MakeTag(p, seed, index)
  {
    hide Digits, Strip;
    var tag := MakeTag(p, seed, index);
    assert tag[0] == p[0];
    assert tag[|tag| - 1] == PrintedIndex(index)[|PrintedIndex(index)| - 1];
    assert IsDigit(tag[|tag| - 1]);
    assert tag == [] + tag + [];
    StripOf([], tag, []);
  }

  lemma MadeSplitsAtPrefix(p: string, seed: int, index: nat)
    requires p != [] && '\n' !in p
    ensures var tag := MakeTag(p, seed, index);
      SplitPoint(tag, |p|) && tag[..|p|] == p && tag[|p| + 1..] == Printed(seed) + "-" + PrintedIndex(index)
  {
    hide ParseTail, Printed, PrintedIndex;
    PrintedReadsBack(seed, index);
    var tag := MakeTag(p, seed, index);
    assert tag[..|p|] == p && tag[|p| + 1..] == Printed(seed) + "-" + PrintedIndex(index);
  }

  /** The only other place where a made tag can be split: before a dash its prefix ends in, which
      then reads as the sign of a seed that had none. */
  lemma MadeSplitsEarly(p: string, seed: int, index: nat, k: nat)
    requires p != [] && k < |p|
    ensures SplitPoint(MakeTag(p, seed, index), k) <==> k >= 1 && k == |p| - 1 && EndsInDash(p) && seed >= 0 && '\n' !in p
  {
    hide ParseTail, Printed, PrintedIndex;
    var tag := MakeTag(p, seed, index);
    var t := Printed(seed) + "-" + PrintedIndex(index);
    PrintedReadsBack(seed, index);
    SignOfPrinted(seed, "-" + PrintedIndex(index));
    assert t == Printed(seed) + ("-" + PrintedIndex(index));
    SignedTail(t);
    if SplitPoint(tag, k) {
      assert tag == tag[..k] + "-" + tag[k + 1..];
      OneTailPoint(tag[..k], tag[k + 1..], p, t);
    } else if k == |p| - 1 && EndsInDash(p) {
      assert tag[k + 1..] == "-" + t && tag[..k] == p[..k];
      assert p == p[..k] + "-";
    }
  }

  lemma SplitStarts(tag: string)
    ensures SplitTag(tag).Some? ==>
      SplitTag(tag).value.0 != [] && !Strippable(SplitTag(tag).value.0[0]) && '\n' !in SplitTag(tag).value.0
  {
    hide ParseTail;
    var a, b := StripParts(tag);
    FirstSplitIs(Strip(tag), 1);
  }

  /** `split_tag` undoes `make_tag` exactly for prefixes that start with no blank, hold no newline,
      and do not end in a dash that would be taken for the sign of the seed. */
  lemma SplitUndoesMakeIff(p: string, seed: int, index: nat)
    requires p != []
    ensures SplitTag(MakeTag(p, seed, index)) == Some((p, seed, index))
      <==> !Strippable(p[0]) && '\n' !in p && !(|p| >= 2 && EndsInDash(p) && seed >= 0)
  {
    hide ParseTail, Printed, PrintedIndex, MakeTag;
    var tag := MakeTag(p, seed, index);
    SplitStarts(tag);
    if Strippable(p[0]) {
    } else if '\n' in p {
      MadeIsTight(p, seed, index);
    } else {
      MadeIsTight(p, seed, index);
      MadeSplitsAtPrefix(p, seed, index);
      PrintedReadsBack(seed, index);
      forall k | 1 <= k < |p|
        ensures SplitPoint(tag, k) <==> k == |p| - 1 && EndsInDash(p) && seed >= 0
      {
        MadeSplitsEarly(p, seed, index, k);
      }
      assert EndsInDash(p) && seed >= 0 && |p| >= 2 ==> SplitPoint(tag, |p| - 1);
      FirstSplitIs(tag, 1);
      assert |tag[..FirstSplit(tag, 1).value]| == FirstSplit(tag, 1).value;
    }
  }
}
