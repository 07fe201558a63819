/** Python's `str.strip` and `str.find`, on ASCII text. */
module Strings {
  import opened Wrappers

  /** What `str.strip` takes away, within ASCII. */
  predicate Strippable(c: char) {
    c == ' ' || '\t' <= c <= '\r' || '\U{1c}' <= c <= '\U{1f}'
  }

  predicate AllBlank(s: string) {
    forall i :: 0 <= i < |s| ==> Strippable(s[i])
  }

  function LStrip(s: string): string {
    if s != [] && Strippable(s[0]) then LStrip(s[1..]) else s
  }

  function RStrip(s: string): string {
    if s != [] && Strippable(s[|s| - 1]) then RStrip(s[..|s| - 1]) else s
  }

  function Strip(s: string): string {
    RStrip(LStrip(s))
  }

  predicate Tight(s: string) {
    s == [] || (!Strippable(s[0]) && !Strippable(s[|s| - 1]))
  }

  lemma {:induction false} LStripParts(s: string) returns (a: string)
    ensures s == a + LStrip(s) && AllBlank(a)
    ensures LStrip(s) == [] || !Strippable(LStrip(s)[0])
  {
    a := [];
    if s != [] && Strippable(s[0]) {
      var rest := LStripParts(s[1..]);
      a := [s[0]] + rest;
      assert s == [s[0]] + s[1..];
    }
  }

  lemma {:induction false} RStripParts(s: string) returns (b: string)
    ensures s == RStrip(s) + b && AllBlank(b)
    ensures RStrip(s) == [] || !Strippable(RStrip(s)[|RStrip(s)| - 1])
  {
    b := [];
    if s != [] && Strippable(s[|s| - 1]) {
      var rest := RStripParts(s[..|s| - 1]);
      b := rest + [s[|s| - 1]];
      assert s == s[..|s| - 1] + [s[|s| - 1]];
    }
  }

  lemma StripParts(s: string) returns (a: string, b: string)
    ensures s == a + Strip(s) + b && AllBlank(a) && AllBlank(b) && Tight(Strip(s))
  {
    a := LStripParts(s);
    b := RStripParts(LStrip(s));
    assert s == a + (Strip(s) + b);
    if Strip(s) != [] {
      assert LStrip(s)[0] == Strip(s)[0];
    }
  }

  lemma {:induction false} LStripOf(a: string, core: string)
    requires AllBlank(a) && (core == [] || !Strippable(core[0]))
    ensures LStrip(a + core) == core
  {
    if a == [] {
      assert a + core == core;
    } else {
      assert (a + core)[1..] == a[1..] + core;
      LStripOf(a[1..], core);
    }
  }

  lemma {:induction false} RStripOf(core: string, b: string)
    requires AllBlank(b) && (core == [] || !Strippable(core[|core| - 1]))
    ensures RStrip(core + b) == core
  {
    if b == [] {
      assert core + b == core;
    } else {
      assert (core + b)[..|core + b| - 1] == core + b[..|b| - 1];
      RStripOf(core, b[..|b| - 1]);
    }
  }

  lemma StripOf(a: string, core: string, b: string)
    requires AllBlank(a) && AllBlank(b) && Tight(core)
    ensures Strip(a + core + b) == core
  {
    if core == [] {
      assert a + core + b == (a + b) + [];
      LStripOf(a + b, []);
      RStripOf([], []);
    } else {
      assert a + core + b == a + (core + b);
      LStripOf(a, core + b);
      RStripOf(core, b);
    }
  }

  lemma {:induction false} RStripKeepsFirst(s: string)
    requires s != [] && !Strippable(s[0])
    ensures RStrip(s) != [] && RStrip(s)[0] == s[0]
  {
    if Strippable(s[|s| - 1]) {
      RStripKeepsFirst(s[..|s| - 1]);
    }
  }

  // Finding

  predicate OccursAt(text: string, needle: string, i: nat) {
    i + |needle| <= |text| && text[i..i + |needle|] == needle
  }

  /** The first occurrence at or after `from`. */
  function Find(text: string, needle: string, from: nat): (r: Option<nat>)
    requires from <= |text|
    ensures r.Some? ==> from <= r.value <= r.value + |needle| <= |text| && OccursAt(text, needle, r.value)
    ensures r.Some? ==> forall i :: from <= i < r.value ==> !OccursAt(text, needle, i)
    ensures r.None? ==> forall i :: from <= i <= |text| ==> !OccursAt(text, needle, i)
    decreases |text| - from
  {
    if OccursAt(text, needle, from) then Some(from)
    else if from == |text| then None
    else Find(text, needle, from + 1)
  }

  lemma OccursInParts(a: string, needle: string, b: string)
    ensures OccursAt(a + needle + b, needle, |a|)
  {
    assert (a + needle + b)[|a|..|a| + |needle|] == needle;
  }

  lemma OccursInFirst(a: string, b: string, needle: string, i: nat)
    requires i + |needle| <= |a|
    ensures OccursAt(a + b, needle, i) == OccursAt(a, needle, i)
  {
    assert (a + b)[i..i + |needle|] == a[i..i + |needle|];
  }

  lemma OccursWhole(text: string, needle: string, i: nat, k: nat)
    requires i <= k < i + |needle| && k < |text| && text[k] !in needle
    ensures !OccursAt(text, needle, i)
  {
    if i + |needle| <= |text| {
      assert text[i..i + |needle|][k - i] == text[k];
    }
  }

  /** A needle set down after a text that does not hold it, with a character between that it does not
      hold either, is found there. */
  lemma FindsAfter(a: string, gap: char, needle: string, b: string)
    requires Find(a, needle, 0).None? && gap !in needle
    ensures Find(a + [gap] + needle + b, needle, 0) == Some(|a| + 1)
  {
    hide OccursAt, Find;
    var text := a + [gap] + needle + b;
    OccursInParts(a + [gap], needle, b);
    forall i | 0 <= i < |a| + 1
      ensures !OccursAt(text, needle, i)
    {
      if i + |needle| <= |a| {
        assert text == a + ([gap] + needle + b);
        OccursInFirst(a, [gap] + needle + b, needle, i);
      } else {
        OccursWhole(text, needle, i, |a|);
      }
    }
  }

  lemma FindsClosing(a: string, inside: string, close: char, b: string)
    requires close !in inside
    ensures Find(a + inside + [close] + b, [close], |a|) == Some(|a| + |inside|)
  {
    hide OccursAt, Find;
    var text := a + inside + [close] + b;
    OccursInParts(a + inside, [close], b);
    forall i | |a| <= i < |a| + |inside|
      ensures !OccursAt(text, [close], i)
    {
      assert text[i] == inside[i - |a|];
      OccursWhole(text, [close], i, i);
    }
  }
}
