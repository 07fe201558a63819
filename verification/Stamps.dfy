/** How a tag is stamped into a body, and recovered from whatever text a system stored. */
module Stamps {
  import opened Wrappers
  import opened Strings

  const HEADER_NAME := "x-testinghq-tag"
  const MARKER_OPEN := "[testinghq:"

  function Marker(tag: string): string {
    MARKER_OPEN + tag + [']']
  }

  /** A body with the marker on a line of its own after it. */
  function StampedBody(body: string, tag: string): string {
    body + ['\n'] + (Marker(tag) + ['\n'])
  }

  /** Where `str.splitlines` breaks, within ASCII. */
  predicate Breaks(c: char) {
    '\n' <= c <= '\r' || '\U{1c}' <= c <= '\U{1e}'
  }

  function Lines(text: string): (lines: seq<string>)
    ensures lines != []
  {
    if text == [] then [[]]
    else
      var rest := Lines(text[1..]);
      if Breaks(text[0]) then [[]] + rest else [[text[0]] + rest[0]] + rest[1..]
  }

  function LowerChar(c: char): char {
    if 'A' <= c <= 'Z' then (c as int + 32) as char else c
  }

  function Lower(s: string): (r: string)
    ensures |r| == |s|
  {
    seq(|s|, i requires 0 <= i < |s| => LowerChar(s[i]))
  }

  /** The header's value, where the line is the tag header. */
  function HeaderValue(line: string): Option<string> {
    match Find(line, ":", 0)
    case Some(colon) => if Lower(Strip(line[..colon])) == HEADER_NAME then Some(Strip(line[colon + 1..])) else None
    case None => None
  }

  /** The value of the first line that is the tag header. */
  function FirstHeader(lines: seq<string>): Option<string> {
    if lines == [] then None
    else if HeaderValue(lines[0]).Some? then HeaderValue(lines[0])
    else FirstHeader(lines[1..])
  }

  lemma MarkerCloses(text: string, start: nat, end: nat)
    requires OccursAt(text, MARKER_OPEN, start) && start <= end && OccursAt(text, [']'], end)
    ensures start + |MARKER_OPEN| <= end
  {
    assert forall i :: start <= i < start + |MARKER_OPEN| ==> text[i] == text[start..start + |MARKER_OPEN|][i - start];
    assert text[end] == text[end..end + 1][0];
  }

  /** The first marker that is closed and not empty. */
  function FirstMarker(text: string, from: nat): Option<string>
    requires from <= |text|
    decreases |text| - from
  {
    match Find(text, MARKER_OPEN, from)
    case None => None
    case Some(start) =>
      match Find(text, [']'], start)
      case None => None
      case Some(end) =>
        MarkerCloses(text, start, end);
        if start + |MARKER_OPEN| < end then Some(text[start + |MARKER_OPEN|..end]) else FirstMarker(text, start + 1)
  }

  /** A header line decides, also when its value is empty; without one, the first marker does. */
  function FindTag(text: string): Option<string> {
    match FirstHeader(Lines(text))
    case Some(value) => if value == [] then None else Some(value)
    case None => FirstMarker(text, 0)
  }

  /** The search as the code runs it. */
  method SearchTag(text: string) returns (tag: Option<string>)
    ensures tag == FindTag(text)
  {
    var lines := Lines(text);
    for i := 0 to |lines|
      invariant FirstHeader(lines) == FirstHeader(lines[i..])
    {
      var value := HeaderValue(lines[i]);
      if value.Some? {
        return if value.value == [] then None else value;
      }
      assert lines[i..][1..] == lines[i + 1..];
    }
    tag := SearchMarker(text);
  }

  method SearchMarker(text: string) returns (tag: Option<string>)
    ensures tag == FirstMarker(text, 0)
  {
    hide Lines, OccursAt;
    var start := Find(text, MARKER_OPEN, 0);
    var from := 0;
    while start.Some?
      invariant from <= |text| && start == Find(text, MARKER_OPEN, from)
      invariant FirstMarker(text, 0) == FirstMarker(text, from)
      decreases |text| - from
    {
      var end := Find(text, [']'], start.value);
      if end.None? {
        return None;
      }
      MarkerCloses(text, start.value, end.value);
      var candidate := text[start.value + |MARKER_OPEN|..end.value];
      if candidate != [] {
        return Some(candidate);
      }
      from := start.value + 1;
      start := Find(text, MARKER_OPEN, from);
    }
    return None;
  }

  // What was stamped is found

  lemma {:induction false} LinesSplit(a: string, b: string)
    ensures Lines(a + ['\n'] + b) == Lines(a) + Lines(b)
  {
    var s := a + ['\n'] + b;
    if a == [] {
      assert s[1..] == b;
    } else {
      assert s[1..] == a[1..] + ['\n'] + b;
      LinesSplit(a[1..], b);
    }
  }

  lemma {:induction false} LinesOfOne(line: string)
    requires forall i :: 0 <= i < |line| ==> !Breaks(line[i])
    ensures Lines(line) == [line]
  {
    if line != [] {
      LinesOfOne(line[1..]);
      assert line == [line[0]] + line[1..];
    }
  }

  lemma {:induction false} NoHeaderInEither(a: seq<string>, b: seq<string>)
    requires FirstHeader(a).None?
    ensures FirstHeader(a + b) == FirstHeader(b)
  {
    if a == [] {
      assert a + b == b;
    } else {
      assert (a + b)[1..] == a[1..] + b;
      NoHeaderInEither(a[1..], b);
    }
  }

  lemma MarkerIsNoHeader(tag: string)
    ensures HeaderValue(Marker(tag)).None? && HeaderValue([]).None?
  {
    var line := Marker(tag);
    assert line[10] == ':' && line[10..11] == ":";
    assert OccursAt(line, ":", 10);
    var colon := Find(line, ":", 0).value;
    var a, b := StripParts(line[..colon]);
    assert |HEADER_NAME| == 15;
  }

  lemma StampHasNoHeader(body: string, tag: string)
    requires FirstHeader(Lines(body)).None? && forall i :: 0 <= i < |tag| ==> !Breaks(tag[i])
    ensures FirstHeader(Lines(StampedBody(body, tag))).None?
  {
    hide HeaderValue, Lines, Marker;
    LinesSplit(body, Marker(tag) + ['\n']);
    LinesOfMarker(tag);
    MarkerIsNoHeader(tag);
    var two := [Marker(tag), []];
    assert two[1..] == [[]] && two[1..][1..] == [];
    assert FirstHeader(two[1..]) == None;
    NoHeaderInEither(Lines(body), two);
    assert StampedBody(body, tag) == body + ['\n'] + (Marker(tag) + ['\n']);
  }

  lemma LinesOfMarker(tag: string)
    requires forall i :: 0 <= i < |tag| ==> !Breaks(tag[i])
    ensures Lines(Marker(tag) + ['\n']) == [Marker(tag), []]
  {
    hide Lines;
    assert Marker(tag) + ['\n'] == Marker(tag) + ['\n'] + [];
    LinesSplit(Marker(tag), []);
    LinesOfOne(Marker(tag));
    LinesOfOne([]);
  }

  lemma Associates(a: string, b: string, c: string)
    ensures a + b + c == a + (b + c)
  {
  }

  lemma Regroup(a: string, b: string, c: string, d: string)
    ensures a + b + c + d == a + (b + c + d)
  {
  }

  lemma SliceInside(a: string, b: string, c: string, d: string)
    ensures (a + (b + c) + d)[|a| + |b|..|a| + |b| + |c|] == c
  {
  }

  lemma OpensAfterBody(body: string, open: string, tag: string)
    requires Find(body, open, 0).None? && '\n' !in open
    ensures Find(body + ['\n'] + (open + tag + [']'] + ['\n']), open, 0) == Some(|body| + 1)
  {
    hide Find;
    var rest := tag + [']'] + ['\n'];
    FindsAfter(body, '\n', open, rest);
    Regroup(open, tag, [']'], ['\n']);
    Associates(body + ['\n'], open, rest);
  }

  lemma SliceStands(a: string, b: string, c: string, d: string, e: string)
    ensures (a + (b + c) + d + e)[|a| + |b|..|a| + |b| + |c|] == c
  {
    SliceInside(a, b, c, d + e);
    Associates(a + (b + c), d, e);
  }

  lemma InNeither(c: char, a: string, b: string)
    requires c !in a && c !in b
    ensures c !in a + b
  {
  }

  lemma FirstMarkerIs(text: string, start: nat, end: nat)
    requires Find(text, MARKER_OPEN, 0) == Some(start) && Find(text, [']'], start) == Some(end)
    requires start + |MARKER_OPEN| < end
    ensures FirstMarker(text, 0) == Some(text[start + |MARKER_OPEN|..end])
  {
    hide Find;
  }

  /** The tag stamped into a body that carried neither a marker nor a tag header is the tag found. */
  lemma StampedTagIsFound(body: string, tag: string)
    requires FirstHeader(Lines(body)).None? && Find(body, MARKER_OPEN, 0).None?
    requires tag != [] && ']' !in tag && forall i :: 0 <= i < |tag| ==> !Breaks(tag[i])
    ensures FindTag(StampedBody(body, tag)) == Some(tag)
  {
    hide Find, Lines, FirstHeader, FirstMarker, OccursAt;
    StampHasNoHeader(body, tag);
    OpensAfterBody(body, MARKER_OPEN, tag);
    InNeither(']', MARKER_OPEN, tag);
    FindsClosing(body + ['\n'], MARKER_OPEN + tag, ']', ['\n']);
    SliceStands(body + ['\n'], MARKER_OPEN, tag, [']'], ['\n']);
    Regroup(body + ['\n'], MARKER_OPEN + tag, [']'], ['\n']);
    FirstMarkerIs(StampedBody(body, tag), |body| + 1, |body| + 1 + |MARKER_OPEN| + |tag|);
  }
}
