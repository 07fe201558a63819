/**
 The mailbox adapter: an append-only JSON Lines sink, read piece by piece as it grows. Its reading is
 compared with reading the same text in one pass.
 */
module Mailbox {
  import opened Wrappers
  import opened Json
  import opened MailboxLines
  import opened Strings

  datatype Error = NotValidJson(line: nat) | NotAnObject(line: nat)

  /** How far the sink has been read. `spans` says which bytes each record was read from. */
  datatype Reader = Reader(offset: nat, lineNo: nat, openLine: bool, records: seq<Value>, spans: seq<(nat, nat)>)

  datatype Read = Read(reader: Reader, error: Option<Error>)

  function Fresh(): Reader { Reader(0, 0, false, [], []) }

  /** Python's `split` at newlines: one more piece than there are newlines. */
  function Split(s: string): (lines: seq<string>)
    ensures lines != []
  {
    if s == [] then [[]]
    else
      var rest := Split(s[1..]);
      if s[0] == '\n' then [[]] + rest else [[s[0]] + rest[0]] + rest[1..]
  }

  /** A line whose newline has arrived. */
  function TakeLine(r: Reader, line: string): Read {
    var next := r.offset + |line| + 1;
    match ReadLine(line)
    case Blank =>
      Read(r.(offset := next, lineNo := if r.openLine then r.lineNo else r.lineNo + 1, openLine := false), None)
    case Entry(record) =>
      Read(Reader(next, r.lineNo + 1, false, r.records + [record], r.spans + [(r.offset, r.offset + |line|)]), None)
    case NotObject => Read(r, Some(NotAnObject(r.lineNo + 1)))
    case NotJson => Read(r, Some(NotValidJson(r.lineNo + 1)))
  }

  /** The text after the last newline, taken only once it is an object. */
  function TakeTail(r: Reader, tail: string): Read {
    match ReadLine(tail)
    case Entry(record) =>
      var next := r.offset + |tail|;
      Read(Reader(next, r.lineNo + 1, true, r.records + [record], r.spans + [(r.offset, next)]), None)
    case NotObject => Read(r, Some(NotAnObject(r.lineNo + 1)))
    case _ => Read(r, None)
  }

  function Consume(r: Reader, lines: seq<string>): Read
    requires lines != []
    decreases |lines|
  {
    if |lines| == 1 then TakeTail(r, lines[0])
    else
      var first := TakeLine(r, lines[0]);
      if first.error.Some? then first else Consume(first.reader, lines[1..])
  }

  // A sink of whole lines

  /** The text of a sink of these lines. */
  function Join(lines: seq<string>): string {
    if lines == [] then [] else lines[0] + ['\n'] + Join(lines[1..])
  }

  /** Each line is blank or holds one object: the format the adapter documents. */
  ghost predicate Good(lines: seq<string>) {
    forall i :: 0 <= i < |lines| ==> GoodLine(lines[i])
  }

  ghost predicate GoodLine(line: string) {
    '\n' !in line && (ReadLine(line).Blank? || ReadLine(line).Entry?)
  }

  /** The records the lines hold. */
  function Entries(lines: seq<string>): seq<Value> {
    if lines == [] then []
    else
      var line := ReadLine(lines[|lines| - 1]);
      Entries(lines[..|lines| - 1]) + (if line.Entry? then [line.record] else [])
  }

  lemma {:induction false} SplitOfLine(line: string)
    requires '\n' !in line
    ensures Split(line) == [line]
  {
    if line != [] {
      SplitOfLine(line[1..]);
      assert line == [line[0]] + line[1..];
    }
  }

  lemma {:induction false} SplitAtNewline(line: string, rest: string)
    requires '\n' !in line
    ensures Split(line + ['\n'] + rest) == [line] + Split(rest)
  {
    var s := line + ['\n'] + rest;
    if line == [] {
      assert s[1..] == rest;
    } else {
      assert s[1..] == line[1..] + ['\n'] + rest;
      SplitAtNewline(line[1..], rest);
      assert line == [line[0]] + line[1..];
    }
  }

  // Where a reader can be in such a sink

  /** The reader has taken the first j lines and c bytes of the next; it stands inside a line only
      after taking the object that is all that line has to say. */
  ghost predicate UpTo(lines: seq<string>, j: nat, c: nat, r: Reader) {
    && j <= |lines|
    && (c > 0 ==> j < |lines| && c <= |lines[j]| && ReadLine(lines[j][..c]).Entry? && AllBlank(lines[j][c..]))
    && (r.openLine <==> c > 0)
    && r.offset == |Join(lines[..j])| + c
    && r.lineNo == (if c > 0 then j + 1 else j)
    && r.records == (if c > 0 then Entries(lines[..j + 1]) else Entries(lines[..j]))
  }

  /** Of the first n bytes the reader has left only a line that is not complete and not yet an object. */
  ghost predicate Exhausted(lines: seq<string>, j: nat, c: nat, n: nat)
    requires j <= |lines| && n <= |Join(lines)|
  {
    var b := |Join(lines[..j])|;
    && b + c <= n
    && (if j < |lines| then n - b <= |lines[j]| else n == b)
    && (c == 0 && j < |lines| ==> !ReadLine(lines[j][..n - b]).Entry?)
  }

  lemma {:induction false} JoinSplits(lines: seq<string>, j: nat)
    requires j <= |lines|
    ensures Join(lines) == Join(lines[..j]) + Join(lines[j..])
  {
    if j == 0 {
      assert lines[..0] == [] && lines[0..] == lines;
    } else {
      JoinSplits(lines[1..], j - 1);
      assert lines[..j][1..] == lines[1..][..j - 1] && lines[1..][j - 1..] == lines[j..];
      assert Join(lines[..j]) == lines[0] + ['\n'] + Join(lines[1..][..j - 1]);
    }
  }

  lemma {:induction false} JoinAppend(lines: seq<string>, line: string)
    ensures Join(lines + [line]) == Join(lines) + line + ['\n']
  {
    if lines == [] {
      assert [line][1..] == [] && lines + [line] == [line];
      assert Join([line]) == line + ['\n'] + Join([]);
    } else {
      assert (lines + [line])[0] == lines[0] && (lines + [line])[1..] == lines[1..] + [line];
      JoinAppend(lines[1..], line);
      assert Join(lines + [line]) == lines[0] + ['\n'] + (Join(lines[1..]) + line + ['\n']);
    }
  }

  lemma NextLine(lines: seq<string>, j: nat)
    requires j < |lines|
    ensures |Join(lines[..j + 1])| == |Join(lines[..j])| + |lines[j]| + 1
    ensures Entries(lines[..j + 1])
         == Entries(lines[..j]) + (if ReadLine(lines[j]).Entry? then [ReadLine(lines[j]).record] else [])
    ensures Join(lines[j..]) == lines[j] + ['\n'] + Join(lines[j + 1..])
  {
    assert lines[..j + 1] == lines[..j] + [lines[j]];
    JoinAppend(lines[..j], lines[j]);
    assert lines[..j + 1][..j] == lines[..j];
    assert lines[j..][1..] == lines[j + 1..];
  }

  /** The reader takes what is left of a line, up to its newline. */
  lemma TakesRestOfLine(lines: seq<string>, j: nat, c: nat, r: Reader)
    requires Good(lines) && UpTo(lines, j, c, r) && j < |lines|
    ensures TakeLine(r, lines[j][c..]).error == None
    ensures UpTo(lines, j + 1, 0, TakeLine(r, lines[j][c..]).reader)
  {
    NextLine(lines, j);
    assert GoodLine(lines[j]);
    if c > 0 {
      BlankLines(lines[j][c..]);
    } else {
      assert lines[j][0..] == lines[j];
    }
  }

  /** The reader looks at the first m bytes of a line that has no newline yet. */
  lemma TakesPartOfLine(lines: seq<string>, j: nat, c: nat, r: Reader, m: nat) returns (d: nat)
    requires Good(lines) && UpTo(lines, j, c, r) && j < |lines| && c <= m <= |lines[j]|
    ensures TakeTail(r, lines[j][c..m]).error == None
    ensures UpTo(lines, j, d, TakeTail(r, lines[j][c..m]).reader) && d <= m
    ensures d == 0 ==> !ReadLine(lines[j][..m]).Entry?
  {
    NextLine(lines, j);
    assert GoodLine(lines[j]);
    var line := lines[j];
    if c > 0 {
      assert AllBlank(line[c..m]);
      BlankLines(line[c..m]);
      d := c;
    } else {
      assert line[0..m] == line[..m];
      d := if ReadLine(line[..m]).Entry? then m else 0;
      BlankLines(line);
      BlankLines(line[..m]);
      if ReadLine(line).Entry? {
        BeginningOfEntry(line, m);
      }
      assert m == 0 ==> line[..m] == [];
    }
  }

  lemma SlicePastLine(whole: string, b: nat, line: string, rest: string, c: nat, n: nat)
    requires b <= |whole| && whole[b..] == line + ['\n'] + rest && c <= |line| && b + |line| < n <= |whole|
    ensures whole[b + c..n] == line[c..] + ['\n'] + whole[b + |line| + 1..n]
  {
    var end, tail := b + |line|, line + ['\n'] + rest;
    assert whole[b..] == tail;
    assert forall i :: 0 <= i < |tail| ==> whole[b + i] == tail[i];
    assert whole[b + c..end] == line[c..] && whole[end] == '\n';
    assert whole[b + c..n] == whole[b + c..end] + [whole[end]] + whole[end + 1..n];
  }

  lemma SliceInsideLine(whole: string, b: nat, line: string, rest: string, c: nat, n: nat)
    requires b <= |whole| && whole[b..] == line + ['\n'] + rest && b + c <= n <= b + |line|
    ensures n <= |whole| && whole[b + c..n] == line[c..n - b]
  {
    assert whole[b + c..n] == whole[b..][c..n - b] == line[c..n - b];
  }

  /** The sink's text from line j on. */
  lemma TextFrom(lines: seq<string>, j: nat)
    requires j < |lines|
    ensures |Join(lines[..j])| <= |Join(lines)|
    ensures Join(lines)[|Join(lines[..j])|..] == lines[j] + ['\n'] + Join(lines[j + 1..])
  {
    JoinSplits(lines, j);
    NextLine(lines, j);
  }

  lemma ConsumeLine(r: Reader, line: string, rest: string)
    requires '\n' !in line && TakeLine(r, line).error == None
    ensures Consume(r, Split(line + ['\n'] + rest)) == Consume(TakeLine(r, line).reader, Split(rest))
  {
    SplitAtNewline(line, rest);
  }

  lemma ConsumeTail(r: Reader, tail: string)
    requires '\n' !in tail
    ensures Consume(r, Split(tail)) == TakeTail(r, tail)
  {
    SplitOfLine(tail);
  }

  /** Where the end of what is there falls in the line the reader is at. */
  lemma ReadsInsideLine(lines: seq<string>, j: nat, c: nat, r: Reader, n: nat) returns (d: nat)
    requires Good(lines) && UpTo(lines, j, c, r) && r.offset <= n <= |Join(lines)|
    requires j < |lines| && n - |Join(lines[..j])| <= |lines[j]|
    ensures var t := Consume(r, Split(Join(lines)[r.offset..n]));
      t.error == None && UpTo(lines, j, d, t.reader) && Exhausted(lines, j, d, n)
  {
    hide ReadLine, TakeTail, Consume, Split, Join, Entries;
    var b := |Join(lines[..j])|;
    assert GoodLine(lines[j]);
    TextFrom(lines, j);
    SliceInsideLine(Join(lines), b, lines[j], Join(lines[j + 1..]), c, n);
    ConsumeTail(r, lines[j][c..n - b]);
    d := TakesPartOfLine(lines, j, c, r, n - b);
  }

  /** The line the reader is at has come to its end. */
  lemma ReadsPastLine(lines: seq<string>, j: nat, c: nat, r: Reader, n: nat) returns (next: Reader)
    requires Good(lines) && UpTo(lines, j, c, r) && n <= |Join(lines)|
    requires j < |lines| && n - |Join(lines[..j])| > |lines[j]|
    ensures UpTo(lines, j + 1, 0, next) && next.offset <= n
    ensures Consume(r, Split(Join(lines)[r.offset..n])) == Consume(next, Split(Join(lines)[next.offset..n]))
  {
    hide ReadLine, TakeLine, Consume, Split, Join, Entries;
    var b := |Join(lines[..j])|;
    assert GoodLine(lines[j]);
    TextFrom(lines, j);
    SlicePastLine(Join(lines), b, lines[j], Join(lines[j + 1..]), c, n);
    TakesRestOfLine(lines, j, c, r);
    NextLine(lines, j);
    next := TakeLine(r, lines[j][c..]).reader;
    ConsumeLine(r, lines[j][c..], Join(lines)[next.offset..n]);
  }

  /** Reading on, from wherever the reader stands, up to the first n bytes of the sink. */
  lemma {:induction false} ReadsOn(lines: seq<string>, j: nat, c: nat, r: Reader, n: nat) returns (j': nat, c': nat)
    requires Good(lines) && UpTo(lines, j, c, r) && r.offset <= n <= |Join(lines)|
    ensures j' <= |lines|
    ensures var t := Consume(r, Split(Join(lines)[r.offset..n]));
      t.error == None && UpTo(lines, j', c', t.reader) && Exhausted(lines, j', c', n)
    decreases |lines| - j
  {
    hide ReadLine;
    if j == |lines| {
      ReadsNothing(lines, r, n);
      j', c' := j, c;
    } else if n - |Join(lines[..j])| <= |lines[j]| {
      j' := j;
      c' := ReadsInsideLine(lines, j, c, r, n);
    } else {
      var next := ReadsPastLine(lines, j, c, r, n);
      j', c' := ReadsOn(lines, j + 1, 0, next, n);
    }
  }

  lemma ReadsNothing(lines: seq<string>, r: Reader, n: nat)
    requires UpTo(lines, |lines|, 0, r) && r.offset <= n <= |Join(lines)|
    ensures Consume(r, Split(Join(lines)[r.offset..n])) == Read(r, None) && Exhausted(lines, |lines|, 0, n)
  {
    assert lines[..|lines|] == lines;
    BlankLines([]);
  }

  // The reading depends on how much there is, and on nothing else

  lemma {:induction false} JoinGrows(lines: seq<string>, i: nat, j: nat)
    requires i < j <= |lines|
    ensures |Join(lines[..i])| + |lines[i]| + 1 <= |Join(lines[..j])|
    decreases j
  {
    hide ReadLine, Entries;
    NextLine(lines, j - 1);
    if i < j - 1 {
      JoinGrows(lines, i, j - 1);
    }
  }

  lemma SameLine(lines: seq<string>, i: nat, c: nat, j: nat, d: nat, n: nat)
    requires n <= |Join(lines)| && i < j <= |lines| && Exhausted(lines, i, c, n)
    ensures !Exhausted(lines, j, d, n)
  {
    hide ReadLine, Join;
    JoinGrows(lines, i, j);
  }

  lemma InsideIsAnEntry(lines: seq<string>, j: nat, c: nat, n: nat)
    requires j < |lines| && 0 < c <= n <= |lines[j]| && ReadLine(lines[j][..c]).Entry? && AllBlank(lines[j][c..])
    ensures ReadLine(lines[j][..n]).Entry?
  {
    hide ReadLine;
    assert lines[j][..n] == lines[j][..c] + lines[j][c..n];
    TrailingBlanks(lines[j][..c], lines[j][c..n]);
  }

  lemma SameInside(lines: seq<string>, n: nat, j: nat, c: nat, d: nat)
    requires j < |lines| && n <= |Join(lines)| && 0 < c <= |lines[j]|
    requires ReadLine(lines[j][..c]).Entry? && AllBlank(lines[j][c..])
    requires Exhausted(lines, j, c, n) && Exhausted(lines, j, d, n)
    ensures d > 0
  {
    hide ReadLine;
    InsideIsAnEntry(lines, j, c, n - |Join(lines[..j])|);
  }

  lemma SamePlace(lines: seq<string>, n: nat, i: nat, c: nat, j: nat, d: nat)
    requires n <= |Join(lines)| && i <= |lines| && j <= |lines| && Exhausted(lines, i, c, n) && Exhausted(lines, j, d, n)
    ensures i == j
  {
    hide ReadLine;
    if i < j {
      SameLine(lines, i, c, j, d, n);
    } else if j < i {
      SameLine(lines, j, d, i, c, n);
    }
  }

  lemma OneReadingPerLength(lines: seq<string>, n: nat, i: nat, c: nat, r: Reader, j: nat, d: nat, s: Reader)
    requires n <= |Join(lines)|
    requires UpTo(lines, i, c, r) && Exhausted(lines, i, c, n) && UpTo(lines, j, d, s) && Exhausted(lines, j, d, n)
    ensures r.records == s.records && r.lineNo == s.lineNo
  {
    hide ReadLine;
    SamePlace(lines, n, i, c, j, d);
    if c > 0 {
      SameInside(lines, n, i, c, d);
    }
    if d > 0 {
      SameInside(lines, n, i, d, c);
    }
  }

  // The adapter's refreshes

  datatype Stat = Stat(identity: nat, size: nat, mtime: int)

  datatype Cursor = Cursor(reader: Reader, identity: Option<nat>, mtime: Option<int>)

  function Unread(): Cursor { Cursor(Fresh(), None, None) }

  predicate Replaced(c: Cursor, stat: Stat) {
    || (c.identity.Some? && c.identity.value != stat.identity)
    || stat.size < c.reader.offset
    || (stat.size == c.reader.offset && c.mtime.Some? && c.mtime.value != stat.mtime && c.reader.offset > 0)
  }

  /** One refresh: what `stat` said, and the text that was there to read. */
  function Refreshed(c: Cursor, stat: Option<Stat>, content: string): (Cursor, Option<Error>)
    requires stat.Some? ==> stat.value.size <= |content|
  {
    match stat
    case None => (if c.reader.offset > 0 then Unread() else c, None)
    case Some(st) =>
      var r := if Replaced(c, st) then Fresh() else c.reader;
      if st.size == r.offset then (Cursor(r, Some(st.identity), Some(st.mtime)), None)
      else
        var t := Consume(r, Split(content[r.offset..st.size]));
        (Cursor(t.reader, Some(st.identity), Some(st.mtime)), t.error)
  }

  /** The whole text, read in one pass by an adapter that has read nothing. */
  function OnePass(content: string): Read {
    Consume(Fresh(), Split(content))
  }

  /** Another file, one that is shorter than what was read, or one of the same length that was written since. */
  ghost predicate IsAnother(c: Cursor, stat: Stat) {
    || (c.identity.Some? && stat.identity != c.identity.value)
    || stat.size < c.reader.offset
    || (stat.size == c.reader.offset > 0 && c.mtime.Some? && stat.mtime != c.mtime.value)
  }

  /** Any other file is read on: what is there beyond the offset is consumed by the reader as it stands, and an
      unchanged file changes nothing. */
  lemma OtherwiseReadsOn(c: Cursor, stat: Stat, content: string)
    requires stat.size == |content| && !IsAnother(c, stat)
    ensures var (t, error) := Refreshed(c, Some(stat), content);
      && t.identity == Some(stat.identity) && t.mtime == Some(stat.mtime)
      && Read(t.reader, error) ==
           if |content| == c.reader.offset then Read(c.reader, None) else Consume(c.reader, Split(content[c.reader.offset..]))
  {
    assert content[c.reader.offset..|content|] == content[c.reader.offset..];
  }

  /** A sink that is not there holds nothing, also when it was read before, and is no error. */
  lemma MissingSinkIsEmpty(c: Cursor, content: string)
    requires c.reader.offset == 0 ==> c.reader.records == []
    ensures var (t, error) := Refreshed(c, None, content);
      error == None && t.reader.records == [] && t.reader.offset == 0 && (c.reader.offset == 0 ==> t == c)
  {
  }

  /** The first of the lines that is neither blank nor an object. */
  ghost predicate IsFirstBad(lines: seq<string>, i: nat) {
    i < |lines| && !GoodLine(lines[i]) && Good(lines[..i])
  }

  /** An error names the first line that is not an object, by its number, and says whether it is JSON at all. */
  lemma {:induction false} ErrorNamesTheLine(lines: seq<string>, tail: string, r: Reader, i: nat)
    requires !r.openLine && IsFirstBad(lines, i) && '\n' !in lines[i]
    ensures Consume(r, Split(Join(lines) + tail)).error
      == Some(if ReadLine(lines[i]).NotObject? then NotAnObject(r.lineNo + i + 1) else NotValidJson(r.lineNo + i + 1))
  {
    hide ReadLine;
    var rest := Join(lines[1..]) + tail;
    assert Join(lines) + tail == lines[0] + ['\n'] + rest;
    if i > 0 {
      assert lines[..i][0] == lines[0] && lines[1..][..i - 1] == lines[..i][1..];
      GoodFirst(lines[..i]);
      ErrorNamesTheLine(lines[1..], tail, TakeLine(r, lines[0]).reader, i - 1);
    }
    SplitAtNewline(lines[0], rest);
    assert Split(Join(lines) + tail)[1..] == Split(rest);
  }

  /** After good lines, text without a newline is an error only when it is JSON and no object. */
  lemma {:induction false} UnfinishedLineIsNoError(lines: seq<string>, tail: string, r: Reader)
    requires !r.openLine && Good(lines) && '\n' !in tail
    ensures Consume(r, Split(Join(lines) + tail)).error
      == if ReadLine(tail).NotObject? then Some(NotAnObject(r.lineNo + |lines| + 1)) else None
  {
    hide ReadLine;
    if lines == [] {
      assert Join(lines) + tail == tail;
      SplitOfLine(tail);
    } else {
      var rest := Join(lines[1..]) + tail;
      assert Join(lines) + tail == lines[0] + ['\n'] + rest;
      SplitAtNewline(lines[0], rest);
      assert Split(Join(lines) + tail)[1..] == Split(rest);
      GoodFirst(lines);
      UnfinishedLineIsNoError(lines[1..], tail, TakeLine(r, lines[0]).reader);
    }
  }

  lemma GoodFirst(lines: seq<string>)
    requires lines != []
    ensures Good(lines) <==> GoodLine(lines[0]) && Good(lines[1..])
  {
    assert forall i :: 0 < i < |lines| ==> lines[i] == lines[1..][i - 1];
  }

  /** A file that was replaced, that shrank, or that was rewritten in place is read afresh. */
  lemma ReplacedIsReadAfresh(c: Cursor, stat: Stat, content: string)
    requires stat.size == |content| && IsAnother(c, stat)
    ensures var (t, error) := Refreshed(c, Some(stat), content); Read(t.reader, error) == OnePass(content)
  {
    assert content[0..|content|] == content;
    if content == [] {
      assert Split(content) == [[]];
      BlankLines([]);
    }
  }

  /** A moment at which the adapter looks: how much of the sink was there, and its modification time. */
  datatype Look = Look(n: nat, mtime: int)

  ghost predicate Grows(lines: seq<string>, looks: seq<Look>) {
    && (forall i :: 0 <= i < |looks| ==> looks[i].n <= |Join(lines)|)
    && (forall i, j :: 0 <= i < j < |looks| ==> looks[i].n <= looks[j].n)
  }

  /** Where the adapter is after these looks, and the first error any of them raised. A look that
      raised leaves the adapter where it stood, and the next one goes on from there. */
  function AfterLooks(lines: seq<string>, identity: nat, looks: seq<Look>): (Cursor, Option<Error>)
    requires Grows(lines, looks)
  {
    if looks == [] then (Unread(), None)
    else
      var (before, failed) := AfterLooks(lines, identity, looks[..|looks| - 1]);
      var look := looks[|looks| - 1];
      var (after, error) := Refreshed(before, Some(Stat(identity, look.n, look.mtime)), Join(lines)[..look.n]);
      (after, if failed.Some? then failed else error)
  }

  lemma StartsAfresh(lines: seq<string>)
    ensures UpTo(lines, 0, 0, Fresh())
  {
    assert lines[..0] == [];
  }

  lemma NothingNew(lines: seq<string>, j: nat, c: nat, r: Reader, n: nat)
    requires UpTo(lines, j, c, r) && r.offset == n <= |Join(lines)|
    ensures Exhausted(lines, j, c, n)
  {
    if j < |lines| {
      BlankLines(lines[j][..0]);
    } else {
      assert lines[..j] == lines;
    }
  }

  /** One refresh of a sink that has grown to n bytes, rewritten in place or not. */
  lemma RefreshReadsOn(lines: seq<string>, j: nat, c: nat, cursor: Cursor, stat: Stat) returns (j': nat, c': nat)
    requires Good(lines) && UpTo(lines, j, c, cursor.reader) && cursor.reader.offset <= stat.size <= |Join(lines)|
    requires cursor.identity.None? || cursor.identity.value == stat.identity
    ensures j' <= |lines|
    ensures var (t, error) := Refreshed(cursor, Some(stat), Join(lines)[..stat.size]);
      && error == None && t.identity == Some(stat.identity)
      && UpTo(lines, j', c', t.reader) && Exhausted(lines, j', c', stat.size)
  {
    j', c' := j, c;
    var r := cursor.reader;
    if Replaced(cursor, stat) {
      StartsAfresh(lines);
      j', c', r := 0, 0, Fresh();
    }
    if r.offset == stat.size {
      NothingNew(lines, j', c', r, stat.size);
    } else {
      assert Join(lines)[..stat.size][r.offset..stat.size] == Join(lines)[r.offset..stat.size];
      j', c' := ReadsOn(lines, j', c', r, stat.size);
    }
  }

  lemma {:induction false} LooksReadEverything(lines: seq<string>, identity: nat, looks: seq<Look>)
    returns (j: nat, c: nat)
    requires Good(lines) && Grows(lines, looks)
    ensures j <= |lines|
    ensures var (t, error) := AfterLooks(lines, identity, looks);
      && error == None && (t.identity.None? || t.identity.value == identity)
      && UpTo(lines, j, c, t.reader)
      && (if looks == [] then t.reader.offset == 0 else Exhausted(lines, j, c, looks[|looks| - 1].n))
  {
    if looks == [] {
      StartsAfresh(lines);
      j, c := 0, 0;
    } else {
      var last := |looks| - 1;
      var look := looks[last];
      j, c := LooksReadEverything(lines, identity, looks[..last]);
      j, c := RefreshReadsOn(lines, j, c, AfterLooks(lines, identity, looks[..last]).0, Stat(identity, look.n, look.mtime));
    }
  }

  /** Reading the sink as it grows, at any moments, whatever the modification times, finds what reading
      it in one pass finds: the same records in the same order and as many lines. */
  lemma IncrementalReadingIsWholeReading(lines: seq<string>, identity: nat, looks: seq<Look>)
    requires Good(lines) && Grows(lines, looks) && looks != []
    ensures var n := looks[|looks| - 1].n;
      var (t, error) := AfterLooks(lines, identity, looks);
      var whole := OnePass(Join(lines)[..n]);
      && error == None && whole.error == None
      && t.reader.records == whole.reader.records && t.reader.lineNo == whole.reader.lineNo
      && (n == |Join(lines)| ==> t.reader.records == Entries(lines) && t.reader.lineNo == |lines|)
  {
    var n := looks[|looks| - 1].n;
    var r := AfterLooks(lines, identity, looks).0.reader;
    var j, c := LooksReadEverything(lines, identity, looks);
    StartsAfresh(lines);
    assert Join(lines)[0..n] == Join(lines)[..n];
    var i, d := ReadsOn(lines, 0, 0, Fresh(), n);
    OneReadingPerLength(lines, n, j, c, r, i, d, OnePass(Join(lines)[..n]).reader);
    if n == |Join(lines)| {
      WholeSink(lines, j, c);
    }
  }

  lemma WholeSink(lines: seq<string>, j: nat, c: nat)
    requires j <= |lines| && Exhausted(lines, j, c, |Join(lines)|)
    ensures j == |lines| && lines[..j] == lines
  {
    hide ReadLine;
    assert lines[..|lines|] == lines;
    if j < |lines| {
      JoinGrows(lines, j, |lines|);
    }
  }

  /** Every growing sequence of looks at the sink that ends with all of it raises nothing and finds
      the records of the lines. */
  ghost predicate ReadsAll(lines: seq<string>, identity: nat, looks: seq<Look>) {
    Grows(lines, looks) && looks != [] && looks[|looks| - 1].n == |Join(lines)| ==>
      var (t, error) := AfterLooks(lines, identity, looks);
      error == None && t.reader.records == Entries(lines) && t.reader.lineNo == |lines|
  }

  lemma {:induction false} NoErrorMeansGood(lines: seq<string>, r: Reader)
    requires forall i :: 0 <= i < |lines| ==> '\n' !in lines[i]
    requires Consume(r, Split(Join(lines))).error == None
    ensures Good(lines)
  {
    hide ReadLine;
    if lines != [] {
      var rest := Join(lines[1..]);
      SplitAtNewline(lines[0], rest);
      assert Split(Join(lines))[1..] == Split(rest);
      assert GoodLine(lines[0]);
      NoErrorMeansGood(lines[1..], TakeLine(r, lines[0]).reader);
    }
  }

  lemma OneLook(lines: seq<string>, identity: nat)
    requires lines != [] && ReadsAll(lines, identity, [Look(|Join(lines)|, 0)])
    ensures Consume(Fresh(), Split(Join(lines))).error == None
  {
    hide ReadLine;
    var n := |Join(lines)|;
    var looks := [Look(n, 0)];
    assert looks[..0] == [] && Grows(lines, looks) && n > 0;
    assert Join(lines)[..n][0..n] == Join(lines);
    assert AfterLooks(lines, identity, looks) == Refreshed(Unread(), Some(Stat(identity, n, 0)), Join(lines)[..n]);
  }

  /** The adapter reads a sink of lines in full, however it is looked at, exactly when each line is
      blank or holds one object. */
  lemma AnyLooksReadItIffGood(lines: seq<string>, identity: nat)
    requires forall i :: 0 <= i < |lines| ==> '\n' !in lines[i]
    ensures (forall looks: seq<Look> :: ReadsAll(lines, identity, looks)) <==> Good(lines)
  {
    hide ReadLine;
    if Good(lines) {
      forall looks: seq<Look> | Grows(lines, looks) && looks != [] && looks[|looks| - 1].n == |Join(lines)|
        ensures ReadsAll(lines, identity, looks)
      {
        IncrementalReadingIsWholeReading(lines, identity, looks);
      }
    } else if forall looks: seq<Look> :: ReadsAll(lines, identity, looks) {
      assert ReadsAll(lines, identity, [Look(|Join(lines)|, 0)]);
      OneLook(lines, identity);
      NoErrorMeansGood(lines, Fresh());
    }
  }

  // Two objects on one line

  lemma EmptyObject()
    ensures ReadLine("{}") == Entry(Object([])) && ReadLine("{}{}") == NotJson
  {
    var one, two := "{}", "{}{}";
    assert one == [] + one + [] && two == [] + two + [];
    StripOf([], one, []);
    StripOf([], two, []);
    assert SkipWs(one, 0) == 0 && SkipWs(one, 1) == 1;
    assert SkipWs(two, 0) == 0 && SkipWs(two, 1) == 1 && SkipWs(two, 2) == 2;
  }

  /** The format matters: two objects on one line are taken when they arrive one by one, and refused
      when they are read together. */
  lemma TwoObjectsOnOneLine()
    ensures Consume(Fresh(), Split("{}")).error == None
    ensures Consume(Consume(Fresh(), Split("{}")).reader, Split("{}")).error == None
    ensures OnePass("{}{}\n").error == Some(NotValidJson(1))
  {
    hide ReadLine;
    EmptyObject();
    SplitOfLine("{}");
    SplitAtNewline("{}{}", []);
    assert "{}{}\n" == "{}{}" + ['\n'] + [];
  }

  // No byte twice

  /** Each record was read from bytes of its own, in order, all of them before the offset. */
  ghost predicate OwnBytes(content: string, r: Reader) {
    && |r.spans| == |r.records| && r.offset <= |content|
    && (forall i :: 0 <= i < |r.spans| ==> OwnSpan(content, r, i))
    && (forall i, j :: 0 <= i < j < |r.spans| ==> r.spans[i].1 <= r.spans[j].0)
  }

  ghost predicate OwnSpan(content: string, r: Reader, i: nat)
    requires |r.spans| == |r.records| && r.offset <= |content| && i < |r.spans|
  {
    var (from, to) := r.spans[i];
    from < to <= r.offset && ReadLine(content[from..to]) == Entry(r.records[i])
  }

  lemma EntryIsNotEmpty(line: string)
    requires ReadLine(line).Entry?
    ensures line != []
  {
    BlankLines(line);
  }

  lemma TakeLineKeepsOwnBytes(content: string, r: Reader, to: nat)
    requires OwnBytes(content, r) && r.offset <= to < |content|
    ensures OwnBytes(content, TakeLine(r, content[r.offset..to]).reader)
    ensures TakeLine(r, content[r.offset..to]).reader.offset >= r.offset
  {
    hide ReadLine;
    var t := TakeLine(r, content[r.offset..to]).reader;
    forall i | 0 <= i < |t.spans|
      ensures OwnSpan(content, t, i)
    {
      if i < |r.spans| {
        assert OwnSpan(content, r, i);
      } else {
        EntryIsNotEmpty(content[r.offset..to]);
      }
    }
    forall i, j | 0 <= i < j < |t.spans|
      ensures t.spans[i].1 <= t.spans[j].0
    {
      assert OwnSpan(content, r, i);
    }
  }

  lemma TakeTailKeepsOwnBytes(content: string, r: Reader, to: nat)
    requires OwnBytes(content, r) && r.offset <= to <= |content|
    ensures OwnBytes(content, TakeTail(r, content[r.offset..to]).reader)
    ensures TakeTail(r, content[r.offset..to]).reader.offset >= r.offset
  {
    hide ReadLine;
    var t := TakeTail(r, content[r.offset..to]).reader;
    forall i | 0 <= i < |t.spans|
      ensures OwnSpan(content, t, i)
    {
      if i < |r.spans| {
        assert OwnSpan(content, r, i);
      } else {
        EntryIsNotEmpty(content[r.offset..to]);
      }
    }
    forall i, j | 0 <= i < j < |t.spans|
      ensures t.spans[i].1 <= t.spans[j].0
    {
      assert OwnSpan(content, r, i);
    }
  }

  lemma {:induction false} SplitFirst(s: string)
    ensures |Split(s)[0]| <= |s| && Split(s)[0] == s[..|Split(s)[0]|]
    ensures |Split(s)| > 1 ==> |Split(s)[0]| < |s| && Split(s)[1..] == Split(s[|Split(s)[0]| + 1..])
    ensures |Split(s)| == 1 ==> Split(s)[0] == s
  {
    if s != [] && s[0] != '\n' {
      SplitFirst(s[1..]);
      var k := |Split(s[1..])[0]|;
      assert s == [s[0]] + s[1..] && (|Split(s)| > 1 ==> s[1..][k + 1..] == s[k + 2..]);
    }
  }

  /** Whatever the sink holds, and also when a line of it raises: every refresh takes bytes from the
      offset on, and moves the offset past them. */
  lemma {:induction false} ConsumeKeepsOwnBytes(content: string, r: Reader, n: nat)
    requires OwnBytes(content, r) && r.offset <= n <= |content|
    ensures OwnBytes(content, Consume(r, Split(content[r.offset..n])).reader)
    ensures Consume(r, Split(content[r.offset..n])).reader.offset >= r.offset
    decreases n - r.offset
  {
    hide ReadLine;
    var chunk := content[r.offset..n];
    SplitFirst(chunk);
    var to := r.offset + |Split(chunk)[0]|;
    assert Split(chunk)[0] == content[r.offset..to];
    if |Split(chunk)| == 1 {
      TakeTailKeepsOwnBytes(content, r, to);
    } else {
      TakeLineKeepsOwnBytes(content, r, to);
      var t := TakeLine(r, Split(chunk)[0]);
      if t.error == None {
        assert chunk[|Split(chunk)[0]| + 1..] == content[t.reader.offset..n];
        ConsumeKeepsOwnBytes(content, t.reader, n);
      }
    }
  }

  lemma OwnBytesStay(content: string, r: Reader, more: string)
    requires OwnBytes(content, r) && content <= more
    ensures OwnBytes(more, r)
  {
    hide ReadLine;
    forall i | 0 <= i < |r.spans|
      ensures OwnSpan(more, r, i)
    {
      assert OwnSpan(content, r, i);
      assert more[r.spans[i].0..r.spans[i].1] == content[r.spans[i].0..r.spans[i].1];
    }
  }

  /** One refresh, whatever was there and whether or not it raised. */
  lemma RefreshKeepsOwnBytes(content: string, cursor: Cursor, stat: Stat)
    requires OwnBytes(content, cursor.reader) && stat.size == |content|
    ensures OwnBytes(content, Refreshed(cursor, Some(stat), content).0.reader)
  {
    hide ReadLine, Consume, Split;
    ConsumeKeepsOwnBytes(content, if Replaced(cursor, stat) then Fresh() else cursor.reader, |content|);
  }

  /** However the sink is looked at as it grows, whatever its lines hold, and however many looks raised:
      each record held was read from bytes of its own, in order, none of them read for two records. */
  lemma {:induction false} NoByteTwice(lines: seq<string>, identity: nat, looks: seq<Look>)
    requires Grows(lines, looks)
    ensures OwnBytes(if looks == [] then [] else Join(lines)[..looks[|looks| - 1].n],
      AfterLooks(lines, identity, looks).0.reader)
  {
    hide ReadLine, Join, Refreshed, OwnBytes;
    if looks == [] {
      NothingOwned();
    } else {
      var last := |looks| - 1;
      var look := looks[last];
      var before, content := AfterLooks(lines, identity, looks[..last]).0, Join(lines)[..look.n];
      NoByteTwice(lines, identity, looks[..last]);
      OwnBytesStay(if last == 0 then [] else Join(lines)[..looks[last - 1].n], before.reader, content);
      RefreshKeepsOwnBytes(content, before, Stat(identity, look.n, look.mtime));
    }
  }

  lemma NothingOwned()
    ensures OwnBytes([], Fresh())
  {
  }

  // The adapter

  function Values(records: seq<(Option<string>, Value)>): seq<Value> {
    seq(|records|, i requires 0 <= i < |records| => records[i].1)
  }

  /** The records that carry the tag, in order. */
  function WithTag(records: seq<(Option<string>, Value)>, tag: string): seq<Value> {
    if records == [] then []
    else
      var last := records[|records| - 1];
      WithTag(records[..|records| - 1], tag) + (if last.0 == Some(tag) then [last.1] else [])
  }

  function Lookup(byTag: map<string, seq<Value>>, tag: string): seq<Value> {
    if tag in byTag then byTag[tag] else []
  }

  /** The index holds for each tag the records that carry it, in the order they were read. */
  ghost predicate Indexed(records: seq<(Option<string>, Value)>, byTag: map<string, seq<Value>>) {
    forall tag: string :: Lookup(byTag, tag) == if tag == [] then [] else WithTag(records, tag)
  }

  lemma IndexOneMore(records: seq<(Option<string>, Value)>, byTag: map<string, seq<Value>>, tag: Option<string>,
      record: Value)
    requires Indexed(records, byTag)
    ensures var more := records + [(tag, record)];
      Indexed(more, if tag.Some? && tag.value != [] then byTag[tag.value := Lookup(byTag, tag.value) + [record]] else byTag)
  {
    var more := records + [(tag, record)];
    var now := if tag.Some? && tag.value != [] then byTag[tag.value := Lookup(byTag, tag.value) + [record]] else byTag;
    forall t: string
      ensures Lookup(now, t) == if t == [] then [] else WithTag(more, t)
    {
      assert more[..|more| - 1] == records;
      assert WithTag(more, t) == WithTag(records, t) + (if tag == Some(t) then [record] else []);
      assert Lookup(byTag, t) == if t == [] then [] else WithTag(records, t);
    }
  }

  class MailboxAdapter {
    const tagOf: Value -> Option<string>

    var offset: nat
    var lineNo: nat
    var openLine: bool
    var identity: Option<nat>
    var mtime: Option<int>
    var records: seq<(Option<string>, Value)>
    var byTag: map<string, seq<Value>>
    ghost var spans: seq<(nat, nat)>

    ghost function ReaderNow(): Reader
      reads this
    {
      Reader(offset, lineNo, openLine, Values(records), spans)
    }

    ghost function Now(): Cursor
      reads this
    {
      Cursor(ReaderNow(), identity, mtime)
    }

    ghost predicate Valid()
      reads this`records, this`byTag
    {
      && (forall i :: 0 <= i < |records| ==> records[i].0 == tagOf(records[i].1))
      && Indexed(records, byTag)
    }

    constructor (tagOf: Value -> Option<string>)
      ensures Valid() && this.tagOf == tagOf && Now() == Unread()
    {
      this.tagOf := tagOf;
      offset, lineNo, openLine, identity, mtime := 0, 0, false, None, None;
      records, byTag, spans := [], map[], [];
    }

    method Reset()
      modifies this
      ensures Valid() && Now() == Unread()
    {
      offset, lineNo, openLine, identity, mtime := 0, 0, false, None, None;
      records, byTag, spans := [], map[], [];
    }

    method Keep(record: Value)
      requires Valid()
      modifies this`records, this`byTag
      ensures Valid() && Values(records) == old(Values(records)) + [record]
    {
      var tag := tagOf(record);
      IndexOneMore(records, byTag, tag, record);
      records := records + [(tag, record)];
      if tag.Some? && tag.value != [] {
        byTag := byTag[tag.value := Lookup(byTag, tag.value) + [record]];
      }
    }

    /** One piece of the new text. */
    method TakePiece(line: string, terminated: bool, first: bool) returns (error: Option<Error>)
      requires Valid() && (first || !openLine)
      modifies this
      ensures Valid() && identity == old(identity) && mtime == old(mtime)
      ensures var taken := if terminated then TakeLine(old(ReaderNow()), line) else TakeTail(old(ReaderNow()), line);
        Read(ReaderNow(), error) == taken
      ensures terminated && error.None? ==> !openLine
    {
      hide Valid, Strip, Loads;
      var text := Strip(line);
      var continued := openLine && first;
      if text == [] {
        if terminated {
          offset := offset + |line| + 1;
          if !continued {
            lineNo := lineNo + 1;
          }
          openLine := false;
        }
        return None;
      }
      match Loads(text) {
        case None =>
          return if terminated then Some(NotValidJson(lineNo + 1)) else None;
        case Some(record) =>
          if !record.Object? {
            return Some(NotAnObject(lineNo + 1));
          }
          Keep(record);
          lineNo := lineNo + 1;
          spans := spans + [(offset, offset + |line|)];
          offset := offset + |line| + (if terminated then 1 else 0);
          openLine := !terminated;
          return None;
      }
    }

    /** Takes the new text piece by piece, up to the first piece that is no good. */
    method ConsumeChunk(chunk: string) returns (error: Option<Error>)
      requires Valid()
      modifies this
      ensures Valid() && identity == old(identity) && mtime == old(mtime)
      ensures Read(ReaderNow(), error) == Consume(old(ReaderNow()), Split(chunk))
    {
      hide Valid, ReadLine;
      var lines := Split(chunk);
      error := None;
      var position := 0;
      while position < |lines| - 1
        invariant 0 <= position < |lines| && Valid() && identity == old(identity) && mtime == old(mtime)
        invariant position == 0 || !openLine
        invariant Consume(ReaderNow(), lines[position..]) == Consume(old(ReaderNow()), lines)
      {
        error := TakePiece(lines[position], true, position == 0);
        if error.Some? {
          return;
        }
        assert lines[position..][1..] == lines[position + 1..];
        position := position + 1;
      }
      error := TakePiece(lines[position], false, position == 0);
    }

    /** Reads what the sink has grown by, or all of it again if it is not the same file. */
    method Refresh(stat: Option<Stat>, content: string) returns (error: Option<Error>)
      requires Valid() && (stat.Some? ==> stat.value.size <= |content|)
      modifies this
      ensures Valid() && (Now(), error) == Refreshed(old(Now()), stat, content)
    {
      hide Consume, Valid;
      error := None;
      match stat {
        case None =>
          if offset > 0 {
            Reset();
          }
        case Some(st) =>
          var replaced := identity.Some? && identity != Some(st.identity);
          var shrank := st.size < offset;
          var rewritten := st.size == offset && mtime.Some? && st.mtime != mtime.value && offset > 0;
          if replaced || shrank || rewritten {
            Reset();
          }
          error := ReadNew(st, content);
      }
    }

    method ReadNew(stat: Stat, content: string) returns (error: Option<Error>)
      requires Valid() && offset <= stat.size <= |content|
      modifies this
      ensures Valid() && identity == Some(stat.identity) && mtime == Some(stat.mtime)
      ensures Read(ReaderNow(), error) ==
        if stat.size == old(offset) then Read(old(ReaderNow()), None)
        else Consume(old(ReaderNow()), Split(content[old(offset)..stat.size]))
    {
      identity, mtime := Some(stat.identity), Some(stat.mtime);
      error := None;
      if stat.size != offset {
        error := ConsumeChunk(content[offset..stat.size]);
      }
    }

    /** The records of one tag, after a refresh. */
    method Fetch(tag: string, stat: Option<Stat>, content: string) returns (found: Result<seq<Value>, Error>)
      requires Valid() && tag != [] && (stat.Some? ==> stat.value.size <= |content|)
      modifies this
      ensures Valid() && Now() == Refreshed(old(Now()), stat, content).0
      ensures found == match Refreshed(old(Now()), stat, content).1
        case Some(error) => Err(error)
        case None => Ok(WithTag(records, tag))
    {
      var error := Refresh(stat, content);
      match error {
        case Some(e) => return Err(e);
        case None => return Ok(Lookup(byTag, tag));
      }
    }
  }
}
