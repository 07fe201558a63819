/**
 One line of a mailbox sink: stripped, then parsed. What a line that is still being written can look
 like is the ground on which reading the sink piece by piece stands.
 */
module MailboxLines {
  import opened Wrappers
  import opened Json
  import opened Strings

  datatype Line = Blank | Entry(record: Value) | NotObject | NotJson

  function ReadLine(line: string): Line {
    var text := Strip(line);
    if text == [] then Blank
    else
      match Loads(text)
      case None => NotJson
      case Some(value) => if value.Object? then Entry(value) else NotObject
  }

  lemma BlankLines(s: string)
    ensures ReadLine(s).Blank? <==> AllBlank(s)
  {
    var a, b := StripParts(s);
    if AllBlank(s) {
      assert s == s + [] + [];
      StripOf(s, [], []);
    }
  }

  /** Blanks after a line change nothing. */
  lemma TrailingBlanks(s: string, blanks: string)
    requires AllBlank(blanks)
    ensures ReadLine(s + blanks) == ReadLine(s)
  {
    var a, b := StripParts(s);
    assert s + blanks == a + Strip(s) + (b + blanks);
    StripOf(a, Strip(s), b + blanks);
  }

  // A line being written

  lemma EntryText(core: string)
    requires core != [] && Tight(core) && Loads(core).Some? && Loads(core).value.Object?
    ensures core[0] == '{' && ScanValue(core, 0).Some? && ScanValue(core, 0).value.end == |core|
  {
    assert SkipWs(core, 0) == 0;
    assert !Ws(core[|core| - 1]);
  }

  lemma PartOfEntry(a: string, core: string, m: nat)
    requires AllBlank(a) && core != [] && Tight(core) && Loads(core).Some? && Loads(core).value.Object?
    requires 0 < m < |core|
    ensures ReadLine(a + core[..m]).NotJson?
  {
    var part := core[..m];
    RStripKeepsFirst(part);
    var b := RStripParts(part);
    var k := |RStrip(part)|;
    assert RStrip(part) == part[..k] == core[..k];
    assert a + part == a + core[..k] + b;
    StripOf(a, core[..k], b);
    EntryText(core);
    NoBeginningIsJson(core, k);
  }

  /** What has arrived of a line that will hold one object: nothing yet, or no JSON text, or already
      the whole object with only blanks to come. */
  lemma BeginningOfEntry(line: string, n: nat)
    requires ReadLine(line).Entry? && n <= |line|
    ensures ReadLine(line[..n]).Entry? ==> ReadLine(line[..n]) == ReadLine(line) && AllBlank(line[n..])
    ensures !ReadLine(line[..n]).NotObject?
  {
    var a, b := StripParts(line);
    var core := Strip(line);
    if n <= |a| {
      assert line[..n] == a[..n];
      BlankLines(line[..n]);
    } else if n < |a| + |core| {
      assert line[..n] == a + core[..n - |a|];
      PartOfEntry(a, core, n - |a|);
    } else {
      var m := n - |a| - |core|;
      assert line[..n] == a + core + b[..m] && line[n..] == b[m..];
      StripOf(a, core, b[..m]);
    }
  }
}
