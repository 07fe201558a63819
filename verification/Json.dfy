/**
 Python's `json.loads`, as far as what it accepts and where each value ends (the grammar of RFC 8259,
 with Python's NaN and Infinity). Strings and numbers are kept as they are written. A character stands
 for one byte of the UTF-8 text: bytes above 127 can only occur inside strings.
 */
module Json {
  import opened Wrappers

  datatype Value =
    | Null
    | Bool(value: bool)
    | Number(text: string)
    | Text(raw: string)
    | Array(items: seq<Value>)
    | Object(members: seq<Member>)

  datatype Member = Member(key: string, value: Value)

  /** A value and where it ends. */
  datatype Found<T> = Found(value: T, end: nat)

  predicate Ws(c: char) { c == ' ' || c == '\t' || c == '\n' || c == '\r' }

  predicate Digit(c: char) { '0' <= c <= '9' }

  predicate Hex(c: char) { '0' <= c <= '9' || 'a' <= c <= 'f' || 'A' <= c <= 'F' }

  function SkipWs(s: string, i: nat): (j: nat)
    requires i <= |s|
    ensures i <= j <= |s| && (j < |s| ==> !Ws(s[j])) && (i < j ==> Ws(s[i]) && Ws(s[j - 1]))
    decreases |s| - i
  {
    if i < |s| && Ws(s[i]) then SkipWs(s, i + 1) else i
  }

  /** Characters an escape takes after its backslash, 0 where it is not an escape. */
  function Escape(s: string, i: nat): (n: nat)
    requires i <= |s|
    ensures i + n <= |s|
  {
    if i == |s| then 0
    else if s[i] == '"' || s[i] == '\\' || s[i] == '/' || s[i] == 'b' || s[i] == 'f' || s[i] == 'n' || s[i] == 'r' || s[i] == 't'
    then 1
    else if s[i] == 'u' && i + 5 <= |s| && Hex(s[i + 1]) && Hex(s[i + 2]) && Hex(s[i + 3]) && Hex(s[i + 4]) then 5
    else 0
  }

  /** Where a string that is open at i has closed. */
  function StringEnd(s: string, i: nat): (r: Option<nat>)
    requires i <= |s|
    ensures r.Some? ==> i < r.value <= |s|
    decreases |s| - i
  {
    if i == |s| then None
    else if s[i] == '"' then Some(i + 1)
    else if s[i] == '\\' then
      var n := Escape(s, i + 1);
      if n == 0 then None else StringEnd(s, i + 1 + n)
    else if s[i] < ' ' then None
    else StringEnd(s, i + 1)
  }

  function SkipDigits(s: string, i: nat): (j: nat)
    requires i <= |s|
    ensures i <= j <= |s| && (j < |s| ==> !Digit(s[j]))
    decreases |s| - i
  {
    if i < |s| && Digit(s[i]) then SkipDigits(s, i + 1) else i
  }

  function Fraction(s: string, i: nat): (j: nat)
    requires i <= |s|
    ensures i <= j <= |s|
  {
    if i + 1 < |s| && s[i] == '.' && Digit(s[i + 1]) then SkipDigits(s, i + 1) else i
  }

  function Exponent(s: string, i: nat): (j: nat)
    requires i <= |s|
    ensures i <= j <= |s|
  {
    if i < |s| && (s[i] == 'e' || s[i] == 'E') then
      var d := if i + 1 < |s| && (s[i + 1] == '+' || s[i + 1] == '-') then i + 2 else i + 1;
      if d < |s| && Digit(s[d]) then SkipDigits(s, d) else i
    else i
  }

  function WholeEnd(s: string, d: nat): (j: nat)
    requires d < |s| && Digit(s[d])
    ensures d < j <= |s|
  {
    if s[d] == '0' then d + 1 else SkipDigits(s, d)
  }

  /** The longest number at i; a fraction or an exponent that does not complete is no part of it. */
  function NumberEnd(s: string, i: nat): (r: Option<nat>)
    requires i <= |s|
    ensures r.Some? ==> i < r.value <= |s|
  {
    var d := if i < |s| && s[i] == '-' then i + 1 else i;
    if d == |s| || !Digit(s[d]) then None
    else
      Some(Exponent(s, Fraction(s, WholeEnd(s, d))))
  }

  function Spell(s: string, i: nat, word: string, value: Value): (r: Option<Found<Value>>)
    requires i <= |s| && word != []
    ensures r.Some? ==> i < r.value.end <= |s|
  {
    if i + |word| <= |s| && s[i..i + |word|] == word then Some(Found(value, i + |word|)) else None
  }

  function ScanString(s: string, i: nat): (r: Option<Found<string>>)
    requires i <= |s|
    ensures r.Some? ==> i < r.value.end <= |s|
  {
    if i == |s| || s[i] != '"' then None
    else
      match StringEnd(s, i + 1)
      case None => None
      case Some(end) => Some(Found(s[i..end], end))
  }

  function ScanWord(s: string, i: nat): (r: Option<Found<Value>>)
    requires i <= |s|
    ensures r.Some? ==> i < r.value.end <= |s|
  {
    if i == |s| then None
    else
      match s[i]
      case 'n' => Spell(s, i, "null", Null)
      case 't' => Spell(s, i, "true", Bool(true))
      case 'f' => Spell(s, i, "false", Bool(false))
      case 'N' => Spell(s, i, "NaN", Number("NaN"))
      case 'I' => Spell(s, i, "Infinity", Number("Infinity"))
      case '-' => Spell(s, i, "-Infinity", Number("-Infinity"))
      case _ => None
  }

  function ScanNumber(s: string, i: nat): (r: Option<Found<Value>>)
    requires i <= |s|
    ensures r.Some? ==> i < r.value.end <= |s|
  {
    match NumberEnd(s, i)
    case None => ScanWord(s, i)
    case Some(end) => Some(Found(Number(s[i..end]), end))
  }

  function ScanValue(s: string, i: nat): (r: Option<Found<Value>>)
    requires i <= |s|
    ensures r.Some? ==> i < r.value.end <= |s|
    decreases |s| - i, 0
  {
    if i == |s| then None
    else if s[i] == '"' then
      match ScanString(s, i)
      case None => None
      case Some(found) => Some(Found(Text(found.value), found.end))
    else if s[i] == '{' then ScanObject(s, i)
    else if s[i] == '[' then ScanArray(s, i)
    else ScanNumber(s, i)
  }

  function ScanObject(s: string, i: nat): (r: Option<Found<Value>>)
    requires i < |s| && s[i] == '{'
    ensures r.Some? ==> i < r.value.end <= |s| && r.value.value.Object?
    decreases |s| - i - 1, 3
  {
    var j := SkipWs(s, i + 1);
    if j == |s| then None
    else if s[j] == '}' then Some(Found(Object([]), j + 1))
    else
      match ScanMembers(s, j)
      case None => None
      case Some(found) => Some(Found(Object(found.value), found.end))
  }

  /** A member, and the members after it, up to the closing brace. */
  function ScanMembers(s: string, i: nat): (r: Option<Found<seq<Member>>>)
    requires i <= |s|
    ensures r.Some? ==> i < r.value.end <= |s|
    decreases |s| - i, 2
  {
    match ScanMember(s, i)
    case None => None
    case Some(found) => AfterMember(s, found)
  }

  function AfterMember(s: string, found: Found<Member>): (r: Option<Found<seq<Member>>>)
    requires found.end <= |s|
    ensures r.Some? ==> found.end < r.value.end <= |s|
    decreases |s| - found.end, 3
  {
    var d := SkipWs(s, found.end);
    if d == |s| then None
    else if s[d] == '}' then Some(Found([found.value], d + 1))
    else if s[d] == ',' then
      match ScanMembers(s, SkipWs(s, d + 1))
      case None => None
      case Some(more) => Some(Found([found.value] + more.value, more.end))
    else None
  }

  function ScanMember(s: string, i: nat): (r: Option<Found<Member>>)
    requires i <= |s|
    ensures r.Some? ==> i < r.value.end <= |s|
    decreases |s| - i, 1
  {
    match ScanString(s, i)
    case None => None
    case Some(key) => AfterKey(s, key)
  }

  function AfterKey(s: string, key: Found<string>): (r: Option<Found<Member>>)
    requires key.end <= |s|
    ensures r.Some? ==> key.end < r.value.end <= |s|
    decreases |s| - key.end, 3
  {
    var c := SkipWs(s, key.end);
    if c == |s| || s[c] != ':' then None
    else
      match ScanValue(s, SkipWs(s, c + 1))
      case None => None
      case Some(found) => Some(Found(Member(key.value, found.value), found.end))
  }

  function ScanArray(s: string, i: nat): (r: Option<Found<Value>>)
    requires i < |s| && s[i] == '['
    ensures r.Some? ==> i < r.value.end <= |s| && r.value.value.Array?
    decreases |s| - i - 1, 3
  {
    var j := SkipWs(s, i + 1);
    if j == |s| then None
    else if s[j] == ']' then Some(Found(Array([]), j + 1))
    else
      match ScanItems(s, j)
      case None => None
      case Some(found) => Some(Found(Array(found.value), found.end))
  }

  function ScanItems(s: string, i: nat): (r: Option<Found<seq<Value>>>)
    requires i <= |s|
    ensures r.Some? ==> i < r.value.end <= |s|
    decreases |s| - i, 1
  {
    match ScanValue(s, i)
    case None => None
    case Some(found) => AfterItem(s, found)
  }

  function AfterItem(s: string, found: Found<Value>): (r: Option<Found<seq<Value>>>)
    requires found.end <= |s|
    ensures r.Some? ==> found.end < r.value.end <= |s|
    decreases |s| - found.end, 3
  {
    var d := SkipWs(s, found.end);
    if d == |s| then None
    else if s[d] == ']' then Some(Found([found.value], d + 1))
    else if s[d] == ',' then
      match ScanItems(s, SkipWs(s, d + 1))
      case None => None
      case Some(more) => Some(Found([found.value] + more.value, more.end))
    else None
  }

  /** One value, with blanks around it and nothing else. */
  function Loads(s: string): Option<Value> {
    match ScanValue(s, SkipWs(s, 0))
    case None => None
    case Some(found) => if SkipWs(s, found.end) == |s| then Some(found.value) else None
  }

  // What is found stays found when more text follows

  predicate Closes(c: char) { Ws(c) || c == ',' || c == '}' || c == ']' }

  lemma {:induction false} SkipWsExtends(s: string, more: string, i: nat)
    requires i <= |s| && SkipWs(s, i) < |s|
    ensures SkipWs(s + more, i) == SkipWs(s, i)
    decreases |s| - i
  {
    if Ws(s[i]) {
      SkipWsExtends(s, more, i + 1);
    }
  }

  lemma EscapeExtends(s: string, more: string, i: nat)
    requires i <= |s| && Escape(s, i) > 0
    ensures Escape(s + more, i) == Escape(s, i)
  {
  }

  lemma {:induction false} StringEndExtends(s: string, more: string, i: nat)
    requires i <= |s| && StringEnd(s, i).Some?
    ensures StringEnd(s + more, i) == StringEnd(s, i)
    decreases |s| - i
  {
    if s[i] == '"' {
    } else if s[i] == '\\' {
      EscapeExtends(s, more, i + 1);
      StringEndExtends(s, more, i + 1 + Escape(s, i + 1));
    } else {
      StringEndExtends(s, more, i + 1);
    }
  }

  lemma ScanStringExtends(s: string, more: string, i: nat)
    requires i <= |s| && ScanString(s, i).Some?
    ensures ScanString(s + more, i) == ScanString(s, i)
  {
    StringEndExtends(s, more, i + 1);
    var end := ScanString(s, i).value.end;
    assert (s + more)[i..end] == s[i..end];
  }

  lemma {:induction false} SkipDigitsExtends(s: string, more: string, i: nat)
    requires i <= |s| && SkipDigits(s, i) < |s|
    ensures SkipDigits(s + more, i) == SkipDigits(s, i)
    decreases |s| - i
  {
    if Digit(s[i]) {
      SkipDigitsExtends(s, more, i + 1);
    }
  }

  lemma FractionExtends(s: string, more: string, i: nat)
    requires i <= |s| && Fraction(s, i) < |s| && (Fraction(s, i) == i ==> s[i] != '.')
    ensures Fraction(s + more, i) == Fraction(s, i)
  {
    if Fraction(s, i) > i {
      SkipDigitsExtends(s, more, i + 1);
    }
  }

  lemma ExponentExtends(s: string, more: string, i: nat)
    requires i <= |s| && Exponent(s, i) < |s| && Closes(s[Exponent(s, i)])
    ensures Exponent(s + more, i) == Exponent(s, i)
  {
    if s[i] == 'e' || s[i] == 'E' {
      SkipDigitsExtends(s, more, if s[i + 1] == '+' || s[i + 1] == '-' then i + 2 else i + 1);
    }
  }

  lemma WholeEndExtends(s: string, more: string, d: nat)
    requires d < |s| && Digit(s[d]) && WholeEnd(s, d) < |s|
    ensures WholeEnd(s + more, d) == WholeEnd(s, d)
  {
    if s[d] != '0' {
      SkipDigitsExtends(s, more, d);
    }
  }

  lemma NumberEndExtends(s: string, more: string, i: nat)
    requires i <= |s| && NumberEnd(s, i).Some? && NumberEnd(s, i).value < |s| && Closes(s[NumberEnd(s, i).value])
    ensures NumberEnd(s + more, i) == NumberEnd(s, i)
  {
    var d := if s[i] == '-' then i + 1 else i;
    var whole := WholeEnd(s, d);
    WholeEndExtends(s, more, d);
    var part := Fraction(s, whole);
    ExponentExtends(s, more, part);
    FractionExtends(s, more, whole);
  }

  lemma SpellExtends(s: string, more: string, i: nat, word: string, value: Value)
    requires i <= |s| && word != [] && Spell(s, i, word, value).Some?
    ensures Spell(s + more, i, word, value) == Spell(s, i, word, value)
    ensures |word| > 1 ==> i + 1 < |s| && s[i + 1] == word[1]
  {
    assert (s + more)[i..i + |word|] == s[i..i + |word|];
    assert |word| > 1 ==> s[i..i + |word|][1] == s[i + 1];
  }

  /** No word is a number's beginning, so more text turns no word into a number. */
  lemma ScanWordExtends(s: string, more: string, i: nat)
    requires i <= |s| && ScanWord(s, i).Some?
    ensures NumberEnd(s + more, i).None? && ScanWord(s + more, i) == ScanWord(s, i)
  {
    match s[i] {
      case 'n' => SpellExtends(s, more, i, "null", Null);
      case 't' => SpellExtends(s, more, i, "true", Bool(true));
      case 'f' => SpellExtends(s, more, i, "false", Bool(false));
      case 'N' => SpellExtends(s, more, i, "NaN", Number("NaN"));
      case 'I' => SpellExtends(s, more, i, "Infinity", Number("Infinity"));
      case '-' => SpellExtends(s, more, i, "-Infinity", Number("-Infinity"));
      case _ =>
    }
  }

  ghost predicate Settled(s: string, found: Found<Value>)
    requires found.end <= |s|
  {
    found.value.Number? ==> found.end < |s| && Closes(s[found.end])
  }

  /** A value that cannot grow — anything but a number, or a number with something that ends it — is
      the same value in any longer text. */
  lemma {:induction false} ScanValueExtends(s: string, more: string, i: nat)
    requires i <= |s| && ScanValue(s, i).Some? && Settled(s, ScanValue(s, i).value)
    ensures ScanValue(s + more, i) == ScanValue(s, i)
    decreases |s| - i, 0
  {
    if s[i] == '"' {
      ScanStringExtends(s, more, i);
    } else if s[i] == '{' {
      ScanObjectExtends(s, more, i);
    } else if s[i] == '[' {
      ScanArrayExtends(s, more, i);
    } else if NumberEnd(s, i).Some? {
      NumberEndExtends(s, more, i);
      var end := NumberEnd(s, i).value;
      assert (s + more)[i..end] == s[i..end];
    } else {
      ScanWordExtends(s, more, i);
    }
  }

  lemma {:induction false} ScanObjectExtends(s: string, more: string, i: nat)
    requires i < |s| && s[i] == '{' && ScanObject(s, i).Some?
    ensures ScanObject(s + more, i) == ScanObject(s, i)
    decreases |s| - i - 1, 3
  {
    SkipWsExtends(s, more, i + 1);
    var j := SkipWs(s, i + 1);
    if s[j] != '}' {
      ScanMembersExtends(s, more, j);
    }
  }

  lemma ClosesAt(s: string, i: nat)
    requires i <= |s| && SkipWs(s, i) < |s| && Closes(s[SkipWs(s, i)])
    ensures i < |s| && Closes(s[i])
  {
  }

  lemma {:induction false} ScanMembersExtends(s: string, more: string, i: nat)
    requires i <= |s| && ScanMembers(s, i).Some?
    ensures ScanMembers(s + more, i) == ScanMembers(s, i)
    decreases |s| - i, 2
  {
    var found := ScanMember(s, i).value;
    ClosesAt(s, found.end);
    ScanMemberExtends(s, more, i);
    AfterMemberExtends(s, more, found);
  }

  lemma {:induction false} AfterMemberExtends(s: string, more: string, found: Found<Member>)
    requires found.end <= |s| && AfterMember(s, found).Some?
    ensures AfterMember(s + more, found) == AfterMember(s, found)
    decreases |s| - found.end, 3
  {
    var d := SkipWs(s, found.end);
    SkipWsExtends(s, more, found.end);
    if s[d] == ',' {
      SkipWsExtends(s, more, d + 1);
      ScanMembersExtends(s, more, SkipWs(s, d + 1));
    }
  }

  lemma {:induction false} ScanMemberExtends(s: string, more: string, i: nat)
    requires i <= |s| && ScanMember(s, i).Some?
    requires ScanMember(s, i).value.end < |s| && Closes(s[ScanMember(s, i).value.end])
    ensures ScanMember(s + more, i) == ScanMember(s, i)
    decreases |s| - i, 1
  {
    ScanStringExtends(s, more, i);
    AfterKeyExtends(s, more, ScanString(s, i).value);
  }

  lemma {:induction false} AfterKeyExtends(s: string, more: string, key: Found<string>)
    requires key.end <= |s| && AfterKey(s, key).Some?
    requires AfterKey(s, key).value.end < |s| && Closes(s[AfterKey(s, key).value.end])
    ensures AfterKey(s + more, key) == AfterKey(s, key)
    decreases |s| - key.end, 3
  {
    var c := SkipWs(s, key.end);
    SkipWsExtends(s, more, key.end);
    SkipWsExtends(s, more, c + 1);
    ScanValueExtends(s, more, SkipWs(s, c + 1));
  }

  lemma {:induction false} ScanArrayExtends(s: string, more: string, i: nat)
    requires i < |s| && s[i] == '[' && ScanArray(s, i).Some?
    ensures ScanArray(s + more, i) == ScanArray(s, i)
    decreases |s| - i - 1, 3
  {
    SkipWsExtends(s, more, i + 1);
    var j := SkipWs(s, i + 1);
    if s[j] != ']' {
      ScanItemsExtends(s, more, j);
    }
  }

  lemma {:induction false} ScanItemsExtends(s: string, more: string, i: nat)
    requires i <= |s| && ScanItems(s, i).Some?
    ensures ScanItems(s + more, i) == ScanItems(s, i)
    decreases |s| - i, 1
  {
    var found := ScanValue(s, i).value;
    ClosesAt(s, found.end);
    ScanValueExtends(s, more, i);
    AfterItemExtends(s, more, found);
  }

  lemma {:induction false} AfterItemExtends(s: string, more: string, found: Found<Value>)
    requires found.end <= |s| && AfterItem(s, found).Some?
    ensures AfterItem(s + more, found) == AfterItem(s, found)
    decreases |s| - found.end, 3
  {
    var d := SkipWs(s, found.end);
    SkipWsExtends(s, more, found.end);
    if s[d] == ',' {
      SkipWsExtends(s, more, d + 1);
      ScanItemsExtends(s, more, SkipWs(s, d + 1));
    }
  }

  /** No strict beginning of an object that ends where its text ends is a JSON text at all. */
  lemma NoBeginningIsJson(s: string, n: nat)
    requires n < |s| && s[0] == '{' && ScanValue(s, 0).Some? && ScanValue(s, 0).value.end == |s|
    ensures Loads(s[..n]) == None
  {
    var part := s[..n];
    assert part + s[n..] == s;
    if Loads(part).Some? {
      assert part[0] == '{';
      ScanObjectExtends(part, s[n..], 0);
    }
  }
}
