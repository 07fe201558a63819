/**
 The grammar of RFC 8259, with Python's NaN and Infinity, said of stretches of text: and the scanner accepts
 exactly what the grammar spells.
 */
module JsonGrammar {
  import opened Wrappers
  import opened Json

  // Section 7 of RFC 8259: strings

  ghost predicate IsHex(t: string) {
    forall i :: 0 <= i < |t| ==> '0' <= t[i] <= '9' || 'a' <= t[i] <= 'f' || 'A' <= t[i] <= 'F'
  }

  /** Characters between quotes: none below a blank, no bare quote, and backslashes only in an escape. */
  ghost predicate Chars(t: string) {
    || t == []
    || (t[0] != '"' && t[0] != '\\' && t[0] >= ' ' && Chars(t[1..]))
    || (|t| >= 2 && t[0] == '\\' && t[1] in "\"\\/bfnrt" && Chars(t[2..]))
    || (|t| >= 6 && t[0] == '\\' && t[1] == 'u' && IsHex(t[2..6]) && Chars(t[6..]))
  }

  ghost predicate IsString(t: string) {
    |t| >= 2 && t[0] == '"' && t[|t| - 1] == '"' && Chars(t[1..|t| - 1])
  }

  // Section 6 of RFC 8259: numbers

  ghost predicate Digits(t: string) {
    t != [] && forall i :: 0 <= i < |t| ==> '0' <= t[i] <= '9'
  }

  ghost predicate IsWhole(t: string) {
    Digits(t) && (t[0] == '0' ==> |t| == 1)
  }

  ghost predicate IsFraction(t: string) {
    t == [] || (t[0] == '.' && Digits(t[1..]))
  }

  ghost predicate IsExponent(t: string) {
    t == [] || ((t[0] == 'e' || t[0] == 'E')
                && (Digits(t[1..]) || (|t| > 1 && (t[1] == '+' || t[1] == '-') && Digits(t[2..]))))
  }

  /** An optional sign, the whole part, and what may follow it, up to these places. */
  ghost predicate NumberParts(t: string, whole: nat, fraction: nat, exponent: nat) {
    && whole <= fraction <= exponent <= |t|
    && (t[..whole] == [] || t[..whole] == "-")
    && IsWhole(t[whole..fraction]) && IsFraction(t[fraction..exponent]) && IsExponent(t[exponent..])
  }

  ghost predicate IsNumber(t: string) {
    exists whole, fraction, exponent :: NumberParts(t, whole, fraction, exponent)
  }

  // Sections 2 to 5: blanks, values, objects, arrays

  ghost predicate Blanks(s: string, i: nat, j: nat) {
    i <= j <= |s| && forall k :: i <= k < j ==> s[k] == ' ' || s[k] == '\t' || s[k] == '\n' || s[k] == '\r'
  }

  /** The text from i up to e is one value, written as v keeps it. */
  ghost predicate Spells(s: string, i: nat, e: nat, v: Value)
    decreases e - i, 0
  {
    i < e <= |s| &&
    match v
    case Null => s[i..e] == "null"
    case Bool(b) => s[i..e] == if b then "true" else "false"
    case Number(text) => s[i..e] == text && (IsNumber(text) || text in ["NaN", "Infinity", "-Infinity"])
    case Text(raw) => s[i..e] == raw && IsString(raw)
    case Array(items) =>
      && s[i] == '[' && i + 1 < e && s[e - 1] == ']'
      && (if items == [] then Blanks(s, i + 1, e - 1)
          else exists a, b :: i < a <= b < e && Blanks(s, i + 1, a) && Blanks(s, b, e - 1) && SpellsItems(s, a, b, items))
    case Object(members) =>
      && s[i] == '{' && i + 1 < e && s[e - 1] == '}'
      && (if members == [] then Blanks(s, i + 1, e - 1)
          else exists a, b :: i < a <= b < e && Blanks(s, i + 1, a) && Blanks(s, b, e - 1) && SpellsMembers(s, a, b, members))
  }

  /** The text from c up to d is one separator with blanks around it. */
  ghost predicate Separates(s: string, c: nat, d: nat, separator: char) {
    exists k :: c <= k < d && Blanks(s, c, k) && k < |s| && s[k] == separator && Blanks(s, k + 1, d)
  }

  ghost predicate SpellsItems(s: string, i: nat, e: nat, items: seq<Value>)
    requires items != []
    decreases if i <= e then e - i else 0, 1
  {
    if |items| == 1 then Spells(s, i, e, items[0])
    else
      exists c, d :: i < c < d < e && Spells(s, i, c, items[0]) && Separates(s, c, d, ',') && SpellsItems(s, d, e, items[1..])
  }

  ghost predicate SpellsMember(s: string, i: nat, e: nat, m: Member)
    decreases if i <= e then e - i else 0, 1
  {
    exists c, d :: i < c < d < e <= |s| && s[i..c] == m.key && IsString(m.key)
      && Separates(s, c, d, ':') && Spells(s, d, e, m.value)
  }

  ghost predicate SpellsMembers(s: string, i: nat, e: nat, members: seq<Member>)
    requires members != []
    decreases if i <= e then e - i else 0, 2
  {
    if |members| == 1 then SpellsMember(s, i, e, members[0])
    else
      exists c, d :: i < c < d < e && SpellsMember(s, i, c, members[0]) && Separates(s, c, d, ',')
        && SpellsMembers(s, d, e, members[1..])
  }

  // The scanner finds what the grammar spells, and nothing else

  lemma Part(s: string, i: nat, e: nat, a: nat, b: nat)
    requires i <= e <= |s| && a <= b <= e - i
    ensures s[i..e][a..b] == s[i + a..i + b]
  {
    assert forall k :: 0 <= k < b - a ==> s[i..e][a..b][k] == s[i + a..i + b][k];
  }

  lemma {:induction false} BlanksAreSkipped(s: string, i: nat, j: nat)
    requires i <= |s|
    ensures SkipWs(s, i) == j <==> Blanks(s, i, j) && (j == |s| || !Ws(s[j]))
    decreases |s| - i
  {
    if i < |s| && Ws(s[i]) {
      BlanksAreSkipped(s, i + 1, j);
    }
  }

  // Strings

  lemma {:induction false} ClosedStringIsSpelt(s: string, i: nat)
    requires i <= |s| && StringEnd(s, i).Some?
    ensures var e := StringEnd(s, i).value; s[e - 1] == '"' && Chars(s[i..e - 1])
    decreases |s| - i
  {
    var e := StringEnd(s, i).value;
    if s[i] == '"' {
      assert s[i..e - 1] == [];
    } else if s[i] == '\\' {
      var n := Escape(s, i + 1);
      ClosedStringIsSpelt(s, i + 1 + n);
      EscapeIsSpelt(s, i, e - 1);
    } else {
      ClosedStringIsSpelt(s, i + 1);
      assert s[i..e - 1][1..] == s[i + 1..e - 1];
    }
  }

  lemma EscapeIsSpelt(s: string, i: nat, e: nat)
    requires i < e <= |s| && s[i] == '\\' && Escape(s, i + 1) > 0 && i + 1 + Escape(s, i + 1) <= e
    requires Chars(s[i + 1 + Escape(s, i + 1)..e])
    ensures Chars(s[i..e])
  {
    var t := s[i..e];
    if Escape(s, i + 1) == 1 {
      assert t[2..] == s[i + 2..e] && t[1] == s[i + 1];
      assert t[1] in "\"\\/bfnrt";
    } else {
      Part(s, i, e, 2, 6);
      assert t[6..] == s[i + 6..e] && t[1] == s[i + 1] == 'u';
      assert IsHex(t[2..6]);
    }
  }

  lemma {:induction false} SpeltStringCloses(s: string, i: nat, e: nat)
    requires i <= e < |s| && s[e] == '"' && Chars(s[i..e])
    ensures StringEnd(s, i) == Some(e + 1)
    decreases e - i
  {
    var t := s[i..e];
    if t != [] {
      if t[0] != '\\' {
        assert t[1..] == s[i + 1..e];
        SpeltStringCloses(s, i + 1, e);
      } else if |t| >= 2 && t[1] in "\"\\/bfnrt" && Chars(t[2..]) {
        assert t[2..] == s[i + 2..e] && t[1] == s[i + 1];
        assert Escape(s, i + 1) == 1;
        SpeltStringCloses(s, i + 2, e);
      } else {
        Part(s, i, e, 2, 6);
        Part(s, i, e, 6, |t|);
        assert t[6..|t|] == t[6..];
        assert t[1] == s[i + 1] == 'u';
        HexEscape(s, i + 1);
        SpeltStringCloses(s, i + 6, e);
      }
    }
  }

  lemma HexEscape(s: string, i: nat)
    requires i + 5 <= |s| && s[i] == 'u' && IsHex(s[i + 1..i + 5])
    ensures Escape(s, i) == 5
  {
    var t := s[i + 1..i + 5];
    assert t[0] == s[i + 1] && t[1] == s[i + 2] && t[2] == s[i + 3] && t[3] == s[i + 4];
  }

  lemma ScanStringIff(s: string, i: nat, t: string, e: nat)
    requires i <= |s|
    ensures ScanString(s, i) == Some(Found(t, e)) <==> i < e <= |s| && t == s[i..e] && IsString(t)
  {
    if ScanString(s, i).Some? {
      ClosedStringIsSpelt(s, i + 1);
      var end := StringEnd(s, i + 1).value;
      Part(s, i, end, 1, end - i - 1);
    }
    if i < e <= |s| && t == s[i..e] && IsString(t) {
      Part(s, i, e, 1, |t| - 1);
      assert s[e - 1] == t[|t| - 1];
      SpeltStringCloses(s, i + 1, e - 1);
    }
  }

  // Numbers

  lemma {:induction false} SkipDigitsIs(s: string, i: nat, j: nat)
    requires i <= |s|
    ensures i <= SkipDigits(s, i) && forall k :: i <= k < SkipDigits(s, i) ==> '0' <= s[k] <= '9'
    ensures i <= j <= |s| && (forall k :: i <= k < j ==> '0' <= s[k] <= '9') && (j == |s| || !Digit(s[j])) ==>
      SkipDigits(s, i) == j
    decreases |s| - i
  {
    if i < |s| {
      if Digit(s[i]) {
        SkipDigitsIs(s, i + 1, j);
      }
    }
  }

  lemma DigitsAt(s: string, i: nat, j: nat)
    requires i <= j <= |s|
    ensures Digits(s[i..j]) <==> i < j && forall k :: i <= k < j ==> '0' <= s[k] <= '9'
  {
    var t := s[i..j];
    assert forall k :: 0 <= k < |t| ==> t[k] == s[i + k];
    assert forall k :: i <= k < j ==> s[k] == t[k - i];
  }

  lemma WholeIs(s: string, d: nat, e: nat)
    requires d < |s| && Digit(s[d])
    ensures IsWhole(s[d..WholeEnd(s, d)])
    ensures d < e <= |s| && IsWhole(s[d..e]) && (e == |s| || !Digit(s[e])) ==> WholeEnd(s, d) == e
  {
    SkipDigitsIs(s, d, e);
    DigitsAt(s, d, WholeEnd(s, d));
    assert s[d..WholeEnd(s, d)][0] == s[d];
    if d < e <= |s| {
      DigitsAt(s, d, e);
      assert s[d..e][0] == s[d];
    }
  }

  lemma FractionIs(s: string, i: nat, e: nat)
    requires i <= |s|
    ensures IsFraction(s[i..Fraction(s, i)])
    ensures i <= e <= |s| && IsFraction(s[i..e]) && (e == |s| || (!Digit(s[e]) && s[e] != '.')) ==> Fraction(s, i) == e
  {
    if Fraction(s, i) > i {
      SkipDigitsIs(s, i + 1, e);
      DigitsAt(s, i + 1, Fraction(s, i));
      assert s[i..Fraction(s, i)][1..] == s[i + 1..Fraction(s, i)];
    }
    if i < e <= |s| && IsFraction(s[i..e]) {
      assert s[i..e][1..] == s[i + 1..e];
      DigitsAt(s, i + 1, e);
      SkipDigitsIs(s, i + 1, e);
    }
  }

  lemma ExponentIs(s: string, i: nat, e: nat)
    requires i <= |s|
    ensures IsExponent(s[i..Exponent(s, i)])
    ensures i <= e <= |s| && IsExponent(s[i..e]) && (e == |s| || Closes(s[e])) ==> Exponent(s, i) == e
  {
    var j := Exponent(s, i);
    if j > i {
      var d := if s[i + 1] == '+' || s[i + 1] == '-' then i + 2 else i + 1;
      SkipDigitsIs(s, d, e);
      DigitsAt(s, d, j);
      assert s[i..j][d - i..] == s[d..j];
    }
    if i < e <= |s| && IsExponent(s[i..e]) && (e == |s| || Closes(s[e])) {
      SpeltExponent(s, i, e);
    }
  }

  lemma SpeltExponent(s: string, i: nat, e: nat)
    requires i < e <= |s| && IsExponent(s[i..e]) && (e == |s| || Closes(s[e]))
    ensures Exponent(s, i) == e
  {
    var t := s[i..e];
    assert t[1..] == s[i + 1..e];
    DigitsAt(s, i + 1, e);
    var d := if i + 1 < |s| && (s[i + 1] == '+' || s[i + 1] == '-') then i + 2 else i + 1;
    if Digits(t[1..]) {
    } else {
      assert t[2..] == s[i + 2..e];
    }
    DigitsAt(s, d, e);
    SkipDigitsIs(s, d, e);
  }

  lemma NumberIsSpelt(s: string, i: nat)
    requires i <= |s| && NumberEnd(s, i).Some?
    ensures IsNumber(s[i..NumberEnd(s, i).value])
  {
    hide Fraction, Exponent, WholeEnd, IsWhole, IsFraction, IsExponent;
    var e := NumberEnd(s, i).value;
    var d := if s[i] == '-' then i + 1 else i;
    var w := WholeEnd(s, d);
    var f := Fraction(s, w);
    WholeIs(s, d, w);
    FractionIs(s, w, f);
    ExponentIs(s, f, e);
    var t := s[i..e];
    Part(s, i, e, d - i, w - i);
    Part(s, i, e, w - i, f - i);
    Part(s, i, e, f - i, e - i);
    Part(s, i, e, 0, d - i);
    assert t[..d - i] == t[0..d - i] && t[f - i..] == t[f - i..e - i];
    assert NumberParts(t, d - i, w - i, f - i);
  }

  lemma SpeltNumberIsFound(s: string, i: nat, e: nat)
    requires i <= e <= |s| && IsNumber(s[i..e]) && (e == |s| || Closes(s[e]))
    ensures NumberEnd(s, i) == Some(e)
  {
    hide Fraction, Exponent, WholeEnd, IsWhole, IsFraction, IsExponent;
    var t := s[i..e];
    var whole: nat, fraction: nat, exponent: nat :| NumberParts(t, whole, fraction, exponent);
    var d, w, f := i + whole, i + fraction, i + exponent;
    Part(s, i, e, whole, fraction);
    Part(s, i, e, fraction, exponent);
    Part(s, i, e, exponent, e - i);
    Part(s, i, e, 0, whole);
    assert t[exponent..] == t[exponent..e - i] && t[..whole] == t[0..whole];
    FirstOfNumber(s, i, d, w);
    ExponentIs(s, f, e);
    EndsFraction(s, f, e);
    FractionIs(s, w, f);
    EndsWhole(s, w, f, e);
    WholeIs(s, d, w);
  }

  /** What follows the fraction is the exponent, or closes the number. */
  lemma EndsFraction(s: string, f: nat, e: nat)
    requires f <= e <= |s| && IsExponent(s[f..e]) && (e == |s| || Closes(s[e]))
    ensures f == |s| || (!Digit(s[f]) && s[f] != '.')
  {
    assert f < e ==> s[f..e][0] == s[f];
  }

  lemma EndsWhole(s: string, w: nat, f: nat, e: nat)
    requires w <= f <= e <= |s| && IsFraction(s[w..f]) && (f == |s| || (!Digit(s[f]) && s[f] != '.'))
    ensures w == |s| || !Digit(s[w])
  {
    assert w < f ==> s[w..f][0] == s[w];
  }

  lemma FirstOfNumber(s: string, i: nat, d: nat, w: nat)
    requires i <= d <= w <= |s| && IsWhole(s[d..w]) && (s[i..d] == [] || s[i..d] == "-")
    ensures d < w && Digit(s[d]) && d == if s[i] == '-' then i + 1 else i
  {
    assert s[d..w][0] == s[d];
    assert i < d ==> s[i..d][0] == s[i];
    assert s[i..d] == "-" ==> |s[i..d]| == 1;
  }

  /** Numbers, with the words that Python takes for numbers. */
  lemma ScanNumberSays(s: string, i: nat)
    requires i < |s| && ScanNumber(s, i).Some?
    ensures var found := ScanNumber(s, i).value; Spells(s, i, found.end, found.value)
    ensures s[i] != '"' && s[i] != '{' && s[i] != '['
  {
    if NumberEnd(s, i).Some? {
      NumberIsSpelt(s, i);
    }
  }

  lemma SpeltWordIsFound(s: string, i: nat, e: nat, v: Value)
    requires i < e <= |s| && Spells(s, i, e, v)
    requires v.Null? || v.Bool? || (v.Number? && !IsNumber(v.text))
    ensures ScanNumber(s, i) == Some(Found(v, e))
  {
    var t := s[i..e];
    assert t[0] == s[i];
    if t == "-Infinity" {
      assert t[1] == s[i + 1] == 'I';
    }
  }

  lemma SpeltNumberIsScanned(s: string, i: nat, e: nat, v: Value)
    requires i < e <= |s| && Spells(s, i, e, v) && v.Number? && IsNumber(v.text) && (e == |s| || Closes(s[e]))
    ensures ScanNumber(s, i) == Some(Found(v, e))
  {
    SpeltNumberIsFound(s, i, e);
  }

  // Values

  lemma SeparatorSays(s: string, c: nat, separator: char)
    requires c <= |s| && SkipWs(s, c) < |s| && s[SkipWs(s, c)] == separator
    ensures Separates(s, c, SkipWs(s, SkipWs(s, c) + 1), separator) && c < SkipWs(s, SkipWs(s, c) + 1)
  {
    hide SkipWs, Blanks;
    var k := SkipWs(s, c);
    BlanksAreSkipped(s, c, k);
    BlanksAreSkipped(s, k + 1, SkipWs(s, k + 1));
  }

  /** What is found is spelt. */
  lemma {:induction false} FoundIsSpelt(s: string, i: nat)
    requires i <= |s| && ScanValue(s, i).Some?
    ensures var found := ScanValue(s, i).value; Spells(s, i, found.end, found.value)
    decreases |s| - i, 0
  {
    var found := ScanValue(s, i).value;
    if s[i] == '"' {
      ScanStringIff(s, i, ScanString(s, i).value.value, found.end);
    } else if s[i] == '{' {
      FoundObjectIsSpelt(s, i);
    } else if s[i] == '[' {
      FoundArrayIsSpelt(s, i);
    } else {
      ScanNumberSays(s, i);
    }
  }

  lemma {:induction false} FoundArrayIsSpelt(s: string, i: nat)
    requires i < |s| && s[i] == '[' && ScanArray(s, i).Some?
    ensures var found := ScanArray(s, i).value; Spells(s, i, found.end, found.value)
    decreases |s| - i - 1, 3
  {
    hide SkipWs, Blanks, ScanItems, SpellsItems;
    var j := SkipWs(s, i + 1);
    BlanksAreSkipped(s, i + 1, j);
    if s[j] != ']' {
      var b := FoundItemsAreSpelt(s, j);
    }
  }

  lemma {:induction false} FoundItemsAreSpelt(s: string, i: nat) returns (b: nat)
    requires i <= |s| && ScanItems(s, i).Some?
    ensures var found := ScanItems(s, i).value;
      && i < b < found.end && s[found.end - 1] == ']' && Blanks(s, b, found.end - 1)
      && found.value != [] && SpellsItems(s, i, b, found.value)
    decreases |s| - i, 1
  {
    hide ScanValue, SkipWs, Spells, Blanks, Separates;
    var first := ScanValue(s, i).value;
    var d := SkipWs(s, first.end);
    FoundIsSpelt(s, i);
    if s[d] == ']' {
      BlanksAreSkipped(s, first.end, d);
      b := first.end;
    } else {
      SeparatorSays(s, first.end, ',');
      b := FoundItemsAreSpelt(s, SkipWs(s, d + 1));
      var more := ScanItems(s, SkipWs(s, d + 1)).value;
      assert ([first.value] + more.value)[1..] == more.value;
    }
  }

  lemma {:induction false} FoundObjectIsSpelt(s: string, i: nat)
    requires i < |s| && s[i] == '{' && ScanObject(s, i).Some?
    ensures var found := ScanObject(s, i).value; Spells(s, i, found.end, found.value)
    decreases |s| - i - 1, 3
  {
    hide SkipWs, Blanks, ScanMembers, SpellsMembers;
    var j := SkipWs(s, i + 1);
    BlanksAreSkipped(s, i + 1, j);
    if s[j] != '}' {
      var b := FoundMembersAreSpelt(s, j);
    }
  }

  lemma {:induction false} FoundMembersAreSpelt(s: string, i: nat) returns (b: nat)
    requires i <= |s| && ScanMembers(s, i).Some?
    ensures var found := ScanMembers(s, i).value;
      && i < b < found.end && s[found.end - 1] == '}' && Blanks(s, b, found.end - 1)
      && found.value != [] && SpellsMembers(s, i, b, found.value)
    decreases |s| - i, 2
  {
    hide ScanMember, SkipWs, SpellsMember, Blanks, Separates;
    var first := ScanMember(s, i).value;
    var d := SkipWs(s, first.end);
    FoundMemberIsSpelt(s, i);
    if s[d] == '}' {
      BlanksAreSkipped(s, first.end, d);
      b := first.end;
    } else {
      SeparatorSays(s, first.end, ',');
      b := FoundMembersAreSpelt(s, SkipWs(s, d + 1));
      var more := ScanMembers(s, SkipWs(s, d + 1)).value;
      assert ([first.value] + more.value)[1..] == more.value;
    }
  }

  lemma {:induction false} FoundMemberIsSpelt(s: string, i: nat)
    requires i <= |s| && ScanMember(s, i).Some?
    ensures var found := ScanMember(s, i).value; SpellsMember(s, i, found.end, found.value)
    decreases |s| - i, 1
  {
    hide ScanString, SkipWs, ScanValue, Spells, Separates, IsString;
    var key := ScanString(s, i).value;
    ScanStringIff(s, i, key.value, key.end);
    SeparatorSays(s, key.end, ':');
    FoundIsSpelt(s, SkipWs(s, SkipWs(s, key.end) + 1));
  }

  /** A value starts with something that is neither a blank nor a separator nor a closing bracket. */
  lemma StartOfValue(s: string, i: nat, e: nat, v: Value)
    requires Spells(s, i, e, v)
    ensures i < |s| && !Ws(s[i]) && !Closes(s[i])
    ensures s[i] == '"' <==> v.Text?
    ensures s[i] == '[' <==> v.Array?
    ensures s[i] == '{' <==> v.Object?
  {
    assert s[i..e][0] == s[i];
    if v.Number? && IsNumber(v.text) {
      StartOfNumber(v.text);
    }
  }

  lemma StartOfNumber(t: string)
    requires IsNumber(t)
    ensures t != [] && (t[0] == '-' || Digit(t[0]))
  {
    var whole: nat, fraction: nat, exponent: nat :| NumberParts(t, whole, fraction, exponent);
    if whole == 0 {
      assert t[0..fraction][0] == t[0];
    } else {
      assert t[..whole][0] == t[0];
    }
  }

  lemma StartOfItems(s: string, i: nat, e: nat, items: seq<Value>)
    requires items != [] && SpellsItems(s, i, e, items)
    ensures i < e <= |s| && !Ws(s[i]) && !Closes(s[i])
  {
    hide Spells;
    if |items| == 1 {
      SpeltIsInside(s, i, e, items[0]);
      StartOfValue(s, i, e, items[0]);
    } else {
      var c: nat, d: nat :| i < c < d < e && Spells(s, i, c, items[0])
        && Separates(s, c, d, ',') && SpellsItems(s, d, e, items[1..]);
      StartOfValue(s, i, c, items[0]);
      ItemsAreInside(s, d, e, items[1..]);
    }
  }

  lemma SpeltIsInside(s: string, i: nat, e: nat, v: Value)
    requires Spells(s, i, e, v)
    ensures i < e <= |s|
  {
  }

  lemma {:induction false} ItemsAreInside(s: string, i: nat, e: nat, items: seq<Value>)
    requires items != [] && SpellsItems(s, i, e, items)
    ensures i < e <= |s|
    decreases |items|
  {
    hide Spells;
    if |items| == 1 {
      SpeltIsInside(s, i, e, items[0]);
    } else {
      var c: nat, d: nat :| i < c < d < e && Spells(s, i, c, items[0])
        && Separates(s, c, d, ',') && SpellsItems(s, d, e, items[1..]);
      ItemsAreInside(s, d, e, items[1..]);
    }
  }

  /** After a value come blanks and then a separator. */
  lemma SeparatorIsFound(s: string, c: nat, d: nat, separator: char)
    requires Separates(s, c, d, separator) && !Ws(separator) && d < |s| && !Ws(s[d])
    ensures c < |s| && (Closes(separator) ==> Closes(s[c]))
    ensures var k := SkipWs(s, c); k < |s| && s[k] == separator && SkipWs(s, k + 1) == d
  {
    hide SkipWs;
    var k: nat :| c <= k < d && Blanks(s, c, k) && k < |s| && s[k] == separator && Blanks(s, k + 1, d);
    BlanksAreSkipped(s, c, k);
    BlanksAreSkipped(s, k + 1, d);
  }

  lemma EndIsFound(s: string, b: nat, e: nat)
    requires b < e <= |s| && Blanks(s, b, e - 1) && Closes(s[e - 1]) && !Ws(s[e - 1])
    ensures SkipWs(s, b) == e - 1 && Closes(s[b])
  {
    BlanksAreSkipped(s, b, e - 1);
  }

  /** What is spelt is found, a number provided that nothing follows which would make it longer. */
  lemma {:induction false} SpeltIsFound(s: string, i: nat, e: nat, v: Value)
    requires Spells(s, i, e, v) && (v.Number? ==> e == |s| || Closes(s[e]))
    ensures i < |s| && ScanValue(s, i) == Some(Found(v, e))
    decreases e - i, 0
  {
    hide IsNumber, IsString, Blanks, SpellsItems, SpellsMembers, ScanNumber, ScanString, ScanArray, ScanObject;
    StartOfValue(s, i, e, v);
    match v {
      case Text(raw) => ScanStringIff(s, i, raw, e);
      case Array(_) => SpeltArrayIsFound(s, i, e, v);
      case Object(_) => SpeltObjectIsFound(s, i, e, v);
      case Number(text) =>
        if IsNumber(text) {
          SpeltNumberIsScanned(s, i, e, v);
        } else {
          SpeltWordIsFound(s, i, e, v);
        }
      case _ => SpeltWordIsFound(s, i, e, v);
    }
  }

  lemma {:induction false} SpeltArrayIsFound(s: string, i: nat, e: nat, v: Value)
    requires Spells(s, i, e, v) && v.Array?
    ensures i < |s| && s[i] == '[' && ScanArray(s, i) == Some(Found(v, e))
    decreases e - i - 1, 3
  {
    hide SkipWs, SpellsItems, ScanItems;
    if v.items == [] {
      EndIsFound(s, i + 1, e);
    } else {
      var a: nat, b: nat :| i < a <= b < e && Blanks(s, i + 1, a) && Blanks(s, b, e - 1) && SpellsItems(s, a, b, v.items);
      StartOfItems(s, a, b, v.items);
      BlanksAreSkipped(s, i + 1, a);
      SpeltItemsAreFound(s, a, b, e, v.items);
    }
  }

  lemma {:induction false} SpeltItemsAreFound(s: string, i: nat, b: nat, e: nat, items: seq<Value>)
    requires items != [] && SpellsItems(s, i, b, items) && b < e <= |s| && Blanks(s, b, e - 1) && s[e - 1] == ']'
    ensures i <= |s| && ScanItems(s, i) == Some(Found(items, e))
    decreases if i <= b then b - i else 0, 1
  {
    hide SkipWs, Spells, ScanValue, Blanks, Separates;
    EndIsFound(s, b, e);
    if |items| == 1 {
      SpeltIsInside(s, i, b, items[0]);
      SpeltIsFound(s, i, b, items[0]);
      assert items == [items[0]];
    } else {
      var c: nat, d: nat :| i < c < d < b && Spells(s, i, c, items[0])
        && Separates(s, c, d, ',') && SpellsItems(s, d, b, items[1..]);
      StartOfItems(s, d, b, items[1..]);
      SeparatorIsFound(s, c, d, ',');
      SpeltIsFound(s, i, c, items[0]);
      SpeltItemsAreFound(s, d, b, e, items[1..]);
      assert items == [items[0]] + items[1..];
    }
  }

  lemma {:induction false} SpeltObjectIsFound(s: string, i: nat, e: nat, v: Value)
    requires Spells(s, i, e, v) && v.Object?
    ensures i < |s| && s[i] == '{' && ScanObject(s, i) == Some(Found(v, e))
    decreases e - i - 1, 3
  {
    hide SkipWs, SpellsMembers, ScanMembers;
    if v.members == [] {
      EndIsFound(s, i + 1, e);
    } else {
      var a: nat, b: nat :| i < a <= b < e && Blanks(s, i + 1, a) && Blanks(s, b, e - 1) && SpellsMembers(s, a, b, v.members);
      StartOfMembers(s, a, b, v.members);
      BlanksAreSkipped(s, i + 1, a);
      SpeltMembersAreFound(s, a, b, e, v.members);
    }
  }

  lemma StartOfMember(s: string, i: nat, e: nat, m: Member)
    requires SpellsMember(s, i, e, m)
    ensures i < e <= |s| && s[i] == '"'
  {
    hide Spells, Separates;
    var c: nat, d: nat :| i < c < d < e <= |s| && s[i..c] == m.key && IsString(m.key)
      && Separates(s, c, d, ':') && Spells(s, d, e, m.value);
    assert s[i..c][0] == s[i];
  }

  lemma {:induction false} StartOfMembers(s: string, i: nat, e: nat, members: seq<Member>)
    requires members != [] && SpellsMembers(s, i, e, members)
    ensures i < e <= |s| && s[i] == '"'
    decreases |members|
  {
    hide SpellsMember;
    if |members| == 1 {
      StartOfMember(s, i, e, members[0]);
    } else {
      var c: nat, d: nat :| i < c < d < e && SpellsMember(s, i, c, members[0]) && Separates(s, c, d, ',')
        && SpellsMembers(s, d, e, members[1..]);
      StartOfMember(s, i, c, members[0]);
      StartOfMembers(s, d, e, members[1..]);
    }
  }

  lemma {:induction false} SpeltMembersAreFound(s: string, i: nat, b: nat, e: nat, members: seq<Member>)
    requires members != [] && SpellsMembers(s, i, b, members) && b < e <= |s| && Blanks(s, b, e - 1) && s[e - 1] == '}'
    ensures i <= |s| && ScanMembers(s, i) == Some(Found(members, e))
    decreases if i <= b then b - i else 0, 2
  {
    hide SkipWs, SpellsMember, ScanMember, Blanks, Separates;
    EndIsFound(s, b, e);
    if |members| == 1 {
      SpeltMemberIsFound(s, i, b, members[0]);
      assert members == [members[0]];
    } else {
      var c: nat, d: nat :| i < c < d < b && SpellsMember(s, i, c, members[0]) && Separates(s, c, d, ',')
        && SpellsMembers(s, d, b, members[1..]);
      StartOfMembers(s, d, b, members[1..]);
      SeparatorIsFound(s, c, d, ',');
      SpeltMemberIsFound(s, i, c, members[0]);
      SpeltMembersAreFound(s, d, b, e, members[1..]);
      assert members == [members[0]] + members[1..];
    }
  }

  lemma {:induction false} SpeltMemberIsFound(s: string, i: nat, e: nat, m: Member)
    requires SpellsMember(s, i, e, m) && e < |s| && Closes(s[e])
    ensures i <= |s| && ScanMember(s, i) == Some(Found(m, e))
    decreases if i <= e then e - i else 0, 1
  {
    hide SkipWs, Spells, ScanValue, ScanString, Blanks, Separates;
    var c: nat, d: nat :| i < c < d < e <= |s| && s[i..c] == m.key && IsString(m.key)
      && Separates(s, c, d, ':') && Spells(s, d, e, m.value);
    ScanStringIff(s, i, m.key, c);
    StartOfValue(s, d, e, m.value);
    SeparatorIsFound(s, c, d, ':');
    SpeltIsFound(s, d, e, m.value);
  }

  /** A text that is one value, with blanks around it. */
  ghost predicate IsText(s: string, v: Value) {
    exists i, e :: 0 <= i <= e && Blanks(s, 0, i) && Spells(s, i, e, v) && Blanks(s, e, |s|)
  }

  /** `loads` takes exactly the texts of the grammar, each for the value that it spells. */
  lemma LoadsIff(s: string, v: Value)
    ensures Loads(s) == Some(v) <==> IsText(s, v)
  {
    hide SkipWs, Spells, ScanValue, Blanks;
    var j := SkipWs(s, 0);
    BlanksAreSkipped(s, 0, j);
    if Loads(s) == Some(v) {
      FoundIsSpelt(s, j);
      BlanksAreSkipped(s, ScanValue(s, j).value.end, |s|);
    }
    if IsText(s, v) {
      var i: nat, e: nat :| i <= e && Blanks(s, 0, i) && Spells(s, i, e, v) && Blanks(s, e, |s|);
      StartOfValue(s, i, e, v);
      BlanksAreSkipped(s, 0, i);
      SpeltIsInside(s, i, e, v);
      FirstBlankCloses(s, e);
      SpeltIsFound(s, i, e, v);
      BlanksAreSkipped(s, e, |s|);
    }
  }

  lemma FirstBlankCloses(s: string, e: nat)
    requires Blanks(s, e, |s|)
    ensures e == |s| || Closes(s[e])
  {
  }
}
