/** Texts written out: what stands for what in RFC 8259 and in the program's own dialect, and what fails to parse. */
module JsonTexts {
  import opened Json
  import opened JsonParsing
  import opened JsonLayout
  import opened JsonRoundTrip

  // ----- Whitespace (RFC 8259, section 2) -----

  /** All whitespace of a text, in the order of the text. */
  function WhitespaceOf(d: Doc): string {
    match d
    case ArrayDoc(open, items) => open + WhitespaceOfItems(items)
    case ObjectDoc(open, members) => open + WhitespaceOfMembers(members)
    case _ => []
  }

  function WhitespaceOfItems(items: seq<ItemDoc>): string {
    if items == [] then []
    else WhitespaceOf(items[0].doc) + items[0].after + items[0].afterComma + WhitespaceOfItems(items[1..])
  }

  function WhitespaceOfMembers(members: seq<MemberDoc>): string {
    if members == [] then []
    else
      var m := members[0];
      m.afterKey + m.afterColon + WhitespaceOf(m.doc) + m.after + m.afterComma + WhitespaceOfMembers(members[1..])
  }

  /** Numbers are rows of digits that fit an int, strings and keys have no quote in them. */
  predicate TokensGood(d: Doc) {
    match d
    case NumberDoc(digits) =>
      digits != [] && (forall i | 0 <= i < |digits| :: 48 <= digits[i] as int <= 57) && Number(digits) <= 2147483647
    case StringDoc(text) => '"' !in text
    case ArrayDoc(_, items) => ItemTokensGood(items)
    case ObjectDoc(_, members) => MemberTokensGood(members)
    case _ => true
  }

  predicate ItemTokensGood(items: seq<ItemDoc>) {
    items == [] || (TokensGood(items[0].doc) && ItemTokensGood(items[1..]))
  }

  predicate MemberTokensGood(members: seq<MemberDoc>) {
    members == [] || ('"' !in members[0].key && TokensGood(members[0].doc) && MemberTokensGood(members[1..]))
  }

  lemma SpacesJoin(a: string, b: string)
    ensures Spaces(a + b) <==> Spaces(a) && Spaces(b)
  {
    if Spaces(a + b) {
      assert forall i | 0 <= i < |a| :: (a + b)[i] == a[i];
      assert forall i | 0 <= i < |b| :: (a + b)[|a| + i] == b[i];
    }
  }

  /** A text is well-formed if and only if its tokens and its whitespace are. */
  lemma {:induction false} GoodFromParts(d: Doc)
    ensures Good(d) <==> TokensGood(d) && Spaces(WhitespaceOf(d))
  {
    match d
    case ArrayDoc(open, items) =>
      SpacesJoin(open, WhitespaceOfItems(items));
      GoodItemsFromParts(items);
    case ObjectDoc(open, members) =>
      SpacesJoin(open, WhitespaceOfMembers(members));
      GoodMembersFromParts(members);
    case _ =>
  }

  lemma {:induction false} GoodItemsFromParts(items: seq<ItemDoc>)
    ensures GoodItems(items) <==> ItemTokensGood(items) && Spaces(WhitespaceOfItems(items))
  {
    if items != [] {
      var i := items[0];
      GoodFromParts(i.doc);
      GoodItemsFromParts(items[1..]);
      hide Spaces, Good, TokensGood, WhitespaceOf;
      SpacesJoin(WhitespaceOf(i.doc) + i.after + i.afterComma, WhitespaceOfItems(items[1..]));
      SpacesJoin(WhitespaceOf(i.doc) + i.after, i.afterComma);
      SpacesJoin(WhitespaceOf(i.doc), i.after);
    }
  }

  lemma {:induction false} GoodMembersFromParts(members: seq<MemberDoc>)
    ensures GoodMembers(members) <==> MemberTokensGood(members) && Spaces(WhitespaceOfMembers(members))
  {
    if members != [] {
      var m := members[0];
      GoodFromParts(m.doc);
      GoodMembersFromParts(members[1..]);
      hide Spaces, Good, TokensGood, WhitespaceOf;
      var inner := m.afterKey + m.afterColon + WhitespaceOf(m.doc);
      SpacesJoin(inner + m.after + m.afterComma, WhitespaceOfMembers(members[1..]));
      SpacesJoin(inner + m.after, m.afterComma);
      SpacesJoin(inner, m.after);
      SpacesJoin(m.afterKey + m.afterColon, WhitespaceOf(m.doc));
      SpacesJoin(m.afterKey, m.afterColon);
    }
  }

  /**
   Layout independence: blanks, tabs, line feeds and carriage returns in front of a text and between its tokens
   do not change what the text means; inside empty brackets they make the parser throw.
   */
  lemma LayoutIndependence(lead: string, d: Doc, rest: string)
    requires forall c | c in lead + WhitespaceOf(d) :: c == ' ' || c == '\t' || c == '\n' || c == '\r'
    requires TokensGood(d)
    requires d.NumberDoc? && rest != [] ==> !(48 <= rest[0] as int <= 57) && rest[0] != '.' && rest[0] != 'e'
    ensures ParseText(lead + Render(d) + rest) == if Tight(d) then Got(Denote(d), |lead| + |Render(d)|) else Throws
  {
    var all := lead + WhitespaceOf(d);
    assert Spaces(all) by {
      forall i | 0 <= i < |all| ensures IsSpace(all[i]) { assert all[i] in all; }
    }
    SpacesJoin(lead, WhitespaceOf(d));
    GoodFromParts(d);
    LayoutExactly(lead, d, rest);
  }

  /** The six characters that the parser skips. */
  lemma SpaceExactly(c: char)
    ensures IsSpace(c) <==> c as int == 32 || 9 <= c as int <= 13
  {
  }

  // ----- Literals and numbers (RFC 8259, sections 3 and 6) -----

  lemma LiteralNames()
    ensures ParseText("null") == Got(Null, 4) && Generate(Null) == "null"
    ensures ParseText("true") == Got(Bool(true), 4) && Generate(Bool(true)) == "true"
    ensures ParseText("false") == Got(Bool(false), 5) && Generate(Bool(false)) == "false"
  {
  }

  /** Numbers are decimal. */
  lemma Decimal(digits: string, c: char)
    ensures Number([]) == 0 && Number(digits + [c]) == 10 * Number(digits) + (c as int - 48)
  {
    assert (digits + [c])[..|digits|] == digits;
  }

  /** A row of digits is a number up to 2^31 - 1, and too long for the parser beyond. */
  lemma NumberTexts(digits: string)
    requires digits != [] && forall i | 0 <= i < |digits| :: 48 <= digits[i] as int <= 57
    ensures ParseText(digits) == if Number(digits) <= 2147483647 then Got(Int(Number(digits)), |digits|) else Nullopt
  {
    DigitsEnd(digits, 0);
    assert digits[0..|digits|] == digits;
    forall c | c in digits ensures c != '.' && c != 'e' {}
  }

  lemma {:induction false} DigitsEnd(digits: string, pos: nat)
    requires pos <= |digits| && forall i | 0 <= i < |digits| :: 48 <= digits[i] as int <= 57
    ensures NumberEnd(digits, pos) == |digits|
    decreases |digits| - pos
  {
    if pos < |digits| { DigitsEnd(digits, pos + 1); }
  }

  /** Of all integers exactly the natural ones of 31 bits come back. */
  lemma IntegersThatReturn(n: int)
    ensures ParseText(Generate(Int(n))) == Got(Int(n), |Generate(Int(n))|) <==> 0 <= n <= 2147483647
  {
    RoundTripExactly(Int(n), []);
    assert Generate(Int(n)) + [] == Generate(Int(n));
  }

  /** What a generated number text stands for. */
  function Signed(text: string): int {
    if text != [] && text[0] == '-' then -Number(text[1..]) else Number(text)
  }

  /** The text of an integer is its decimal text, with a minus sign in front if it is negative. */
  lemma IntegerTexts(n: int)
    ensures Signed(Generate(Int(n))) == n && (n < 0 <==> Generate(Int(n))[..1] == "-")
    ensures n < 0 ==> Generate(Int(n)) == "-" + Generate(Int(-n))
  {
    DigitsOf(if n < 0 then -n else n);
    var digits := ToDigits(if n < 0 then -n else n);
    assert IsDigit(digits[0]);
    if n < 0 { assert Generate(Int(n))[1..] == digits; }
  }

  // ----- Keys -----

  /** Keys are ordered by the first character in which they differ, and a beginning comes before the whole. */
  lemma {:induction false} LessIsLexicographic(a: string, b: string)
    ensures Less(a, b) <==>
              exists k :: 0 <= k <= |a| && k <= |b| && a[..k] == b[..k]
                && (k < |b| && (k == |a| || a[k] as int < b[k] as int))
  {
    if Less(a, b) {
      var k := Difference(a, b);
      assert a[..k] == b[..k];
    }
    if k :| 0 <= k <= |a| && k <= |b| && a[..k] == b[..k] && (k < |b| && (k == |a| || a[k] as int < b[k] as int)) {
      DifferenceDecides(a, b, k);
    }
  }

  lemma {:induction false} Difference(a: string, b: string) returns (k: nat)
    requires Less(a, b)
    ensures k <= |a| && k < |b| && a[..k] == b[..k] && (k == |a| || a[k] as int < b[k] as int)
  {
    if a == [] || a[0] < b[0] {
      k := 0;
    } else {
      k := Difference(a[1..], b[1..]);
      assert a[..k + 1] == [a[0]] + a[1..][..k] && b[..k + 1] == [b[0]] + b[1..][..k];
      k := k + 1;
    }
  }

  lemma {:induction false} DifferenceDecides(a: string, b: string, k: nat)
    requires k <= |a| && k < |b| && a[..k] == b[..k] && (k == |a| || a[k] as int < b[k] as int)
    ensures Less(a, b)
  {
    if k > 0 {
      assert a[0] == a[..k][0] && b[0] == b[..k][0];
      assert a[1..][..k - 1] == a[..k][1..] && b[1..][..k - 1] == b[..k][1..];
      DifferenceDecides(a[1..], b[1..], k - 1);
    }
  }

  // ----- Arrays, objects and strings (RFC 8259, sections 4, 5 and 7) -----

  lemma EmptyTexts()
    ensures Generate(Array([])) == "[]" && Generate(Object([])) == "{}"
  {
  }

  lemma StringTexts(text: string)
    ensures Generate(String(text)) == "\"" + text + "\""
  {
  }

  /** An array text grows by a comma and the text of the new item in front of the closing bracket. */
  lemma {:induction false} ArrayTexts(items: seq<Value>, x: Value)
    ensures Generate(Array([x])) == "[" + Generate(x) + "]"
    ensures items != [] ==>
              exists t ::
                Generate(Array(items)) == t + "]" && Generate(Array(items + [x])) == t + "," + Generate(x) + "]"
  {
    assert [x][1..] == [];
    assert "[" + (Generate(x) + "]") == "[" + Generate(x) + "]";
    if items != [] {
      var t := ItemsGrow(items, x);
      assert "[" + (t + "]") == ("[" + t) + "]";
      assert "[" + (t + "," + Generate(x) + "]") == ("[" + t) + "," + Generate(x) + "]";
    }
  }

  lemma {:induction false} ItemsGrow(items: seq<Value>, x: Value) returns (t: string)
    requires items != []
    ensures GenerateItems(items) == t + "]" && GenerateItems(items + [x]) == t + "," + Generate(x) + "]"
  {
    var first := Generate(items[0]);
    assert (items + [x])[1..] == items[1..] + [x];
    if |items| == 1 {
      t := first;
      assert items[1..] + [x] == [x];
      OneItem(x);
      Commas(first, Generate(x), "");
    } else {
      var u := ItemsGrow(items[1..], x);
      t := first + "," + u;
      hide Generate, GenerateItems;
      Commas(first, Generate(x), u);
    }
  }

  lemma OneItem(x: Value)
    ensures GenerateItems([x]) == Generate(x) + "]"
  {
  }

  lemma Commas(first: string, last: string, u: string)
    ensures first + ("," + (last + "]")) == first + "," + last + "]"
    ensures first + ("," + (u + "]")) == first + "," + u + "]"
    ensures first + ("," + (u + "," + last + "]")) == first + "," + u + "," + last + "]"
  {
  }

  lemma MemberTexts(k: string, v: Value)
    ensures GenerateMember(Member(k, v)) == "\"" + k + "\":" + Generate(v)
  {
    assert "\"" + (k + "\"") + (":" + Generate(v)) == "\"" + k + "\":" + Generate(v);
  }

  /** An object text has quoted keys, colons and commas. */
  lemma ObjectTexts(k: string, v: Value, l: string, w: Value)
    ensures var one, two := "\"" + k + "\":" + Generate(v), "\"" + l + "\":" + Generate(w);
            && Generate(Object([Member(k, v)])) == "{" + one + "}"
            && Generate(Object([Member(k, v), Member(l, w)])) == "{" + one + "," + two + "}"
  {
    var first, second := Member(k, v), Member(l, w);
    MemberTexts(k, v);
    MemberTexts(l, w);
    assert [first, second][1..] == [second];
    hide GenerateMember, Generate;
    TwoMembers(first, second);
    Braces(GenerateMember(first), GenerateMember(second));
  }

  lemma TwoMembers(first: Member, second: Member)
    ensures Generate(Object([first])) == "{" + (GenerateMember(first) + "}")
    ensures Generate(Object([first, second])) ==
              "{" + (GenerateMember(first) + ("," + (GenerateMember(second) + "}")))
  {
    assert [first, second][1..] == [second];
    hide GenerateMember;
    assert GenerateMembers([second]) == GenerateMember(second) + "}";
    assert GenerateMembers([first]) == GenerateMember(first) + "}";
    assert GenerateMembers([first, second]) == GenerateMember(first) + ("," + (GenerateMember(second) + "}"));
  }

  lemma Braces(one: string, two: string)
    ensures "{" + (one + "}") == "{" + one + "}"
    ensures "{" + (one + ("," + (two + "}"))) == "{" + one + "," + two + "}"
  {
  }

  // ----- Texts that fail -----

  /** Nothing but whitespace: the text is read behind its end. */
  lemma {:induction false} BlankTexts(s: string, pos: nat)
    requires Spaces(s) && pos <= |s|
    ensures SkipSpace(s, pos) == |s| && ParseValue(s, pos) == PastEnd
    decreases |s| - pos
  {
    if pos < |s| { BlankTexts(s, pos + 1); }
  }

  /** An unknown word. */
  lemma UnknownWords(s: string)
    requires |s| > 0
    ensures s[0] == 'n' && !("null" <= s) ==> ParseText(s) == Nullopt
    ensures s[0] == 't' && !("true" <= s) ==> ParseText(s) == Nullopt
    ensures s[0] == 'f' && !("false" <= s) ==> ParseText(s) == Nullopt
  {
    assert SkipSpace(s, 0) == 0 || IsSpace(s[0]);
  }

  /** A character that begins no value: no value, and inside an array an error. */
  lemma NoValue(s: string)
    requires |s| > 0 && s[0] in ",:]}-+/"
    ensures ParseText(s) == Nullopt && (s[0] != ']' ==> ParseText("[" + s) == Throws)
  {
    NoValueAt(s, 0);
    var t := "[" + s;
    assert t[1] == s[0];
    assert t[1] in ",:]}-+/";
    NoValueAt(t, 1);
    assert t[0] == '[' && SkipSpace(t, 0) == 0;
    hide ParseNumber;
    assert ParseText(t) == ParseItems(t, 1, []);
  }

  lemma BeginsNothing(c: char)
    requires c in ",:]}-+/"
    ensures !IsSpace(c) && !IsNumberChar(c) && c !in "ntf\"[{"
  {
  }

  lemma NoValueAt(s: string, pos: nat)
    requires pos < |s| && s[pos] in ",:]}-+/"
    ensures ParseValue(s, pos) == Nullopt
  {
    BeginsNothing(s[pos]);
    hide IsSpace, IsNumberChar, ParseItems, ParseMembers, ParseString, ParseWord;
    assert "ntf\"[{" == ['n', 't', 'f', '"', '[', '{'];
    assert SkipSpace(s, pos) == pos;
    assert NumberEnd(s, pos) == pos && s[pos..pos] == [];
  }

  /** A key that is no string. */
  lemma NonStringKeys(d: Doc, rest: string)
    requires Good(d) && Tight(d) && !d.StringDoc? && (d.NumberDoc? ==> rest == [] || !IsNumberChar(rest[0]))
    ensures ParseText("{" + Render(d) + rest) == Nullopt
  {
    var s := "{" + Render(d) + rest;
    AtMiddle("{", Render(d), rest);
    ParseDoc(s, 1, d);
    RenderStart(d);
    AtChar(s, 1, Render(d), 0);
    assert !Denote(d).String?;
    assert s[0] == '{';
    hide Render, Denote, Good, Tight, At;
    KeyFails(s, Denote(d), 1 + |Render(d)|);
  }

  lemma KeyFails(s: string, key: Value, p: nat)
    requires |s| > 1 && s[0] == '{' && s[1] != '}' && ParseValue(s, 1) == Got(key, p) && !key.String?
    ensures ParseText(s) == Nullopt
  {
    assert SkipSpace(s, 0) == 0;
    assert ParseText(s) == ParseMembers(s, 1, []);
  }

  /** A string without its closing quote is read behind its end, unless it has no character at all. */
  lemma UnclosedStrings(text: string)
    requires '"' !in text
    ensures ParseText("\"" + text) == if text == [] then Got(String([]), 2) else PastEnd
  {
    var s := "\"" + text;
    NoQuote(s, 1);
    assert SkipSpace(s, 0) == 0;
    assert s[1..|s|] == text;
  }

  lemma {:induction false} NoQuote(s: string, pos: nat)
    requires pos <= |s| && forall i | pos <= i < |s| :: s[i] != '"'
    ensures QuoteAfter(s, pos) == |s|
    decreases |s| - pos
  {
    if pos < |s| { NoQuote(s, pos + 1); }
  }

  /** A text that ends inside an array or an object: what was read so far counts. */
  lemma UnclosedBrackets()
    ensures ParseText("[") == Got(Array([]), 2) && ParseText("{") == Got(Object([]), 2)
  {
  }

  /** A point or an exponent among the digits. */
  lemma FloatingTexts(s: string)
    requires s != [] && (forall i | 0 <= i < |s| :: IsNumberChar(s[i])) && s[0] != 'e' && ('.' in s || 'e' in s)
    ensures ParseText(s) == Floating
  {
    AllNumber(s, 0);
    assert s[0..|s|] == s;
  }

  lemma {:induction false} AllNumber(s: string, pos: nat)
    requires pos <= |s| && forall i | 0 <= i < |s| :: IsNumberChar(s[i])
    ensures NumberEnd(s, pos) == |s|
    decreases |s| - pos
  {
    if pos < |s| { AllNumber(s, pos + 1); }
  }
}
