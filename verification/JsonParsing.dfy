/**
 The cursor-based parser of application/json_parser.cpp: functions that say what it does at a position
 of any text, and the class whose methods do it.
 */
module JsonParsing {
  import opened Json

  /**
   Got: a value, and the cursor behind it. Nullopt: an empty optional is returned. Throws: value() of an
   empty optional, or substr behind the end, throws. PastEnd: the text is read at or behind its end.
   Floating: the number has a point or an exponent, which the model does not cover.
   */
  datatype Outcome<+R> = Got(value: R, pos: nat) | Nullopt | Throws | PastEnd | Floating

  /** std::isspace in the C locale. */
  predicate IsSpace(c: char) {
    c == ' ' || c == '\t' || c == '\n' || c == 11 as char || c == 12 as char || c == '\r'
  }

  predicate IsDigit(c: char) {
    '0' <= c <= '9'
  }

  predicate IsNumberChar(c: char) {
    IsDigit(c) || c == 'e' || c == '.'
  }

  function SkipSpace(s: string, pos: nat): (r: nat)
    ensures pos <= r
    decreases |s| - pos
  {
    if pos < |s| && IsSpace(s[pos]) then SkipSpace(s, pos + 1) else pos
  }

  function NumberEnd(s: string, pos: nat): (r: nat)
    requires pos <= |s|
    ensures pos <= r <= |s|
    ensures forall i | pos <= i < r :: IsNumberChar(s[i])
    decreases |s| - pos
  {
    if pos < |s| && IsNumberChar(s[pos]) then NumberEnd(s, pos + 1) else pos
  }

  function Digit(c: char): int {
    c as int - '0' as int
  }

  /** The number that a row of digits denotes. */
  function Number(digits: string): int {
    if digits == [] then 0 else 10 * Number(digits[..|digits| - 1]) + Digit(digits[|digits| - 1])
  }

  const INT_MAX := 0x7fff_ffff

  /** std::stoi of a text of digits fails on the empty text and beyond the range of int. */
  function ParseNumber(s: string, pos: nat): (r: Outcome<Value>)
    requires pos <= |s|
    ensures r.Got? ==> pos < r.pos <= |s|
  {
    var end := NumberEnd(s, pos);
    var number := s[pos..end];
    if '.' in number || 'e' in number then Floating
    else if number == [] || Number(number) > INT_MAX then Nullopt
    else Got(Int(Number(number)), end)
  }

  /** Whether `word` stands at the cursor. */
  predicate Matches(s: string, pos: nat, word: string) {
    pos + |word| <= |s| && s[pos..pos + |word|] == word
  }

  function ParseWord(s: string, pos: nat, word: string, value: Value): (r: Outcome<Value>)
    requires word != []
    ensures r.Got? ==> pos < r.pos <= |s|
  {
    if Matches(s, pos, word) then Got(value, pos + |word|) else Nullopt
  }

  /** The closing quote at or after `pos`, or the end of the text. */
  function QuoteAfter(s: string, pos: nat): (r: nat)
    requires pos <= |s|
    ensures pos <= r <= |s| && (r < |s| ==> s[r] == '"') && '"' !in s[pos..r]
    decreases |s| - pos
  {
    if pos == |s| || s[pos] == '"' then pos
    else
      var r := QuoteAfter(s, pos + 1);
      assert s[pos..r] == [s[pos]] + s[pos + 1..r];
      r
  }

  /** The cursor is at the opening quote. A text that ends right behind it counts as an empty string. */
  function ParseString(s: string, pos: nat): (r: Outcome<Value>)
    requires pos < |s|
    ensures r.Got? ==> pos < r.pos
  {
    var start := pos + 1;
    var end := QuoteAfter(s, start);
    if start < |s| && end == |s| then PastEnd else Got(String(s[start..end]), end + 1)
  }

  /** Moves over the character c - a comma or a colon - if it stands at the cursor. */
  function SkipOptional(s: string, pos: nat, c: char): (r: nat)
    ensures pos <= r
  {
    if pos < |s| && s[pos] == c then pos + 1 else pos
  }

  function ParseValue(s: string, pos: nat): (r: Outcome<Value>)
    ensures r.Got? ==> pos < r.pos
    decreases |s| + 1 - pos, 0
  {
    var p := SkipSpace(s, pos);
    if p >= |s| then PastEnd
    else if s[p] == 'n' then ParseWord(s, p, "null", Null)
    else if s[p] == 't' then ParseWord(s, p, "true", Bool(true))
    else if s[p] == 'f' then ParseWord(s, p, "false", Bool(false))
    else if s[p] == '"' then ParseString(s, p)
    else if s[p] == '[' then ParseItems(s, p + 1, [])
    else if s[p] == '{' then ParseMembers(s, p + 1, [])
    else ParseNumber(s, p)
  }

  /** The loop of parse_array with what it has collected so far; it also accepts items without commas. */
  function ParseItems(s: string, pos: nat, items: seq<Value>): (r: Outcome<Value>)
    ensures r.Got? ==> pos < r.pos
    decreases |s| + 1 - pos, 1
  {
    if pos < |s| && s[pos] != ']' then
      match ParseValue(s, pos)
      case Got(v, p) => ParseItems(s, SkipSpace(s, SkipOptional(s, SkipSpace(s, p), ',')), items + [v])
      case Nullopt => Throws
      case Throws => Throws
      case PastEnd => PastEnd
      case Floating => Floating
    else Got(Array(items), pos + 1)
  }

  /** The loop of parse_object with what it has collected so far. */
  function ParseMembers(s: string, pos: nat, members: seq<Member>): (r: Outcome<Value>)
    ensures r.Got? ==> pos < r.pos
    decreases |s| + 1 - pos, 1
  {
    if pos < |s| && s[pos] != '}' then
      match ParseValue(s, pos)
      case Got(key, p) =>
        if !key.String? then Nullopt
        else
          var start := SkipSpace(s, SkipOptional(s, SkipSpace(s, p), ':'));
          (match ParseValue(s, start)
           case Got(v, q) =>
             ParseMembers(s, SkipSpace(s, SkipOptional(s, SkipSpace(s, q), ',')), Insert(members, key.text, v))
           case Nullopt => Throws
           case Throws => Throws
           case PastEnd => PastEnd
           case Floating => Floating)
      case Nullopt => Throws
      case Throws => Throws
      case PastEnd => PastEnd
      case Floating => Floating
    else Got(Object(members), pos + 1)
  }

  /** parse() for the whole text: what stands behind the value is not looked at. */
  function ParseText(s: string): Outcome<Value> {
    ParseValue(s, 0)
  }

  lemma {:induction false} SkipSpaceTwice(s: string, pos: nat)
    ensures SkipSpace(s, SkipSpace(s, pos)) == SkipSpace(s, pos)
    decreases |s| - pos
  {
    if pos < |s| && IsSpace(s[pos]) { SkipSpaceTwice(s, pos + 1); }
  }

  /** JsonParser: the text and the cursor. */
  class JsonParser {
    const text: string
    var pos: nat

    constructor (text: string)
      ensures this.text == text && pos == 0
    {
      this.text := text;
      pos := 0;
    }

    method SkipWhitespace()
      modifies this
      ensures pos == SkipSpace(text, old(pos))
      ensures old(pos) <= pos && (old(pos) < pos ==> pos <= |text|)
      ensures forall i | old(pos) <= i < pos :: text[i] as int == 32 || 9 <= text[i] as int <= 13
      ensures pos < |text| ==> text[pos] as int != 32 && !(9 <= text[pos] as int <= 13)
    {
      while pos < |text| && IsSpace(text[pos])
        invariant SkipSpace(text, pos) == SkipSpace(text, old(pos))
        invariant old(pos) <= pos && (old(pos) < pos ==> pos <= |text|)
        invariant forall i | old(pos) <= i < pos :: IsSpace(text[i])
        decreases |text| - pos
      {
        pos := pos + 1;
      }
    }

    method SkipChar(c: char)
      modifies this
      ensures pos == SkipOptional(text, old(pos), c)
      ensures pos == if old(pos) < |text| && text[old(pos)] == c then old(pos) + 1 else old(pos)
    {
      if pos < |text| && text[pos] == c {
        pos := pos + 1;
      }
    }

    method Word(word: string, value: Value) returns (r: Outcome<Value>)
      requires word != []
      modifies this
      ensures r == ParseWord(text, old(pos), word, value) && (r.Got? ==> pos == r.pos)
    {
      if pos + |word| <= |text| && text[pos..pos + |word|] == word {
        pos := pos + |word|;
        return Got(value, pos);
      }
      return Nullopt;
    }

    method NumberText() returns (r: Outcome<Value>)
      requires pos <= |text|
      modifies this
      ensures r == ParseNumber(text, old(pos)) && (r.Got? ==> pos == r.pos)
    {
      var end := pos;
      while end < |text| && IsNumberChar(text[end])
        invariant pos <= end <= |text| && NumberEnd(text, end) == NumberEnd(text, pos)
      {
        end := end + 1;
      }
      var number := text[pos..end];
      pos := end;
      if '.' in number || 'e' in number {
        return Floating;
      }
      if number == [] || Number(number) > INT_MAX {
        return Nullopt;
      }
      return Got(Int(Number(number)), pos);
    }

    method StringText() returns (r: Outcome<Value>)
      requires pos < |text|
      modifies this
      ensures r == ParseString(text, old(pos)) && (r.Got? ==> pos == r.pos)
    {
      pos := pos + 1;
      var end := pos;
      while pos < |text| && (end == |text| || text[end] != '"')
        invariant pos <= end <= |text| && QuoteAfter(text, end) == QuoteAfter(text, pos)
        decreases |text| - end
      {
        if end == |text| {
          return PastEnd;
        }
        end := end + 1;
      }
      r := Got(String(text[pos..end]), end + 1);
      pos := end + 1;
    }

    method ArrayText() returns (r: Outcome<Value>)
      modifies this
      ensures r == ParseItems(text, old(pos) + 1, []) && (r.Got? ==> pos == r.pos)
      decreases |text| + 1 - pos, 0
    {
      pos := pos + 1;
      var items := [];
      ghost var start := pos;
      while pos < |text| && text[pos] != ']'
        invariant start <= pos && ParseItems(text, pos, items) == ParseItems(text, start, [])
        decreases |text| - pos
      {
        var item := ValueText();
        match item {
          case Got(v, _) => items := items + [v];
          case Nullopt => return Throws;
          case _ => return item;
        }
        SkipWhitespace();
        SkipChar(',');
        SkipWhitespace();
      }
      pos := pos + 1;
      return Got(Array(items), pos);
    }

    method ObjectText() returns (r: Outcome<Value>)
      modifies this
      ensures r == ParseMembers(text, old(pos) + 1, []) && (r.Got? ==> pos == r.pos)
      decreases |text| + 1 - pos, 0
    {
      pos := pos + 1;
      var members := [];
      ghost var start := pos;
      while pos < |text| && text[pos] != '}'
        invariant start <= pos && ParseMembers(text, pos, members) == ParseMembers(text, start, [])
        decreases |text| - pos
      {
        var key := ValueText();
        if !key.Got? {
          return if key.Nullopt? then Throws else key;
        }
        SkipWhitespace();
        if !key.value.String? {
          return Nullopt;
        }
        SkipChar(':');
        SkipWhitespace();
        var value := ValueText();
        if !value.Got? {
          return if value.Nullopt? then Throws else value;
        }
        members := Insert(members, key.value.text, value.value);
        SkipWhitespace();
        SkipChar(',');
        SkipWhitespace();
      }
      pos := pos + 1;
      return Got(Object(members), pos);
    }

    method ValueText() returns (r: Outcome<Value>)
      modifies this
      ensures r == ParseValue(text, old(pos)) && (r.Got? ==> pos == r.pos)
      decreases |text| + 1 - pos, 1
    {
      SkipWhitespace();
      if pos >= |text| {
        return PastEnd;
      }
      match text[pos] {
        case 'n' => r := Word("null", Null);
        case 't' => r := Word("true", Bool(true));
        case 'f' => r := Word("false", Bool(false));
        case '"' => r := StringText();
        case '[' => r := ArrayText();
        case '{' => r := ObjectText();
        case _ => r := NumberText();
      }
    }

    method Parse() returns (r: Outcome<Value>)
      requires pos == 0
      modifies this
      ensures r == ParseText(text)
    {
      SkipWhitespace();
      SkipSpaceTwice(text, 0);
      r := ValueText();
    }
  }
}
