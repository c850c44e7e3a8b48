/** The generator of application/json_parser.cpp, and when the parser undoes it. */
module JsonRoundTrip {
  import opened Json
  import opened JsonParsing
  import opened JsonLayout

  // ----- What the generator writes -----

  function DigitChar(d: nat): char
    requires d < 10
  {
    ('0' as int + d) as char
  }

  /** std::to_string of a natural number. */
  function ToDigits(n: nat): string {
    if n < 10 then [DigitChar(n)] else ToDigits(n / 10) + [DigitChar(n % 10)]
  }

  function Generate(v: Value): string
    decreases v, 1
  {
    match v
    case Null => "null"
    case Bool(b) => if b then "true" else "false"
    case Int(n) => if n < 0 then "-" + ToDigits(-n) else ToDigits(n)
    case String(text) => Quoted(text)
    case Array(items) => "[" + GenerateItems(items)
    case Object(members) => "{" + GenerateMembers(members)
  }

  /** The items with commas between them, and the closing bracket. */
  function GenerateItems(items: seq<Value>): string
    decreases items, 0
  {
    if items == [] then "]"
    else Generate(items[0]) + if |items| == 1 then "]" else "," + GenerateItems(items[1..])
  }

  function GenerateMembers(members: seq<Member>): string
    decreases members, 0
  {
    if members == [] then "}"
    else GenerateMember(members[0]) + if |members| == 1 then "}" else "," + GenerateMembers(members[1..])
  }

  function GenerateMember(m: Member): string
    decreases m, 2
  {
    Quoted(m.key) + (":" + Generate(m.value))
  }

  /** The values the parser can give back: natural ints, no quote in any string, members sorted by key. */
  ghost predicate Canonical(v: Value)
    decreases v, 1
  {
    match v
    case Int(n) => 0 <= n <= INT_MAX
    case String(text) => '"' !in text
    case Array(items) => CanonicalItems(items)
    case Object(members) => SortedKeys(members) && CanonicalMembers(members)
    case _ => true
  }

  ghost predicate CanonicalItems(items: seq<Value>)
    decreases items, 0
  {
    forall i | 0 <= i < |items| :: Canonical(items[i])
  }

  ghost predicate CanonicalMembers(members: seq<Member>)
    decreases members, 0
  {
    forall i | 0 <= i < |members| :: '"' !in members[i].key && Canonical(members[i].value)
  }

  // ----- Digits -----

  lemma {:induction false} DigitsOf(n: nat)
    ensures Digits(ToDigits(n)) && Number(ToDigits(n)) == n
  {
    if n < 10 {
      assert ToDigits(n)[..0] == [];
    } else {
      DigitsOf(n / 10);
      assert ToDigits(n)[..|ToDigits(n)| - 1] == ToDigits(n / 10);
    }
  }

  lemma {:induction false} NumberNonNegative(digits: string)
    requires forall i | 0 <= i < |digits| :: IsDigit(digits[i])
    ensures Number(digits) >= 0
  {
    if digits != [] { NumberNonNegative(digits[..|digits| - 1]); }
  }

  // ----- The generated text is the compact layout -----

  function DocOf(v: Value): Doc
    decreases v, 1
  {
    match v
    case Null => NullDoc
    case Bool(b) => BoolDoc(b)
    case Int(n) => NumberDoc(if n < 0 then [] else ToDigits(n))
    case String(text) => StringDoc(text)
    case Array(items) => ArrayDoc([], ItemDocs(items))
    case Object(members) => ObjectDoc([], MemberDocs(members))
  }

  function ItemDocs(items: seq<Value>): seq<ItemDoc>
    decreases items, 0
  {
    if items == [] then [] else [ItemDoc(DocOf(items[0]), [], [])] + ItemDocs(items[1..])
  }

  function MemberDocs(members: seq<Member>): seq<MemberDoc>
    decreases members, 0
  {
    if members == [] then []
    else [MemberDoc(members[0].key, [], [], DocOf(members[0].value), [], [])] + MemberDocs(members[1..])
  }

  lemma {:induction false} Compact(v: Value)
    requires Canonical(v)
    ensures Render(DocOf(v)) == Generate(v) && Good(DocOf(v)) && Tight(DocOf(v)) && Denote(DocOf(v)) == v
    decreases v, 1
  {
    match v
    case Int(n) => DigitsOf(n);
    case Array(items) =>
      CompactItems(items);
      assert [] + RenderItems(ItemDocs(items)) == RenderItems(ItemDocs(items));
    case Object(members) =>
      CompactMembers(members);
      AssignSorted([], members);
      assert [] + RenderMembers(MemberDocs(members)) == RenderMembers(MemberDocs(members));
    case _ =>
  }

  lemma {:induction false} CompactItems(items: seq<Value>)
    requires CanonicalItems(items)
    ensures RenderItems(ItemDocs(items)) == GenerateItems(items)
    ensures GoodItems(ItemDocs(items)) && TightItems(ItemDocs(items)) && DenoteItems(ItemDocs(items)) == items
    decreases items, 0
  {
    if items != [] {
      var docs := ItemDocs(items);
      Compact(items[0]);
      CompactItems(items[1..]);
      assert docs[1..] == ItemDocs(items[1..]);
      assert ItemsTail(docs) == if |items| == 1 then "]" else "," + GenerateItems(items[1..]) by {
        assert [] + RenderItems(docs[1..]) == RenderItems(docs[1..]);
      }
      assert [] + ItemsTail(docs) == ItemsTail(docs);
    }
  }

  lemma CompactMember(key: string, value: string, tail: string)
    ensures key + ([] + (":" + ([] + (value + ([] + tail))))) == key + (":" + value) + tail
  {
    assert [] + tail == tail;
    assert [] + (value + tail) == value + tail;
    assert [] + (":" + (value + tail)) == (":" + value) + tail;
  }

  lemma {:induction false} CompactMembers(members: seq<Member>)
    requires CanonicalMembers(members)
    ensures RenderMembers(MemberDocs(members)) == GenerateMembers(members)
    ensures GoodMembers(MemberDocs(members)) && TightMembers(MemberDocs(members))
              && DenoteMembers(MemberDocs(members)) == members
    decreases members, 0
  {
    if members != [] {
      var docs := MemberDocs(members);
      Compact(members[0].value);
      CompactMembers(members[1..]);
      assert docs[1..] == MemberDocs(members[1..]);
      assert [] + RenderMembers(docs[1..]) == RenderMembers(docs[1..]);
      CompactMember(Quoted(members[0].key), Generate(members[0].value), MembersTail(docs));
    }
  }

  /** Assigning members in the order of their keys appends them. */
  lemma {:induction false} AssignSorted(done: seq<Member>, ms: seq<Member>)
    requires SortedKeys(done + ms)
    ensures Assign(done, ms) == done + ms
    decreases |ms|
  {
    if ms == [] {
      assert done + ms == done;
    } else {
      assert SortedKeys(done + [ms[0]]) by {
        assert forall i | 0 <= i <= |done| :: (done + [ms[0]])[i] == (done + ms)[i];
      }
      InsertLast(done, ms[0].key, ms[0].value);
      assert done + [ms[0]] + ms[1..] == done + ms;
      AssignSorted(done + [ms[0]], ms[1..]);
    }
  }

  lemma {:induction false} InsertLast(ms: seq<Member>, key: string, value: Value)
    requires SortedKeys(ms + [Member(key, value)])
    ensures Insert(ms, key, value) == ms + [Member(key, value)]
  {
    if ms != [] {
      var all := ms + [Member(key, value)];
      assert Less(all[0].key, all[|ms|].key);
      LessTotal(ms[0].key, key);
      assert ms[1..] + [Member(key, value)] == all[1..];
      InsertLast(ms[1..], key, value);
    }
  }

  // ----- Whatever the parser returns is canonical -----

  lemma InsertCanonical(ms: seq<Member>, key: string, value: Value)
    requires SortedKeys(ms) && CanonicalMembers(ms) && '"' !in key && Canonical(value)
    ensures SortedKeys(Insert(ms, key, value)) && CanonicalMembers(Insert(ms, key, value))
  {
    InsertSorted(ms, key, value);
    var more := Insert(ms, key, value);
    forall i | 0 <= i < |more| ensures '"' !in more[i].key && Canonical(more[i].value) {
      assert more[i] in more;
    }
  }

  lemma ParsedNumberCanonical(s: string, pos: nat)
    requires pos <= |s| && ParseNumber(s, pos).Got?
    ensures Canonical(ParseNumber(s, pos).value)
  {
    var number := s[pos..NumberEnd(s, pos)];
    forall i | 0 <= i < |number| ensures IsDigit(number[i]) {
      assert number[i] in number;
      assert number[i] == s[pos + i];
    }
    NumberNonNegative(number);
  }

  lemma {:induction false} ParsedIsCanonical(s: string, pos: nat)
    requires ParseValue(s, pos).Got?
    ensures Canonical(ParseValue(s, pos).value)
    decreases |s| + 1 - pos, 0
  {
    var p := SkipSpace(s, pos);
    if s[p] == '[' {
      ParsedItemsCanonical(s, p + 1, []);
    } else if s[p] == '{' {
      ParsedMembersCanonical(s, p + 1, []);
    } else if s[p] != 'n' && s[p] != 't' && s[p] != 'f' && s[p] != '"' {
      ParsedNumberCanonical(s, p);
    }
  }

  lemma {:induction false} ParsedItemsCanonical(s: string, pos: nat, items: seq<Value>)
    requires CanonicalItems(items) && ParseItems(s, pos, items).Got?
    ensures Canonical(ParseItems(s, pos, items).value)
    decreases |s| + 1 - pos, 1
  {
    if pos < |s| && s[pos] != ']' {
      ParsedIsCanonical(s, pos);
      var Got(v, p) := ParseValue(s, pos);
      ParsedItemsCanonical(s, SkipSpace(s, SkipOptional(s, SkipSpace(s, p), ',')), items + [v]);
    }
  }

  lemma {:induction false} ParsedMembersCanonical(s: string, pos: nat, members: seq<Member>)
    requires SortedKeys(members) && CanonicalMembers(members) && ParseMembers(s, pos, members).Got?
    ensures Canonical(ParseMembers(s, pos, members).value)
    decreases |s| + 1 - pos, 1
  {
    if pos < |s| && s[pos] != '}' {
      ParsedIsCanonical(s, pos);
      var Got(key, p) := ParseValue(s, pos);
      var start := SkipSpace(s, SkipOptional(s, SkipSpace(s, p), ':'));
      ParsedIsCanonical(s, start);
      var Got(v, q) := ParseValue(s, start);
      InsertCanonical(members, key.text, v);
      ParsedMembersCanonical(s, SkipSpace(s, SkipOptional(s, SkipSpace(s, q), ',')), Insert(members, key.text, v));
    }
  }

  // ----- Main results -----

  /** Inside any text, the parser gives back what was generated there and consumes exactly its text. */
  lemma RoundTripInside(s: string, pos: nat, v: Value)
    requires Canonical(v) && At(s, pos, Generate(v)) && (v.Int? ==> EndsAt(s, pos + |Generate(v)|))
    ensures ParseValue(s, pos) == Got(v, pos + |Generate(v)|)
  {
    Compact(v);
    ParseDoc(s, pos, DocOf(v));
  }

  lemma {:induction false} AtStart(s: string, t: string)
    ensures At(s + t, 0, s)
  {
    AtMiddle([], s, t);
    assert [] + s + t == s + t;
  }

  lemma {:induction false} AtMiddle(a: string, s: string, t: string)
    ensures At(a + s + t, |a|, s)
    decreases |s|
  {
    if s != [] {
      AtMiddle(a + [s[0]], s[1..], t);
      assert a + [s[0]] + s[1..] + t == a + s + t;
      assert (a + s + t)[|a|] == s[0];
    }
  }

  /** Parsing undoes generating, whatever follows, for the canonical values and for no others. */
  lemma RoundTripExactly(v: Value, rest: string)
    requires v.Int? ==> rest == [] || !IsNumberChar(rest[0])
    ensures ParseText(Generate(v) + rest) == Got(v, |Generate(v)|) <==> Canonical(v)
  {
    var s := Generate(v) + rest;
    if Canonical(v) {
      AtStart(Generate(v), rest);
      RoundTripInside(s, 0, v);
    } else if ParseText(s) == Got(v, |Generate(v)|) {
      ParsedIsCanonical(s, 0);
    }
  }

  /**
   Whitespace in front of a text and between its tokens does not change what the text means; inside empty
   brackets it makes the parser throw.
   */
  lemma LayoutExactly(lead: string, d: Doc, rest: string)
    requires Spaces(lead) && Good(d) && (d.NumberDoc? ==> rest == [] || !IsNumberChar(rest[0]))
    ensures ParseText(lead + Render(d) + rest) == if Tight(d) then Got(Denote(d), |lead| + |Render(d)|) else Throws
  {
    hide ParseValue, Render, Denote, Tight, Good, Spaces, At, SkipSpace;
    var s := lead + Render(d) + rest;
    AtStart(lead, Render(d) + rest);
    assert s == lead + (Render(d) + rest);
    AtMiddle(lead, Render(d), rest);
    ParseAfterSpaces(s, 0, lead);
    ParseDoc(s, |lead|, d);
  }

  /** An object text means the map of last bindings: texts with the same last bindings parse to the same object. */
  lemma MemberOrderIsIrrelevant(d: Doc, e: Doc)
    requires d.ObjectDoc? && e.ObjectDoc? && Good(d) && Good(e) && Tight(d) && Tight(e)
    requires forall k :: LastBinding(DenoteMembers(d.members), k) == LastBinding(DenoteMembers(e.members), k)
    ensures exists v: Value ::
              ParseText(Render(d)) == Got(v, |Render(d)|) && ParseText(Render(e)) == Got(v, |Render(e)|)
  {
    hide ParseText, Render, Good, Tight, DenoteMembers, LastBinding, Assign;
    PlainText(d);
    PlainText(e);
    SameLastBindingsSameObject(DenoteMembers(d.members), DenoteMembers(e.members));
    assert Denote(d) == Denote(e);
  }

  lemma PlainText(d: Doc)
    requires Good(d) && Tight(d)
    ensures ParseText(Render(d)) == Got(Denote(d), |Render(d)|)
  {
    assert Spaces([]);
    hide *;
    LayoutExactly([], d, []);
    assert [] + Render(d) + [] == Render(d);
  }

  // ----- The imperative generator -----

  /** Every item followed by a comma. */
  ghost function WithCommas(texts: seq<string>): string {
    if texts == [] then "" else WithCommas(texts[..|texts| - 1]) + texts[|texts| - 1] + ","
  }

  /** One round of the generator's loops. */
  lemma WithCommasNext(json: string, open: string, texts: seq<string>, i: nat)
    requires i < |texts| && json == open + WithCommas(texts[..i])
    ensures json + texts[i] + "," == open + WithCommas(texts[..i + 1])
  {
    assert texts[..i + 1][..i] == texts[..i];
    assert open + WithCommas(texts[..i]) + texts[i] + "," == open + (WithCommas(texts[..i]) + texts[i] + ",");
  }

  lemma {:induction false} WithCommasFirst(texts: seq<string>)
    requires texts != []
    ensures WithCommas(texts) == texts[0] + "," + WithCommas(texts[1..])
  {
    var last := |texts| - 1;
    if last == 0 {
      assert WithCommas(texts[..0]) == "" && WithCommas(texts[1..]) == "";
      assert "" + texts[0] + "," == texts[0] + "," + "";
    } else {
      WithCommasFirst(texts[..last]);
      assert texts[..last][1..] == texts[1..][..last - 1];
      assert WithCommas(texts[1..]) == WithCommas(texts[1..][..last - 1]) + texts[last] + ",";
      assert texts[0] + "," + WithCommas(texts[..last][1..]) + texts[last] + ","
          == texts[0] + "," + (WithCommas(texts[..last][1..]) + texts[last] + ",");
    }
  }

  /** The texts with commas between them, and the closing bracket. */
  ghost function Separated(texts: seq<string>, close: string): string {
    if texts == [] then close
    else texts[0] + if |texts| == 1 then close else "," + Separated(texts[1..], close)
  }

  /** Dropping the last comma leaves the separated list. */
  lemma {:induction false} DropLastComma(texts: seq<string>, close: string)
    requires texts != []
    ensures var t := WithCommas(texts); t != [] && t[..|t| - 1] + close == Separated(texts, close)
  {
    WithCommasFirst(texts);
    var first, rest := texts[0], WithCommas(texts[1..]);
    if |texts| == 1 {
      assert rest == "";
      assert (first + "," + rest)[..|first|] == first;
    } else {
      DropLastComma(texts[1..], close);
      assert (first + "," + rest)[..|first| + |rest|] == first + "," + rest[..|rest| - 1];
      assert first + "," + rest[..|rest| - 1] + close == first + ("," + (rest[..|rest| - 1] + close));
    }
  }

  ghost function Texts(items: seq<Value>): seq<string> {
    seq(|items|, i requires 0 <= i < |items| => Generate(items[i]))
  }

  ghost function MemberTexts(members: seq<Member>): seq<string> {
    seq(|members|, i requires 0 <= i < |members| => GenerateMember(members[i]))
  }

  lemma {:induction false} ItemsSeparated(items: seq<Value>)
    ensures GenerateItems(items) == Separated(Texts(items), "]")
  {
    if items != [] {
      ItemsSeparated(items[1..]);
      assert Texts(items)[1..] == Texts(items[1..]);
    }
  }

  lemma {:induction false} MembersSeparated(members: seq<Member>)
    ensures GenerateMembers(members) == Separated(MemberTexts(members), "}")
  {
    if members != [] {
      MembersSeparated(members[1..]);
      assert MemberTexts(members)[1..] == MemberTexts(members[1..]);
    }
  }

  /** generate_array: every item with a comma, then the last comma is removed. */
  method GenerateArray(items: seq<Value>) returns (json: string)
    ensures json == Generate(Array(items))
    decreases items, 0
  {
    json := "[";
    for i := 0 to |items|
      invariant json == "[" + WithCommas(Texts(items)[..i])
    {
      var text := GenerateText(items[i]);
      WithCommasNext(json, "[", Texts(items), i);
      json := json + text + ",";
    }
    assert Texts(items)[..|items|] == Texts(items);
    ItemsSeparated(items);
    if items != [] {
      DropLastComma(Texts(items), "]");
      json := json[..|json| - 1];
    }
    json := json + "]";
  }

  /** generate_object: the same for the members in the order of the map. */
  method GenerateObject(members: seq<Member>) returns (json: string)
    ensures json == Generate(Object(members))
    decreases members, 0
  {
    json := "{";
    for i := 0 to |members|
      invariant json == "{" + WithCommas(MemberTexts(members)[..i])
    {
      var text := GenerateText(members[i].value);
      WithCommasNext(json, "{", MemberTexts(members), i);
      json := json + (Quoted(members[i].key) + (":" + text)) + ",";
    }
    assert MemberTexts(members)[..|members|] == MemberTexts(members);
    MembersSeparated(members);
    if members != [] {
      DropLastComma(MemberTexts(members), "}");
      json := json[..|json| - 1];
    }
    json := json + "}";
  }

  method GenerateText(v: Value) returns (json: string)
    ensures json == Generate(v)
    decreases v, 1
  {
    match v {
      case Null => json := "null";
      case Bool(b) => json := if b then "true" else "false";
      case Int(n) => json := if n < 0 then "-" + ToDigits(-n) else ToDigits(n);
      case String(text) => json := "\"" + (text + "\"");
      case Array(items) => json := GenerateArray(items);
      case Object(members) => json := GenerateObject(members);
    }
  }
}
