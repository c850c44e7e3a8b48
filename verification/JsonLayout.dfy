/**
 Well-formed JSON texts with arbitrary whitespace (RFC 8259, section 2), their meaning, and the proof
 that the parser finds that meaning.
 */
module JsonLayout {
  import opened Json
  import opened JsonParsing

  /**
   A text as a tree. Spaces stand behind the token they follow; `open` is what follows an opening bracket.
   */
  datatype Doc =
    | NullDoc
    | BoolDoc(b: bool)
    | NumberDoc(digits: string)
    | StringDoc(text: string)
    | ArrayDoc(open: string, items: seq<ItemDoc>)
    | ObjectDoc(open: string, members: seq<MemberDoc>)

  datatype ItemDoc = ItemDoc(doc: Doc, after: string, afterComma: string)

  datatype MemberDoc = MemberDoc(key: string, afterKey: string, afterColon: string, doc: Doc, after: string,
                                 afterComma: string)

  function Render(d: Doc): string
    decreases d, 2
  {
    match d
    case NullDoc => "null"
    case BoolDoc(b) => if b then "true" else "false"
    case NumberDoc(digits) => digits
    case StringDoc(text) => Quoted(text)
    case ArrayDoc(open, items) => "[" + (open + RenderItems(items))
    case ObjectDoc(open, members) => "{" + (open + RenderMembers(members))
  }

  /** The items and the closing bracket. */
  function RenderItems(items: seq<ItemDoc>): string
    decreases items, 1
  {
    if items == [] then "]" else Render(items[0].doc) + (items[0].after + ItemsTail(items))
  }

  function ItemsTail(items: seq<ItemDoc>): string
    requires items != []
    decreases items, 0
  {
    if |items| == 1 then "]" else "," + (items[0].afterComma + RenderItems(items[1..]))
  }

  function RenderMembers(members: seq<MemberDoc>): string
    decreases members, 1
  {
    if members == [] then "}"
    else
      var m := members[0];
      Quoted(m.key) + (m.afterKey + (":" + (m.afterColon + (Render(m.doc) + (m.after + MembersTail(members))))))
  }

  function MembersTail(members: seq<MemberDoc>): string
    requires members != []
    decreases members, 0
  {
    if |members| == 1 then "}" else "," + (members[0].afterComma + RenderMembers(members[1..]))
  }

  function Quoted(text: string): string {
    "\"" + (text + "\"")
  }

  predicate Spaces(s: string) {
    forall i | 0 <= i < |s| :: IsSpace(s[i])
  }

  predicate Digits(s: string) {
    s != [] && forall i | 0 <= i < |s| :: IsDigit(s[i])
  }

  /** The covered texts: numbers are natural and fit an int, strings have no quote in them. */
  predicate Good(d: Doc) {
    match d
    case NullDoc => true
    case BoolDoc(_) => true
    case NumberDoc(digits) => Digits(digits) && Number(digits) <= INT_MAX
    case StringDoc(text) => '"' !in text
    case ArrayDoc(open, items) => Spaces(open) && GoodItems(items)
    case ObjectDoc(open, members) => Spaces(open) && GoodMembers(members)
  }

  predicate GoodItems(items: seq<ItemDoc>) {
    items == [] ||
    (Good(items[0].doc) && Spaces(items[0].after) && Spaces(items[0].afterComma) && GoodItems(items[1..]))
  }

  predicate GoodMembers(members: seq<MemberDoc>) {
    members == [] ||
    (var m := members[0];
     '"' !in m.key && Spaces(m.afterKey) && Spaces(m.afterColon)
     && Good(m.doc) && Spaces(m.after) && Spaces(m.afterComma)
     && GoodMembers(members[1..]))
  }

  /** No whitespace inside an empty pair of brackets. */
  predicate Tight(d: Doc) {
    match d
    case ArrayDoc(open, items) => (items == [] ==> open == []) && TightItems(items)
    case ObjectDoc(open, members) => (members == [] ==> open == []) && TightMembers(members)
    case _ => true
  }

  predicate TightItems(items: seq<ItemDoc>) {
    items == [] || (Tight(items[0].doc) && TightItems(items[1..]))
  }

  predicate TightMembers(members: seq<MemberDoc>) {
    members == [] || (Tight(members[0].doc) && TightMembers(members[1..]))
  }

  /** The value a text stands for; in an object the last binding of a key counts. */
  function Denote(d: Doc): Value {
    match d
    case NullDoc => Null
    case BoolDoc(b) => Bool(b)
    case NumberDoc(digits) => Int(Number(digits))
    case StringDoc(text) => String(text)
    case ArrayDoc(_, items) => Array(DenoteItems(items))
    case ObjectDoc(_, members) => Object(Assign([], DenoteMembers(members)))
  }

  function DenoteItems(items: seq<ItemDoc>): seq<Value> {
    if items == [] then [] else [Denote(items[0].doc)] + DenoteItems(items[1..])
  }

  function DenoteMembers(members: seq<MemberDoc>): seq<Member> {
    if members == [] then [] else [Member(members[0].key, Denote(members[0].doc))] + DenoteMembers(members[1..])
  }

  // ----- Texts inside texts -----

  /** The text t stands in s at pos. */
  ghost predicate At(s: string, pos: nat, t: string)
    decreases |t|
  {
    if t == [] then pos <= |s| else pos < |s| && s[pos] == t[0] && At(s, pos + 1, t[1..])
  }

  lemma {:induction false} AtSplit(s: string, pos: nat, a: string, b: string)
    requires At(s, pos, a + b)
    ensures At(s, pos, a) && At(s, pos + |a|, b)
    decreases |a|
  {
    if a == [] {
      assert a + b == b;
      AtFits(s, pos, b);
    } else {
      assert (a + b)[1..] == a[1..] + b;
      AtSplit(s, pos + 1, a[1..], b);
    }
  }

  lemma {:induction false} AtFits(s: string, pos: nat, t: string)
    requires At(s, pos, t)
    ensures pos + |t| <= |s| && s[pos..pos + |t|] == t
    decreases |t|
  {
    if t != [] {
      AtFits(s, pos + 1, t[1..]);
      assert s[pos..pos + |t|] == [s[pos]] + s[pos + 1..pos + |t|];
    }
  }

  lemma AtChar(s: string, pos: nat, t: string, i: nat)
    requires At(s, pos, t) && i < |t|
    ensures pos + i < |s| && s[pos + i] == t[i]
  {
    AtFits(s, pos, t);
    assert s[pos..pos + |t|][i] == s[pos + i];
  }

  lemma {:induction false} SkipSpaces(s: string, pos: nat, spaces: string)
    requires At(s, pos, spaces) && Spaces(spaces)
    ensures SkipSpace(s, pos) == SkipSpace(s, pos + |spaces|)
    decreases |spaces|
  {
    if spaces != [] {
      AtChar(s, pos, spaces, 0);
      assert spaces == [spaces[0]] + spaces[1..];
      AtSplit(s, pos, [spaces[0]], spaces[1..]);
      SkipSpaces(s, pos + 1, spaces[1..]);
    }
  }

  predicate NoSpaceAt(s: string, pos: nat) {
    pos >= |s| || !IsSpace(s[pos])
  }

  /** A number is not continued by the character behind it. */
  predicate EndsAt(s: string, pos: nat) {
    pos >= |s| || !IsNumberChar(s[pos])
  }

  /** ParseValue itself skips whitespace in front. */
  lemma ParseAfterSpaces(s: string, pos: nat, spaces: string)
    requires At(s, pos, spaces) && Spaces(spaces)
    ensures ParseValue(s, pos) == ParseValue(s, pos + |spaces|)
  {
    SkipSpaces(s, pos, spaces);
  }

  /** After a token: spaces, the expected separator, spaces again, then something that is no space. */
  lemma SkipSeparator(s: string, pos: nat, before: string, c: char, after: string)
    requires At(s, pos, before) && At(s, pos + |before|, [c]) && At(s, pos + |before| + 1, after)
    requires Spaces(before) && Spaces(after) && !IsSpace(c) && NoSpaceAt(s, pos + |before| + 1 + |after|)
    ensures SkipSpace(s, SkipOptional(s, SkipSpace(s, pos), c)) == pos + |before| + 1 + |after|
  {
    SkipToToken(s, pos, before, c);
    var p := pos + |before| + 1;
    SkipSpaces(s, p, after);
    assert SkipSpace(s, p + |after|) == p + |after|;
  }

  lemma SkipToToken(s: string, pos: nat, before: string, c: char)
    requires At(s, pos, before) && At(s, pos + |before|, [c]) && Spaces(before) && !IsSpace(c)
    ensures SkipSpace(s, pos) == pos + |before| && pos + |before| < |s| && s[pos + |before|] == c
  {
    AtChar(s, pos + |before|, [c], 0);
    SkipSpaces(s, pos, before);
  }

  /** After the last item: spaces, no comma, the closing bracket. */
  lemma SkipToBracket(s: string, pos: nat, before: string, c: char)
    requires At(s, pos, before) && At(s, pos + |before|, [c]) && Spaces(before) && !IsSpace(c) && c != ','
    ensures SkipSpace(s, SkipOptional(s, SkipSpace(s, pos), ',')) == pos + |before| && s[pos + |before|] == c
              && pos + |before| < |s|
  {
    SkipToToken(s, pos, before, c);
  }

  // ----- Leaves -----

  lemma {:induction false} NumberEndAt(s: string, pos: nat, digits: string)
    requires At(s, pos, digits) && (forall i | 0 <= i < |digits| :: IsDigit(digits[i])) && EndsAt(s, pos + |digits|)
    ensures NumberEnd(s, pos) == pos + |digits|
    decreases |digits|
  {
    if digits != [] {
      AtChar(s, pos, digits, 0);
      assert digits == [digits[0]] + digits[1..];
      AtSplit(s, pos, [digits[0]], digits[1..]);
      NumberEndAt(s, pos + 1, digits[1..]);
    }
  }

  lemma ParseNumberDoc(s: string, pos: nat, digits: string)
    requires At(s, pos, digits) && Digits(digits) && Number(digits) <= INT_MAX && EndsAt(s, pos + |digits|)
    ensures ParseValue(s, pos) == Got(Int(Number(digits)), pos + |digits|)
  {
    NumberEndAt(s, pos, digits);
    AtChar(s, pos, digits, 0);
    AtFits(s, pos, digits);
  }

  lemma {:induction false} QuoteAt(s: string, pos: nat, text: string)
    requires At(s, pos, text + "\"") && '"' !in text
    ensures QuoteAfter(s, pos) == pos + |text|
    decreases |text|
  {
    if text == [] {
      AtChar(s, pos, text + "\"", 0);
    } else {
      AtChar(s, pos, text + "\"", 0);
      assert text + "\"" == [text[0]] + (text[1..] + "\"");
      AtSplit(s, pos, [text[0]], text[1..] + "\"");
      QuoteAt(s, pos + 1, text[1..]);
    }
  }

  lemma ParseStringDoc(s: string, pos: nat, text: string)
    requires At(s, pos, Quoted(text)) && '"' !in text
    ensures ParseValue(s, pos) == Got(String(text), pos + |Quoted(text)|)
  {
    AtSplit(s, pos, "\"", text + "\"");
    AtChar(s, pos, "\"", 0);
    QuoteAt(s, pos + 1, text);
    AtSplit(s, pos + 1, text, "\"");
    AtFits(s, pos + 1, text);
    AtChar(s, pos + 1 + |text|, "\"", 0);
  }

  lemma ParseWordDoc(s: string, pos: nat, d: Doc)
    requires At(s, pos, Render(d)) && (d.NullDoc? || d.BoolDoc?)
    ensures ParseValue(s, pos) == Got(Denote(d), pos + |Render(d)|)
  {
    AtChar(s, pos, Render(d), 0);
    AtFits(s, pos, Render(d));
  }

  /** A text starts with no space and with no closing bracket. */
  lemma RenderStart(d: Doc)
    requires Good(d)
    ensures Render(d) != [] && !IsSpace(Render(d)[0]) && Render(d)[0] != ']' && Render(d)[0] != '}'
  {
    match d
    case NumberDoc(digits) => assert IsDigit(digits[0]);
    case StringDoc(text) => assert Quoted(text)[0] == '"';
    case _ =>
  }

  // ----- Nesting -----

  function Size(d: Doc): nat {
    match d
    case ArrayDoc(_, items) => 1 + SizeItems(items)
    case ObjectDoc(_, members) => 1 + SizeMembers(members)
    case _ => 1
  }

  function SizeItems(items: seq<ItemDoc>): nat {
    if items == [] then 0 else 1 + Size(items[0].doc) + SizeItems(items[1..])
  }

  function SizeMembers(members: seq<MemberDoc>): nat {
    if members == [] then 0 else 1 + Size(members[0].doc) + SizeMembers(members[1..])
  }

  /** What the parser makes of a text that stands at the cursor. */
  function Expected(d: Doc, pos: nat): Outcome<Value> {
    if Tight(d) then Got(Denote(d), pos + |Render(d)|) else Throws
  }

  /**
   Parsing a well-formed text gives its meaning and stops right behind it, or throws if an empty bracket has
   spaces in it.
   */
  lemma {:induction false} ParseDoc(s: string, pos: nat, d: Doc)
    requires Good(d) && At(s, pos, Render(d)) && (d.NumberDoc? ==> EndsAt(s, pos + |Render(d)|))
    ensures ParseValue(s, pos) == Expected(d, pos)
    decreases Size(d), 0
  {
    match d
    case NullDoc => ParseWordDoc(s, pos, d);
    case BoolDoc(_) => ParseWordDoc(s, pos, d);
    case NumberDoc(digits) => ParseNumberDoc(s, pos, digits);
    case StringDoc(text) => ParseStringDoc(s, pos, text);
    case ArrayDoc(open, items) => ParseArrayDoc(s, pos, open, items);
    case ObjectDoc(open, members) => ParseObjectDoc(s, pos, open, members);
  }

  lemma Opening(s: string, pos: nat, bracket: string, open: string, rest: string)
    requires At(s, pos, bracket + (open + rest))
    ensures At(s, pos, bracket) && At(s, pos + |bracket|, open) && At(s, pos + |bracket| + |open|, rest)
  {
    AtSplit(s, pos, bracket, open + rest);
    AtSplit(s, pos + |bracket|, open, rest);
  }

  lemma {:induction false} ParseArrayDoc(s: string, pos: nat, open: string, items: seq<ItemDoc>)
    requires Spaces(open) && GoodItems(items) && At(s, pos, "[" + (open + RenderItems(items)))
    ensures ParseValue(s, pos) ==
      if (items == [] ==> open == []) && TightItems(items)
      then Got(Array(DenoteItems(items)), pos + 1 + |open| + |RenderItems(items)|) else Throws
    decreases SizeItems(items), 2
  {
    hide *;
    Opening(s, pos, "[", open, RenderItems(items));
    OpenArray(s, pos);
    NoItems();
    if items == [] {
      EmptyBrackets(s, pos + 1, open, ']');
    } else {
      OpenItems(s, pos + 1, open, items);
      ParseItemsDoc(s, pos + 1 + |open|, items, []);
      assert [] + DenoteItems(items) == DenoteItems(items);
    }
  }

  lemma NoItems()
    ensures DenoteItems([]) == [] && RenderItems([]) == "]" && TightItems([])
  {
  }

  lemma OpenArray(s: string, pos: nat)
    requires At(s, pos, "[")
    ensures ParseValue(s, pos) == ParseItems(s, pos + 1, [])
  {
    AtChar(s, pos, "[", 0);
  }

  lemma {:induction false} ParseObjectDoc(s: string, pos: nat, open: string, members: seq<MemberDoc>)
    requires Spaces(open) && GoodMembers(members) && At(s, pos, "{" + (open + RenderMembers(members)))
    ensures ParseValue(s, pos) ==
      if (members == [] ==> open == []) && TightMembers(members)
      then Got(Object(Assign([], DenoteMembers(members))), pos + 1 + |open| + |RenderMembers(members)|) else Throws
    decreases SizeMembers(members), 3
  {
    hide *;
    Opening(s, pos, "{", open, RenderMembers(members));
    OpenObject(s, pos);
    NoMembers();
    if members == [] {
      EmptyBrackets(s, pos + 1, open, '}');
    } else {
      OpenMembers(s, pos + 1, open, members);
      ParseMembersDoc(s, pos + 1 + |open|, members, []);
    }
  }

  lemma NoMembers()
    ensures Assign([], DenoteMembers([])) == [] && RenderMembers([]) == "}" && TightMembers([])
  {
  }

  lemma OpenObject(s: string, pos: nat)
    requires At(s, pos, "{")
    ensures ParseValue(s, pos) == ParseMembers(s, pos + 1, [])
  {
    AtChar(s, pos, "{", 0);
  }

  /**
   `]` or `}` directly behind the opening bracket ends the loop; behind spaces it is taken for a value, and
   there is none.
   */
  lemma EmptyBrackets(s: string, pos: nat, open: string, close: char)
    requires At(s, pos, open) && At(s, pos + |open|, [close]) && Spaces(open) && (close == ']' || close == '}')
    ensures close == ']' ==> ParseItems(s, pos, []) == if open == [] then Got(Array([]), pos + 1) else Throws
    ensures close == '}' ==> ParseMembers(s, pos, []) == if open == [] then Got(Object([]), pos + 1) else Throws
  {
    var p := pos + |open|;
    SkipToToken(s, pos, open, close);
    if open != [] {
      AtChar(s, pos, open, 0);
      assert NumberEnd(s, p) == p;
      assert s[p..p] == [];
      assert ParseValue(s, pos) == Nullopt;
    }
  }

  /** Spaces behind the opening bracket of a nonempty array do no harm. */
  lemma OpenItems(s: string, pos: nat, open: string, items: seq<ItemDoc>)
    requires items != [] && GoodItems(items) && Spaces(open)
    requires At(s, pos, open) && At(s, pos + |open|, RenderItems(items))
    ensures ParseItems(s, pos, []) == ParseItems(s, pos + |open|, [])
  {
    RenderStart(items[0].doc);
    AtChar(s, pos + |open|, RenderItems(items), 0);
    ParseAfterSpaces(s, pos, open);
    if open != [] { AtChar(s, pos, open, 0); }
  }

  lemma OpenMembers(s: string, pos: nat, open: string, members: seq<MemberDoc>)
    requires members != [] && Spaces(open) && At(s, pos, open) && At(s, pos + |open|, RenderMembers(members))
    ensures ParseMembers(s, pos, []) == ParseMembers(s, pos + |open|, [])
  {
    assert RenderMembers(members)[0] == '"';
    AtChar(s, pos + |open|, RenderMembers(members), 0);
    ParseAfterSpaces(s, pos, open);
    if open != [] { AtChar(s, pos, open, 0); }
  }

  /** Behind a value stand spaces, a comma or a bracket, none of which continues a number. */
  lemma ValueEnds(s: string, pos: nat, spaces: string, rest: string)
    requires At(s, pos, spaces + rest) && Spaces(spaces) && rest != []
               && (rest[0] == ',' || rest[0] == ']' || rest[0] == '}')
    ensures EndsAt(s, pos)
  {
    AtChar(s, pos, spaces + rest, 0);
  }

  /** How the text of some items begins. */
  lemma ItemsText(items: seq<ItemDoc>)
    requires items != []
    ensures RenderItems(items) == Render(items[0].doc) + (items[0].after + ItemsTail(items))
    ensures ItemsTail(items) != [] && (ItemsTail(items)[0] == ',' || ItemsTail(items)[0] == ']')
    ensures GoodItems(items) ==> Good(items[0].doc) && Spaces(items[0].after)
    ensures Size(items[0].doc) < SizeItems(items)
  {
  }

  /** The first item of the rest of an array. */
  lemma {:induction false} ParseFirstItem(s: string, pos: nat, items: seq<ItemDoc>)
    requires items != [] && GoodItems(items) && At(s, pos, RenderItems(items))
    ensures pos < |s| && s[pos] != ']'
    ensures ParseValue(s, pos) == Expected(items[0].doc, pos)
    ensures var p := pos + |Render(items[0].doc)|;
            At(s, p, items[0].after) && At(s, p + |items[0].after|, ItemsTail(items))
    decreases SizeItems(items), 0
  {
    ItemsText(items);
    hide *;
    var i := items[0];
    AtSplit(s, pos, Render(i.doc), i.after + ItemsTail(items));
    var p := pos + |Render(i.doc)|;
    ValueEnds(s, p, i.after, ItemsTail(items));
    AtSplit(s, p, i.after, ItemsTail(items));
    RenderStart(i.doc);
    AtChar(s, pos, Render(i.doc), 0);
    ParseDoc(s, pos, i.doc);
  }

  /** The separator behind an item that is not the last. */
  lemma NextItem(s: string, p: nat, items: seq<ItemDoc>)
    requires |items| > 1 && GoodItems(items) && At(s, p, items[0].after)
               && At(s, p + |items[0].after|, ItemsTail(items))
    ensures var q := p + |items[0].after| + 1 + |items[0].afterComma|;
            SkipSpace(s, SkipOptional(s, SkipSpace(s, p), ',')) == q && At(s, q, RenderItems(items[1..]))
  {
    var i := items[0];
    var rest := RenderItems(items[1..]);
    AtSplit(s, p + |i.after|, ",", i.afterComma + rest);
    AtSplit(s, p + |i.after| + 1, i.afterComma, rest);
    assert GoodItems(items[1..]);
    RenderStart(items[1..][0].doc);
    hide At, SkipSpace, Good;
    AtChar(s, p + |i.after| + 1 + |i.afterComma|, rest, 0);
    SkipSeparator(s, p, i.after, ',', i.afterComma);
  }

  lemma ItemStep(s: string, pos: nat, done: seq<Value>, v: Value, p: nat, next: nat)
    requires pos < |s| && s[pos] != ']' && ParseValue(s, pos) == Got(v, p)
    requires SkipSpace(s, SkipOptional(s, SkipSpace(s, p), ',')) == next
    ensures ParseItems(s, pos, done) == ParseItems(s, next, done + [v])
  {
  }

  lemma ItemFails(s: string, pos: nat, done: seq<Value>)
    requires pos < |s| && s[pos] != ']' && ParseValue(s, pos) == Throws
    ensures ParseItems(s, pos, done) == Throws
  {
  }

  /** The last item: its closing bracket ends the loop. */
  lemma OnlyItem(s: string, pos: nat, done: seq<Value>, v: Value, p: nat, after: string)
    requires pos < |s| && s[pos] != ']' && ParseValue(s, pos) == Got(v, p)
    requires Spaces(after) && At(s, p, after) && At(s, p + |after|, "]")
    ensures ParseItems(s, pos, done) == Got(Array(done + [v]), p + |after| + 1)
  {
    hide ParseValue, SkipSpace, Spaces;
    SkipToBracket(s, p, after, ']');
    ItemStep(s, pos, done, v, p, p + |after|);
  }

  lemma FirstItem(items: seq<ItemDoc>)
    requires items != []
    ensures DenoteItems(items) == [Denote(items[0].doc)] + DenoteItems(items[1..])
    ensures TightItems(items) <==> Tight(items[0].doc) && TightItems(items[1..])
    ensures |RenderItems(items)| == |Render(items[0].doc)| + |items[0].after|
      + if |items| == 1 then 1 else 1 + |items[0].afterComma| + |RenderItems(items[1..])|
    ensures |items| == 1 ==>
              DenoteItems(items) == [Denote(items[0].doc)] && TightItems(items[1..]) && ItemsTail(items) == "]"
    ensures GoodItems(items) ==> Spaces(items[0].after) && GoodItems(items[1..])
  {
  }

  lemma {:induction false} ParseItemsDoc(s: string, pos: nat, items: seq<ItemDoc>, done: seq<Value>)
    requires items != [] && GoodItems(items) && At(s, pos, RenderItems(items))
    ensures ParseItems(s, pos, done) ==
      if TightItems(items) then Got(Array(done + DenoteItems(items)), pos + |RenderItems(items)|) else Throws
    decreases SizeItems(items), 1
  {
    hide ParseItems, ParseValue, RenderItems, ItemsTail, DenoteItems, TightItems, Render, Denote, Tight;
    hide GoodItems, Good, At, Spaces, SkipSpace, SkipOptional;
    ParseFirstItem(s, pos, items);
    FirstItem(items);
    var i := items[0];
    var v := Denote(i.doc);
    var p := pos + |Render(i.doc)|;
    if !Tight(i.doc) {
      ItemFails(s, pos, done);
    } else if |items| == 1 {
      OnlyItem(s, pos, done, v, p, i.after);
    } else {
      NextItem(s, p, items);
      var next := p + |i.after| + 1 + |i.afterComma|;
      ItemStep(s, pos, done, v, p, next);
      ParseItemsDoc(s, next, items[1..], done + [v]);
      assert done + [v] + DenoteItems(items[1..]) == done + DenoteItems(items);
    }
  }

  /** The first member of the rest of an object: its key and where its value begins. */
  lemma ParseFirstKey(s: string, pos: nat, members: seq<MemberDoc>) returns (q: nat)
    requires members != [] && GoodMembers(members) && At(s, pos, RenderMembers(members))
    ensures pos < |s| && s[pos] != '}'
    ensures var m := members[0];
            ParseValue(s, pos) == Got(String(m.key), pos + |Quoted(m.key)|)
            && SkipSpace(s, SkipOptional(s, SkipSpace(s, pos + |Quoted(m.key)|), ':')) == q
            && q == pos + |Quoted(m.key)| + |m.afterKey| + 1 + |m.afterColon|
            && At(s, q, Render(m.doc) + (m.after + MembersTail(members)))
  {
    hide ParseValue, At, SkipSpace, Render, MembersTail, Good, Spaces;
    var m := members[0];
    var text := Render(m.doc) + (m.after + MembersTail(members));
    AtSplit(s, pos, Quoted(m.key), m.afterKey + (":" + (m.afterColon + text)));
    var p := pos + |Quoted(m.key)|;
    AtSplit(s, p, m.afterKey, ":" + (m.afterColon + text));
    AtSplit(s, p + |m.afterKey|, ":", m.afterColon + text);
    AtSplit(s, p + |m.afterKey| + 1, m.afterColon, text);
    q := p + |m.afterKey| + 1 + |m.afterColon|;
    AtChar(s, pos, Quoted(m.key), 0);
    ParseStringDoc(s, pos, m.key);
    RenderStart(m.doc);
    AtChar(s, q, text, 0);
    SkipSeparator(s, p, m.afterKey, ':', m.afterColon);
  }

  lemma {:induction false} ParseFirstMember(s: string, q: nat, members: seq<MemberDoc>)
    requires members != [] && GoodMembers(members)
    requires At(s, q, Render(members[0].doc) + (members[0].after + MembersTail(members)))
    ensures ParseValue(s, q) == Expected(members[0].doc, q)
    ensures var r := q + |Render(members[0].doc)|;
            At(s, r, members[0].after) && At(s, r + |members[0].after|, MembersTail(members))
    decreases SizeMembers(members), 0
  {
    var m := members[0];
    AtSplit(s, q, Render(m.doc), m.after + MembersTail(members));
    var r := q + |Render(m.doc)|;
    ValueEnds(s, r, m.after, MembersTail(members));
    AtSplit(s, r, m.after, MembersTail(members));
    ParseDoc(s, q, m.doc);
  }

  /** The separator behind a member that is not the last. */
  lemma NextMember(s: string, r: nat, members: seq<MemberDoc>)
    requires |members| > 1 && GoodMembers(members) && At(s, r, members[0].after)
               && At(s, r + |members[0].after|, MembersTail(members))
    ensures var t := r + |members[0].after| + 1 + |members[0].afterComma|;
            SkipSpace(s, SkipOptional(s, SkipSpace(s, r), ',')) == t && At(s, t, RenderMembers(members[1..]))
  {
    var m := members[0];
    var rest := RenderMembers(members[1..]);
    AtSplit(s, r + |m.after|, ",", m.afterComma + rest);
    AtSplit(s, r + |m.after| + 1, m.afterComma, rest);
    assert rest[0] == '"';
    hide At, SkipSpace, RenderMembers, Good;
    AtChar(s, r + |m.after| + 1 + |m.afterComma|, rest, 0);
    SkipSeparator(s, r, m.after, ',', m.afterComma);
  }

  lemma MemberStep(s: string, pos: nat, done: seq<Member>, key: string, p: nat, q: nat, v: Value, r: nat, next: nat)
    requires pos < |s| && s[pos] != '}' && ParseValue(s, pos) == Got(String(key), p)
    requires SkipSpace(s, SkipOptional(s, SkipSpace(s, p), ':')) == q && ParseValue(s, q) == Got(v, r)
    requires SkipSpace(s, SkipOptional(s, SkipSpace(s, r), ',')) == next
    ensures ParseMembers(s, pos, done) == ParseMembers(s, next, Insert(done, key, v))
  {
  }

  lemma LastMember(s: string, r: nat, after: string, done: seq<Member>)
    requires At(s, r, after) && At(s, r + |after|, "}") && Spaces(after)
    ensures SkipSpace(s, SkipOptional(s, SkipSpace(s, r), ',')) == r + |after|
    ensures ParseMembers(s, r + |after|, done) == Got(Object(done), r + |after| + 1)
  {
    SkipToBracket(s, r, after, '}');
  }

  lemma MemberFails(s: string, pos: nat, done: seq<Member>, key: string, p: nat, q: nat)
    requires pos < |s| && s[pos] != '}' && ParseValue(s, pos) == Got(String(key), p)
    requires SkipSpace(s, SkipOptional(s, SkipSpace(s, p), ':')) == q && ParseValue(s, q) == Throws
    ensures ParseMembers(s, pos, done) == Throws
  {
  }

  /** The first member: where its key ends, where its value begins (q) and ends (r), and what follows. */
  lemma {:induction false} ParseFirst(s: string, pos: nat, members: seq<MemberDoc>) returns (q: nat, r: nat)
    requires members != [] && GoodMembers(members) && At(s, pos, RenderMembers(members))
    ensures var m := members[0];
            && pos < |s| && s[pos] != '}' && ParseValue(s, pos) == Got(String(m.key), pos + |Quoted(m.key)|)
            && SkipSpace(s, SkipOptional(s, SkipSpace(s, pos + |Quoted(m.key)|), ':')) == q
            && ParseValue(s, q) == Expected(m.doc, q) && r == q + |Render(m.doc)|
            && At(s, r, m.after) && At(s, r + |m.after|, MembersTail(members))
    ensures r + |members[0].after| + |MembersTail(members)| == pos + |RenderMembers(members)|
    decreases SizeMembers(members), 1
  {
    hide ParseValue, At, SkipSpace, Good, Expected;
    q := ParseFirstKey(s, pos, members);
    ParseFirstMember(s, q, members);
    r := q + |Render(members[0].doc)|;
  }

  /** The key and the value of a member were read; it is the last one. */
  lemma OnlyMember(s: string, pos: nat, done: seq<Member>, m: MemberDoc, q: nat, r: nat)
    requires Spaces(m.after) && At(s, r, m.after) && At(s, r + |m.after|, "}")
    requires pos < |s| && s[pos] != '}' && ParseValue(s, pos) == Got(String(m.key), pos + |Quoted(m.key)|)
    requires SkipSpace(s, SkipOptional(s, SkipSpace(s, pos + |Quoted(m.key)|), ':')) == q
               && ParseValue(s, q) == Got(Denote(m.doc), r)
    ensures ParseMembers(s, pos, done) == Got(Object(Insert(done, m.key, Denote(m.doc))), r + |m.after| + 1)
  {
    hide ParseMembers, ParseValue;
    LastMember(s, r, m.after, Insert(done, m.key, Denote(m.doc)));
    MemberStep(s, pos, done, m.key, pos + |Quoted(m.key)|, q, Denote(m.doc), r, r + |m.after|);
  }

  /** The key and the value of a member were read; another member follows. */
  lemma MemberAndMore(s: string, pos: nat, done: seq<Member>, members: seq<MemberDoc>, q: nat, r: nat)
      returns (next: nat)
    requires |members| > 1 && GoodMembers(members)
    requires At(s, r, members[0].after) && At(s, r + |members[0].after|, MembersTail(members))
    requires pos < |s| && s[pos] != '}'
               && ParseValue(s, pos) == Got(String(members[0].key), pos + |Quoted(members[0].key)|)
    requires SkipSpace(s, SkipOptional(s, SkipSpace(s, pos + |Quoted(members[0].key)|), ':')) == q
    requires ParseValue(s, q) == Got(Denote(members[0].doc), r)
    ensures ParseMembers(s, pos, done) == ParseMembers(s, next, Insert(done, members[0].key, Denote(members[0].doc)))
    ensures At(s, next, RenderMembers(members[1..]))
    ensures next + |RenderMembers(members[1..])| == r + |members[0].after| + |MembersTail(members)|
  {
    hide ParseMembers, ParseValue;
    var m := members[0];
    NextMember(s, r, members);
    next := r + |m.after| + 1 + |m.afterComma|;
    MemberStep(s, pos, done, m.key, pos + |Quoted(m.key)|, q, Denote(m.doc), r, next);
  }

  lemma {:induction false} ParseMembersDoc(s: string, pos: nat, members: seq<MemberDoc>, done: seq<Member>)
    requires members != [] && GoodMembers(members) && At(s, pos, RenderMembers(members))
    ensures ParseMembers(s, pos, done) ==
      if TightMembers(members)
      then Got(Object(Assign(done, DenoteMembers(members))), pos + |RenderMembers(members)|) else Throws
    decreases SizeMembers(members), 2
  {
    hide ParseMembers, ParseValue, RenderMembers, Render, Insert, SkipSpace;
    var m := members[0];
    var q, r := ParseFirst(s, pos, members);
    if !Tight(m.doc) {
      MemberFails(s, pos, done, m.key, pos + |Quoted(m.key)|, q);
    } else if |members| == 1 {
      OnlyMember(s, pos, done, m, q, r);
      AssignOnly(done, members);
    } else {
      var next := MemberAndMore(s, pos, done, members, q, r);
      ParseMembersDoc(s, next, members[1..], Insert(done, m.key, Denote(m.doc)));
      AssignFirst(done, members);
    }
  }

  lemma AssignOnly(done: seq<Member>, members: seq<MemberDoc>)
    requires |members| == 1
    ensures Assign(done, DenoteMembers(members)) == Insert(done, members[0].key, Denote(members[0].doc))
    ensures TightMembers(members) == Tight(members[0].doc)
  {
    assert members[1..] == [] && DenoteMembers([]) == [];
    AssignFirst(done, members);
  }

  lemma AssignFirst(done: seq<Member>, members: seq<MemberDoc>)
    requires members != []
    ensures Assign(done, DenoteMembers(members)) ==
      Assign(Insert(done, members[0].key, Denote(members[0].doc)), DenoteMembers(members[1..]))
  {
    assert DenoteMembers(members)[1..] == DenoteMembers(members[1..]);
  }
}
