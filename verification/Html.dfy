/** The escaping HTML builder of local output documents, its byte cap, and a parser that shows that
    nothing written as text is ever read as markup. Characters are Unicode scalar values. */
module Html {
  import opened Domain

  const MAX_BYTES: nat := 2 * 1024 * 1024

  /** The number of bytes of a character in UTF-8. */
  function Width(c: char): nat {
    if c as int < 0x80 then 1 else if c as int < 0x800 then 2 else if c as int < 0x10000 then 3 else 4
  }

  function Size(s: string): nat {
    if s == "" then 0 else Width(s[0]) + Size(s[1..])
  }

  /** The bytes of a character in UTF-8 (section 3 of RFC 3629): groups of six bits, the last one last. */
  function Utf8(c: char): seq<nat> {
    var n := c as nat;
    var (second, third, fourth) := (n / 0x40, n / 0x40 / 0x40, n / 0x40 / 0x40 / 0x40);
    if n < 0x80 then [n]
    else if n < 0x800 then [0xC0 + second, 0x80 + n % 0x40]
    else if n < 0x10000 then [0xE0 + third, 0x80 + second % 0x40, 0x80 + n % 0x40]
    else [0xF0 + fourth, 0x80 + third % 0x40, 0x80 + second % 0x40, 0x80 + n % 0x40]
  }

  function Utf8Text(s: string): seq<nat> {
    if s == "" then [] else Utf8(s[0]) + Utf8Text(s[1..])
  }

  /** How many bytes follow a leading byte, and the bits that it carries. */
  function Lead(byte: nat): Option<(nat, nat)> {
    if byte < 0x80 then Some((0, byte))
    else if 0xC0 <= byte < 0xE0 then Some((1, byte - 0xC0))
    else if 0xE0 <= byte < 0xF0 then Some((2, byte - 0xE0))
    else if 0xF0 <= byte < 0xF8 then Some((3, byte - 0xF0))
    else None
  }

  /** The number whose remaining six-bit groups are in `bytes`. */
  function Continued(bits: nat, bytes: seq<nat>): nat
    decreases bytes
  {
    if bytes == [] then bits else Continued(bits * 0x40 + bytes[0] % 0x40, bytes[1..])
  }

  /** The bytes are one character: the leading one says how many continuation bytes follow. */
  predicate ReadsAs(bytes: seq<nat>, n: nat) {
    && bytes != [] && (forall i :: 0 < i < |bytes| ==> 0x80 <= bytes[i] < 0xC0)
    && Lead(bytes[0]).Some? && Lead(bytes[0]).value.0 == |bytes| - 1
    && Continued(Lead(bytes[0]).value.1, bytes[1..]) == n
  }

  /** Every character is read back from its bytes, which are as many as its width. */
  lemma Utf8ReadsBack(c: char)
    ensures |Utf8(c)| == Width(c) && ReadsAs(Utf8(c), c as nat)
  {
    var n := c as nat;
    var second, third := n / 0x40, n / 0x40 / 0x40;
    if n >= 0x10000 {
      ThreeFollow(third / 0x40, third % 0x40, second % 0x40, n % 0x40);
    } else if n >= 0x800 {
      TwoFollow(third, second % 0x40, n % 0x40);
    } else if n >= 0x80 {
      OneFollows(second, n % 0x40);
    } else {
      assert ReadsAs([n], n);
    }
    hide ReadsAs;
  }

  lemma ContinuedBy(bits: nat, bytes: seq<nat>)
    ensures Continued(bits, []) == bits
    ensures bytes != [] ==> Continued(bits, bytes) == Continued(bits * 0x40 + bytes[0] % 0x40, bytes[1..])
  {}

  lemma OneFollows(bits: nat, a: nat)
    requires bits < 0x20 && a < 0x40
    ensures ReadsAs([0xC0 + bits, 0x80 + a], bits * 0x40 + a)
  {
    assert Continued(bits, [0x80 + a]) == bits * 0x40 + a;
  }

  lemma TwoFollow(bits: nat, a: nat, b: nat)
    requires bits < 0x10 && a < 0x40 && b < 0x40
    ensures ReadsAs([0xE0 + bits, 0x80 + a, 0x80 + b], (bits * 0x40 + a) * 0x40 + b)
  {
    var rest := [0x80 + a, 0x80 + b];
    ContinuedBy(bits, rest);
    ContinuedBy(bits * 0x40 + a, rest[1..]);
    assert [0xE0 + bits, 0x80 + a, 0x80 + b][1..] == rest && rest[2..] == [];
    hide Continued;
  }

  lemma ThreeFollow(bits: nat, a: nat, b: nat, c: nat)
    requires bits < 8 && a < 0x40 && b < 0x40 && c < 0x40
    ensures ReadsAs([0xF0 + bits, 0x80 + a, 0x80 + b, 0x80 + c], ((bits * 0x40 + a) * 0x40 + b) * 0x40 + c)
  {
    ThreeMore(bits, a, b, c);
    assert [0xF0 + bits, 0x80 + a, 0x80 + b, 0x80 + c][1..] == [0x80 + a, 0x80 + b, 0x80 + c];
    hide Continued;
  }

  lemma ThreeMore(bits: nat, a: nat, b: nat, c: nat)
    requires a < 0x40 && b < 0x40 && c < 0x40
    ensures Continued(bits, [0x80 + a, 0x80 + b, 0x80 + c]) == ((bits * 0x40 + a) * 0x40 + b) * 0x40 + c
  {
    var rest := [0x80 + a, 0x80 + b, 0x80 + c];
    ContinuedBy(bits, rest);
    ContinuedBy(bits * 0x40 + a, rest[1..]);
    ContinuedBy((bits * 0x40 + a) * 0x40 + b, rest[2..]);
    assert rest[3..] == [];
    hide Continued;
  }

  /** The size is the number of bytes. */
  lemma {:induction false} SizeIsBytes(s: string)
    ensures Size(s) == |Utf8Text(s)|
  {
    if s != "" {
      Utf8ReadsBack(s[0]);
      hide Utf8;
      SizeIsBytes(s[1..]);
    }
  }

  lemma {:induction false} SizeAppend(a: string, b: string)
    ensures Size(a + b) == Size(a) + Size(b)
  {
    if a == "" {
      assert a + b == b;
    } else {
      SizeAppend(a[1..], b);
      assert (a + b)[1..] == a[1..] + b;
    }
  }

  // ---- Documents ----

  function Entity(c: char): string {
    match c
    case '&' => "&amp;"
    case '<' => "&lt;"
    case '>' => "&gt;"
    case '"' => "&quot;"
    case '\'' => "&#39;"
    case _ => [c]
  }

  function Escape(t: string): string {
    if t == "" then "" else Entity(t[0]) + Escape(t[1..])
  }

  datatype Item = Field(name: string, value: string) | Paragraph(text: string) | Heading(text: string)

  function FieldOpen(): string { "<p><strong>" }
  function NameEnd(): string { ":" + NameClose() }
  function NameClose(): (tag: string) ensures IsTag(tag) { "</strong> " }
  function ParagraphOpen(): string { "<p>" }
  function ParagraphClose(): (tag: string) ensures IsTag(tag) { "</p>" }
  function HeadingOpen(): string { "<h2>" }
  function HeadingClose(): (tag: string) ensures IsTag(tag) { "</h2>" }
  function TitleClose(): (tag: string) ensures IsTag(tag) { "</h1>" }
  function End(): string { "</body></html>" }

  predicate IsTag(s: string) {
    s != "" && s[0] == '<'
  }

  function ItemHtml(item: Item): string {
    match item
    case Field(name, value) => FieldOpen() + Escape(name) + NameEnd() + Escape(value) + ParagraphClose()
    case Paragraph(text) => ParagraphOpen() + Escape(text) + ParagraphClose()
    case Heading(text) => HeadingOpen() + Escape(text) + HeadingClose()
  }

  function Body(items: seq<Item>): string {
    if items == [] then "" else Body(items[..|items| - 1]) + ItemHtml(items[|items| - 1])
  }

  function Policy(): string {
    "default-src 'none'; style-src 'unsafe-inline'; base-uri 'none'; form-action 'none'"
  }

  function Meta(): string {
    "<!doctype html><html lang=\"en\"><head><meta charset=\"utf-8\">"
    + "<meta http-equiv=\"Content-Security-Policy\" content=\""
  }

  function Head(): string {
    Meta() + Policy() + "\"><title>"
  }

  function Sheet(): string {
    "body{font-family:sans-serif;max-width:60rem;margin:2rem;color:#111;background:#fff}"
    + "p{overflow-wrap:anywhere}h2{break-after:avoid}strong{font-weight:600}"
  }

  function Style(): (tag: string)
    ensures IsTag(tag)
  {
    hide Sheet;
    "</title><style>" + Sheet() + "</style></head><body><h1>"
  }

  function Opening(title: string): string {
    Head() + Escape(title) + Style() + Escape(title) + TitleClose()
  }

  function Document(title: string, items: seq<Item>): string {
    Opening(title) + Body(items) + End()
  }

  // ---- Text is inert ----

  predicate Special(c: char) {
    c in {'<', '>', '"', '\''}
  }

  /** Escaped text has no bracket and no quote, and every ampersand in it begins an entity. */
  lemma {:induction false} EscapedIsInert(t: string, i: nat)
    requires i < |Escape(t)|
    ensures !Special(Escape(t)[i])
    ensures Escape(t)[i] == '&' ==> exists c :: c in {'&', '<', '>', '"', '\''} && Starts(Escape(t)[i..], Entity(c))
  {
    var first := Entity(t[0]);
    if i < |first| {
      if i == 0 && first[0] == '&' { assert Starts(Escape(t)[0..], Entity(t[0])); }
    } else {
      EscapedIsInert(t[1..], i - |first|);
      assert Escape(t)[i..] == Escape(t[1..])[i - |first|..];
    }
  }

  predicate Starts(s: string, prefix: string) {
    |prefix| <= |s| && s[..|prefix|] == prefix
  }

  /** The character that one of the five entities stands for. */
  function StandsFor(entity: string): Option<char> {
    if entity == "&amp;" then Some('&')
    else if entity == "&lt;" then Some('<')
    else if entity == "&gt;" then Some('>')
    else if entity == "&quot;" then Some('"')
    else if entity == "&#39;" then Some('\'')
    else None
  }

  /** Exactly the five characters are written as entities, each as its own; all others as themselves. */
  lemma EntityStandsFor(c: char)
    ensures if c in "&<>\"'" then StandsFor(Entity(c)) == Some(c) else Entity(c) == [c]
  {
    assert c in "&<>\"'" <==> c == '&' || c == '<' || c == '>' || c == '"' || c == '\'';
  }

  /** The markup around each item. */
  lemma ItemLayout(name: string, value: string, text: string)
    ensures ItemHtml(Field(name, value)) == "<p><strong>" + Escape(name) + ":</strong> " + Escape(value) + "</p>"
    ensures ItemHtml(Paragraph(text)) == "<p>" + Escape(text) + "</p>"
    ensures ItemHtml(Heading(text)) == "<h2>" + Escape(text) + "</h2>"
  {
    hide Escape;
    assert NameEnd() == ":</strong> ";
  }

  /** A document has its title twice, then the items, then the end. */
  lemma DocumentLayout(title: string, items: seq<Item>)
    ensures Document(title, items)
         == Head() + Escape(title) + Style() + Escape(title) + "</h1>" + Body(items) + "</body></html>"
  {
    hide Escape; hide Body; hide Style; hide Head;
  }

  /** It begins with the content policy. */
  lemma HeadLayout()
    ensures Head() == "<!doctype html><html lang=\"en\"><head><meta charset=\"utf-8\">"
                      + "<meta http-equiv=\"Content-Security-Policy\" content=\""
                      + "default-src 'none'; style-src 'unsafe-inline'; base-uri 'none'; form-action 'none'"
                      + "\"><title>"
  {}

  /** Between the two titles is the style sheet. */
  lemma StyleLayout()
    ensures Style() == "</title><style>"
                       + "body{font-family:sans-serif;max-width:60rem;margin:2rem;color:#111;background:#fff}"
                       + "p{overflow-wrap:anywhere}h2{break-after:avoid}strong{font-weight:600}"
                       + "</style></head><body><h1>"
  {}

  // ---- The parser ----

  function Expect(s: string, tag: string): (rest: Option<string>)
    ensures rest.Some? ==> s == tag + rest.value
  {
    if Starts(s, tag) then Some(s[|tag|..]) else None
  }

  /** The character whose entity goes on with `c` after the ampersand. */
  function Named(c: char): Option<char> {
    match c
    case 'a' => Some('&')
    case 'l' => Some('<')
    case 'g' => Some('>')
    case 'q' => Some('"')
    case '#' => Some('\'')
    case _ => None
  }

  /** Reads one character or entity. */
  function ReadChar(s: string): (r: Option<(char, string)>)
    ensures r.Some? ==> |r.value.1| < |s|
  {
    if s == "" || Special(s[0]) then None
    else if s[0] != '&' then Some((s[0], s[1..]))
    else if |s| > 1 && Named(s[1]).Some? && Starts(s, Entity(Named(s[1]).value)) then
      Some((Named(s[1]).value, s[|Entity(Named(s[1]).value)|..]))
    else None
  }

  /** Reads text up to the next tag. */
  function ReadText(s: string): (r: Option<(string, string)>)
    ensures r.Some? ==> |r.value.1| <= |s|
    decreases |s|
  {
    if s == "" || s[0] == '<' then Some(("", s))
    else
      match ReadChar(s)
      case None => None
      case Some((c, rest)) =>
        match ReadText(rest)
        case None => None
        case Some((text, after)) => Some(([c] + text, after))
  }

  /** Reads text and the tag that closes it. */
  function ReadUntil(s: string, tag: string): (r: Option<(string, string)>)
    ensures r.Some? ==> |r.value.1| <= |s|
  {
    match ReadText(s)
    case None => None
    case Some((text, after)) =>
      match Expect(after, tag)
      case None => None
      case Some(rest) => Some((text, rest))
  }

  function ReadItem(s: string): (r: Option<(Item, string)>)
    ensures r.Some? ==> |r.value.1| < |s|
  {
    match Expect(s, FieldOpen())
    case Some(inner) => ReadField(inner)
    case None =>
      match Expect(s, ParagraphOpen())
      case Some(inner) =>
        (match ReadUntil(inner, ParagraphClose())
         case None => None
         case Some((text, rest)) => Some((Paragraph(text), rest)))
      case None =>
        match Expect(s, HeadingOpen())
        case None => None
        case Some(inner) =>
          match ReadUntil(inner, HeadingClose())
          case None => None
          case Some((text, rest)) => Some((Heading(text), rest))
  }

  function ReadField(s: string): (r: Option<(Item, string)>)
    ensures r.Some? ==> |r.value.1| <= |s|
  {
    match ReadUntil(s, NameClose())
    case None => None
    case Some((name, inner)) =>
      if name == "" || name[|name| - 1] != ':' then None
      else
        match ReadUntil(inner, ParagraphClose())
        case None => None
        case Some((value, rest)) => Some((Field(name[..|name| - 1], value), rest))
  }

  function ReadItems(s: string): Option<seq<Item>>
    decreases |s|
  {
    if s == End() then Some([])
    else
      match ReadItem(s)
      case None => None
      case Some((item, rest)) =>
        match ReadItems(rest)
        case None => None
        case Some(items) => Some([item] + items)
  }

  /** Reads a whole document back: its title, given twice, and its items. */
  function ReadDocument(s: string): Option<(string, seq<Item>)> {
    match Expect(s, Head())
    case None => None
    case Some(a) =>
      match ReadText(a)
      case None => None
      case Some((title, b)) =>
        match Expect(b, Style())
        case None => None
        case Some(c) =>
          match ReadUntil(c, TitleClose())
          case None => None
          case Some((heading, d)) =>
            if heading != title then None
            else
              match ReadItems(d)
              case None => None
              case Some(items) => Some((title, items))
  }

  // ---- Round trip ----

  lemma ExpectPrinted(tag: string, rest: string)
    ensures Expect(tag + rest, tag) == Some(rest)
  {}

  lemma CharPrinted(c: char, rest: string)
    ensures ReadChar(Entity(c) + rest) == Some((c, rest)) && Entity(c)[0] != '<'
  {
    var s := Entity(c) + rest;
    assert s[..|Entity(c)|] == Entity(c) && s[|Entity(c)|..] == rest;
    if |Entity(c)| > 1 { assert s[1] == Entity(c)[1]; }
  }

  lemma {:induction false} TextPrinted(t: string, rest: string)
    requires IsTag(rest)
    ensures ReadText(Escape(t) + rest) == Some((t, rest))
  {
    if t == "" {
      assert Escape(t) + rest == rest;
    } else {
      CharPrinted(t[0], Escape(t[1..]) + rest);
      hide Entity; hide ReadChar;
      Assoc(Entity(t[0]), Escape(t[1..]), rest);
      TextPrinted(t[1..], rest);
      assert [t[0]] + t[1..] == t;
    }
  }

  lemma UntilPrinted(t: string, tag: string, rest: string)
    requires IsTag(tag)
    ensures ReadUntil(Escape(t) + (tag + rest), tag) == Some((t, rest))
  {
    TextPrinted(t, tag + rest);
    ExpectPrinted(tag, rest);
  }

  lemma {:induction false} EscapeAppend(a: string, b: string)
    ensures Escape(a + b) == Escape(a) + Escape(b)
  {
    hide Entity;
    if a == "" {
      assert a + b == b;
    } else {
      EscapeAppend(a[1..], b);
      assert (a + b)[1..] == a[1..] + b && (a + b)[0] == a[0];
      Assoc(Entity(a[0]), Escape(a[1..]), Escape(b));
    }
  }

  lemma Assoc(a: string, b: string, c: string)
    ensures a + b + c == a + (b + c)
  {}

  lemma Nested(a: string, b: string, c: string, d: string)
    ensures a + b + c + d == a + (b + (c + d))
  {}

  lemma FieldPrinted(name: string, value: string, rest: string)
    ensures ReadField(Escape(name) + (NameEnd() + (Escape(value) + (ParagraphClose() + rest))))
         == Some((Field(name, value), rest))
  {
    var inner := Escape(value) + (ParagraphClose() + rest);
    NameAndColon(name);
    hide NameClose; hide ParagraphClose; hide Escape; hide ReadUntil;
    assert Escape(name) + (NameEnd() + inner) == Escape(name + ":") + (NameClose() + inner);
    UntilPrinted(value, ParagraphClose(), rest);
    UntilPrinted(name + ":", NameClose(), inner);
    assert (name + ":")[..|name|] == name;
  }

  lemma NameAndColon(name: string)
    ensures Escape(name + ":") == Escape(name) + ":"
  {
    EscapeAppend(name, ":");
    assert Escape(":") == ":";
  }

  lemma ItemPrinted(item: Item, rest: string)
    ensures ReadItem(ItemHtml(item) + rest) == Some((item, rest))
  {
    match item
    case Field(name, value) => FieldItemPrinted(name, value, rest);
    case Paragraph(text) =>
      NotAField(text, rest);
      hide Escape; hide ReadUntil; hide FieldOpen; hide ParagraphOpen; hide ParagraphClose;
      Nested(ParagraphOpen(), Escape(text), ParagraphClose(), rest);
      ExpectPrinted(ParagraphOpen(), Escape(text) + (ParagraphClose() + rest));
      UntilPrinted(text, ParagraphClose(), rest);
    case Heading(text) =>
      NotAParagraph(Escape(text) + (HeadingClose() + rest));
      hide Escape; hide ReadUntil; hide FieldOpen; hide ParagraphOpen; hide HeadingOpen; hide HeadingClose;
      Nested(HeadingOpen(), Escape(text), HeadingClose(), rest);
      ExpectPrinted(HeadingOpen(), Escape(text) + (HeadingClose() + rest));
      UntilPrinted(text, HeadingClose(), rest);
  }

  lemma FieldItemPrinted(name: string, value: string, rest: string)
    ensures ReadItem(ItemHtml(Field(name, value)) + rest) == Some((Field(name, value), rest))
  {
    hide FieldOpen; hide NameEnd; hide ParagraphClose; hide Escape; hide ReadField; hide ReadUntil;
    var inner := Escape(name) + (NameEnd() + (Escape(value) + (ParagraphClose() + rest)));
    Nested(FieldOpen() + Escape(name) + NameEnd(), Escape(value), ParagraphClose(), rest);
    Nested(FieldOpen(), Escape(name), NameEnd(), Escape(value) + (ParagraphClose() + rest));
    assert ItemHtml(Field(name, value)) + rest == FieldOpen() + inner;
    FieldPrinted(name, value, rest);
    ExpectPrinted(FieldOpen(), inner);
  }

  /** A paragraph is never read as a field: its text does not begin with a tag. */
  lemma NotAField(text: string, rest: string)
    ensures !Starts(ParagraphOpen() + (Escape(text) + (ParagraphClose() + rest)), FieldOpen())
  {
    var s := ParagraphOpen() + (Escape(text) + (ParagraphClose() + rest));
    assert FieldOpen()[3] == '<' && FieldOpen()[4] == 's';
    if text == "" {
      assert s[4] == '/';
      DiffersEarly(s, FieldOpen(), 4);
    } else {
      EscapedIsInert(text, 0);
      assert s[3] == Escape(text)[0];
      DiffersEarly(s, FieldOpen(), 3);
    }
  }

  lemma DiffersEarly(s: string, prefix: string, i: nat)
    requires i < |s| && i < |prefix| && s[i] != prefix[i]
    ensures !Starts(s, prefix)
  {}

  lemma NotAParagraph(inner: string)
    ensures !Starts(HeadingOpen() + inner, ParagraphOpen()) && !Starts(HeadingOpen() + inner, FieldOpen())
  {
    var s := HeadingOpen() + inner;
    assert s[1] == 'h' && ParagraphOpen()[1] == FieldOpen()[1] == 'p';
    DiffersEarly(s, ParagraphOpen(), 1);
    DiffersEarly(s, FieldOpen(), 1);
  }

  /** Body in the order in which the parser meets its items. */
  lemma {:induction false} BodyAppend(first: Item, items: seq<Item>)
    ensures Body([first] + items) == ItemHtml(first) + Body(items)
  {
    hide ItemHtml;
    var all := [first] + items;
    if items == [] {
      assert all[..0] == [] && all[0] == first;
    } else {
      var last := |items| - 1;
      BodyAppend(first, items[..last]);
      assert all[..|all| - 1] == [first] + items[..last];
    }
  }

  lemma ItemIsNotEnd(item: Item, rest: string)
    ensures ItemHtml(item) + rest != End()
  {
    hide Escape;
    assert ItemHtml(item)[1] == 'p' || ItemHtml(item)[1] == 'h';
    assert End()[1] == '/';
  }

  lemma {:induction false} ItemsPrinted(items: seq<Item>)
    ensures ReadItems(Body(items) + End()) == Some(items)
  {
    hide ItemHtml; hide ReadItem; hide End;
    if items == [] {
      assert Body(items) + End() == End();
    } else {
      var rest := Body(items[1..]) + End();
      assert items == [items[0]] + items[1..];
      BodyAppend(items[0], items[1..]);
      assert Body(items) + End() == ItemHtml(items[0]) + rest;
      ItemIsNotEnd(items[0], rest);
      ItemPrinted(items[0], rest);
      ItemsPrinted(items[1..]);
    }
  }

  /** Whatever text a document is given, reading it back yields exactly its title and items. */
  lemma DocumentReadsBack(title: string, items: seq<Item>)
    ensures ReadDocument(Document(title, items)) == Some((title, items))
  {
    hide Head; hide Style; hide TitleClose; hide End; hide Body; hide Escape; hide ReadItems; hide ReadText;
    hide ReadUntil;
    var d := Body(items) + End();
    var c := Escape(title) + (TitleClose() + d);
    var b := Style() + c;
    var a := Escape(title) + b;
    Nested(Head() + Escape(title) + Style(), Escape(title), TitleClose(), d);
    Nested(Head(), Escape(title), Style(), c);
    assert Document(title, items) == Opening(title) + d;
    ExpectPrinted(Head(), a);
    TextPrinted(title, b);
    ExpectPrinted(Style(), c);
    UntilPrinted(title, TitleClose(), d);
    ItemsPrinted(items);
  }

  /** So two different documents never look the same. */
  lemma DocumentIsUnambiguous(title: string, items: seq<Item>, other: string, others: seq<Item>)
    requires Document(title, items) == Document(other, others)
    ensures title == other && items == others
  {
    hide Document; hide ReadDocument;
    DocumentReadsBack(title, items);
    DocumentReadsBack(other, others);
  }

  // ---- The builder as the code runs it ----

  /** An operation appends all of its output exactly when that fits. If it fails, a part of the output
      may be left; the document is then given up. */
  ghost predicate Appends(before: string, added: string, ok: bool, after: string) {
    && Size(after) <= MAX_BYTES
    && (ok <==> Size(before) + Size(added) <= MAX_BYTES)
    && (ok ==> after == before + added)
  }

  lemma AppendsBoth(x: string, a: string, y: string, b: string, ok: bool, z: string)
    requires Appends(x, a, true, y) && Appends(y, b, ok, z)
    ensures Appends(x, a + b, ok, z)
  {
    hide Size;
    SizeAppend(x, a);
    SizeAppend(a, b);
    assert x + a + b == x + (a + b);
  }

  lemma AppendsNeither(x: string, a: string, y: string, b: string)
    requires Appends(x, a, false, y)
    ensures Appends(x, a + b, false, y)
  {
    hide Size;
    SizeAppend(a, b);
  }

  class Builder {
    var buffer: string

    constructor ()
      ensures buffer == ""
    {
      buffer := "";
    }

    method Markup(value: string) returns (ok: bool)
      requires Size(buffer) <= MAX_BYTES
      modifies this
      ensures Appends(old(buffer), value, ok, buffer)
    {
      SizeAppend(buffer, value);
      if Size(buffer) + Size(value) > MAX_BYTES { return false; }
      buffer := buffer + value;
      return true;
    }

    method Text(value: string) returns (ok: bool)
      requires Size(buffer) <= MAX_BYTES
      modifies this
      ensures Appends(old(buffer), Escape(value), ok, buffer)
    {
      hide *;
      EmptyIsFree();
      AppendsNothing(buffer, value);
      var i := 0;
      while i < |value|
        invariant 0 <= i <= |value| && Size(buffer) <= MAX_BYTES
        invariant Appends(old(buffer), Escape(value[..i]), true, buffer)
      {
        ghost var before := buffer;
        ok := Markup(Entity(value[i]));
        AppendsBoth(old(buffer), Escape(value[..i]), before, Entity(value[i]), ok, buffer);
        EscapeNext(value, i);
        i := i + 1;
        if !ok {
          EscapeRest(old(buffer), value, i, buffer);
          return;
        }
        WithinCap(old(buffer), Escape(value[..i]), true, buffer);
      }
      assert value[..i] == value;
      ok := true;
    }

    /** A text and the markup after it. */
    method Closed(value: string, close: string) returns (ok: bool)
      requires Size(buffer) <= MAX_BYTES
      modifies this
      ensures Appends(old(buffer), Escape(value) + close, ok, buffer)
    {
      hide Escape; hide Size;
      ok := Text(value);
      if !ok {
        AppendsNeither(old(buffer), Escape(value), buffer, close);
        return;
      }
      ghost var written := buffer;
      ok := Markup(close);
      AppendsBoth(old(buffer), Escape(value), written, close, ok, buffer);
    }

    /** An opening tag, a text and the markup after it. */
    method Enclosed(open: string, value: string, close: string) returns (ok: bool)
      requires Size(buffer) <= MAX_BYTES
      modifies this
      ensures Appends(old(buffer), open + Escape(value) + close, ok, buffer)
    {
      hide Escape; hide Size;
      Assoc(open, Escape(value), close);
      ok := Markup(open);
      if !ok {
        AppendsNeither(old(buffer), open, buffer, Escape(value) + close);
        return;
      }
      ghost var middle := buffer;
      ok := Closed(value, close);
      AppendsBoth(old(buffer), open, middle, Escape(value) + close, ok, buffer);
    }

    method AddField(name: string, value: string) returns (ok: bool)
      requires Size(buffer) <= MAX_BYTES
      modifies this
      ensures Appends(old(buffer), ItemHtml(Field(name, value)), ok, buffer)
    {
      hide Escape; hide Size; hide FieldOpen; hide NameEnd; hide ParagraphClose;
      ghost var first := FieldOpen() + Escape(name) + NameEnd();
      Assoc(first, Escape(value), ParagraphClose());
      ok := Enclosed(FieldOpen(), name, NameEnd());
      if !ok {
        AppendsNeither(old(buffer), first, buffer, Escape(value) + ParagraphClose());
        return;
      }
      ghost var middle := buffer;
      ok := Closed(value, ParagraphClose());
      AppendsBoth(old(buffer), first, middle, Escape(value) + ParagraphClose(), ok, buffer);
    }

    method AddParagraph(text: string) returns (ok: bool)
      requires Size(buffer) <= MAX_BYTES
      modifies this
      ensures Appends(old(buffer), ItemHtml(Paragraph(text)), ok, buffer)
    {
      ok := Enclosed(ParagraphOpen(), text, ParagraphClose());
    }

    method AddHeading(text: string) returns (ok: bool)
      requires Size(buffer) <= MAX_BYTES
      modifies this
      ensures Appends(old(buffer), ItemHtml(Heading(text)), ok, buffer)
    {
      ok := Enclosed(HeadingOpen(), text, HeadingClose());
    }

    method Open(title: string) returns (ok: bool)
      requires buffer == ""
      modifies this
      ensures Appends("", Opening(title), ok, buffer)
    {
      hide Escape; hide Head; hide Style; hide TitleClose;
      ghost var first := Head() + Escape(title) + Style();
      assert Size("") == 0;
      hide Size;
      Assoc(first, Escape(title), TitleClose());
      ok := Enclosed(Head(), title, Style());
      if !ok {
        AppendsNeither("", first, buffer, Escape(title) + TitleClose());
        return;
      }
      ghost var middle := buffer;
      ok := Closed(title, TitleClose());
      AppendsBoth("", first, middle, Escape(title) + TitleClose(), ok, buffer);
    }
  }

  method AddItem(html: Builder, item: Item) returns (ok: bool)
    requires Size(html.buffer) <= MAX_BYTES
    modifies html
    ensures Appends(old(html.buffer), ItemHtml(item), ok, html.buffer)
  {
    hide ItemHtml; hide Size;
    match item {
      case Field(name, value) => ok := html.AddField(name, value);
      case Paragraph(text) => ok := html.AddParagraph(text);
      case Heading(text) => ok := html.AddHeading(text);
    }
  }

  /** Writes a whole document, as the output functions do: it succeeds exactly when the document fits
      in 2 MiB, and what it returns is that document, which reads back as its title and items. */
  method Write(title: string, items: seq<Item>) returns (r: Option<string>)
    ensures r.Some? <==> Size(Document(title, items)) <= 2_097_152
    ensures r.Some? ==> r.value == Document(title, items) && ReadDocument(r.value) == Some((title, items))
  {
    DocumentReadsBack(title, items);
    DocumentIs(title, items);
    hide *;
    var html := new Builder();
    EmptyIsFree();
    var ok := html.Open(title);
    ghost var opening := Opening(title);
    if ok {
      OpeningOnly(opening, items, html.buffer);
      ok := AddItems(html, opening, items);
    } else {
      AppendsNeither("", opening, html.buffer, Body(items));
    }
    if !ok {
      AppendsNeither("", opening + Body(items), html.buffer, End());
      Fits(Document(title, items), false, html.buffer);
      return None;
    }
    ghost var before := html.buffer;
    WithinCap("", opening + Body(items), true, before);
    ok := html.Markup(End());
    AppendsBoth("", opening + Body(items), before, End(), ok, html.buffer);
    Fits(Document(title, items), ok, html.buffer);
    r := if ok then Some(html.buffer) else None;
  }

  method AddItems(html: Builder, ghost opening: string, items: seq<Item>) returns (ok: bool)
    requires Appends("", Upto(opening, items, 0), true, html.buffer)
    modifies html
    ensures Appends("", opening + Body(items), ok, html.buffer)
  {
    hide *;
    WithinCap("", Upto(opening, items, 0), true, html.buffer);
    UptoAll(opening, items);
    var i := 0;
    while i < |items|
      invariant 0 <= i <= |items| && Size(html.buffer) <= MAX_BYTES
      invariant Appends("", Upto(opening, items, i), true, html.buffer)
    {
      ghost var before := html.buffer;
      ok := AddItem(html, items[i]);
      AppendsBoth("", Upto(opening, items, i), before, ItemHtml(items[i]), ok, html.buffer);
      UptoNext(opening, items, i);
      i := i + 1;
      if !ok {
        UptoRest(opening, items, i, html.buffer);
        return;
      }
      WithinCap("", Upto(opening, items, i), true, html.buffer);
    }
    ok := true;
  }

  /** The document up to item `i`. */
  function Upto(opening: string, items: seq<Item>, i: nat): string
    requires i <= |items|
  {
    opening + Body(items[..i])
  }

  lemma DocumentIs(title: string, items: seq<Item>)
    ensures Document(title, items) == Opening(title) + Body(items) + End()
  {}

  lemma WithinCap(before: string, added: string, ok: bool, after: string)
    requires Appends(before, added, ok, after)
    ensures Size(after) <= MAX_BYTES
  {}

  lemma OpeningOnly(opening: string, items: seq<Item>, buffer: string)
    requires Appends("", opening, true, buffer)
    ensures Appends("", Upto(opening, items, 0), true, buffer)
  {
    hide Size;
    assert Body(items[..0]) == "" && opening + "" == opening;
  }

  lemma UptoNext(opening: string, items: seq<Item>, i: nat)
    requires i < |items|
    ensures Upto(opening, items, i + 1) == Upto(opening, items, i) + ItemHtml(items[i])
  {
    hide ItemHtml;
    assert items[..i + 1][..i] == items[..i];
    Assoc(opening, Body(items[..i]), ItemHtml(items[i]));
  }

  lemma UptoAll(opening: string, items: seq<Item>)
    ensures Upto(opening, items, |items|) == opening + Body(items)
  {
    hide Body;
    assert items[..|items|] == items;
  }

  lemma {:induction false} BodySplit(items: seq<Item>, i: nat)
    requires i <= |items|
    ensures exists tail :: Body(items) == Body(items[..i]) + tail
  {
    hide ItemHtml;
    if i == |items| {
      assert items[..i] == items;
      assert Body(items) == Body(items[..i]) + "";
    } else {
      var front := items[..|items| - 1];
      BodySplit(front, i);
      assert front[..i] == items[..i];
      var tail :| Body(front) == Body(front[..i]) + tail;
      assert Body(items) == Body(items[..i]) + (tail + ItemHtml(items[|items| - 1]));
    }
  }

  /** If an item does not fit, neither do all items. */
  lemma UptoRest(opening: string, items: seq<Item>, i: nat, buffer: string)
    requires i <= |items| && Appends("", Upto(opening, items, i), false, buffer)
    ensures Appends("", opening + Body(items), false, buffer)
  {
    BodySplit(items, i);
    hide Size; hide Body; hide Appends;
    var tail :| Body(items) == Body(items[..i]) + tail;
    AppendsNeither("", Upto(opening, items, i), buffer, tail);
    Assoc(opening, Body(items[..i]), tail);
  }

  lemma EmptyIsFree()
    ensures Size("") == 0
  {}

  lemma Fits(document: string, ok: bool, buffer: string)
    requires Appends("", document, ok, buffer)
    ensures ok <==> Size(document) <= 2_097_152
    ensures ok ==> buffer == document
  {}

  lemma AppendsNothing(buffer: string, value: string)
    requires Size(buffer) <= MAX_BYTES
    ensures Appends(buffer, Escape(value[..0]), true, buffer)
  {}

  lemma EscapeNext(value: string, i: nat)
    requires i < |value|
    ensures Escape(value[..i + 1]) == Escape(value[..i]) + Entity(value[i])
  {
    hide *;
    EscapeSnoc(value[..i], value[i]);
    Prefix(value, i);
  }

  lemma EscapeRest(before: string, value: string, i: nat, buffer: string)
    requires i <= |value| && Appends(before, Escape(value[..i]), false, buffer)
    ensures Appends(before, Escape(value), false, buffer)
  {
    hide *;
    assert value == value[..i] + value[i..];
    EscapeAppend(value[..i], value[i..]);
    AppendsNeither(before, Escape(value[..i]), buffer, Escape(value[i..]));
  }

  lemma Prefix(value: string, i: nat)
    requires i < |value|
    ensures value[..i + 1] == value[..i] + [value[i]]
  {}

  lemma EscapeSnoc(t: string, c: char)
    ensures Escape(t + [c]) == Escape(t) + Entity(c)
  {
    hide Entity; hide Escape;
    EscapeOne(c);
    EscapeAppend(t, [c]);
  }

  lemma EscapeOne(c: char)
    ensures Escape([c]) == Entity(c)
  {}
}
