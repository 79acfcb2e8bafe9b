/** `json.dumps`, compact with sorted keys or with its default separators, on the values
    `json.loads` makes of null, booleans, integers, strings, arrays and objects, and a reader
    that undoes both. */
module CanonicalJson {
  import opened Options

  /** A parsed JSON value.  The fields of an object are in insertion order. */
  datatype Json = Null | Bool(b: bool) | Num(n: int) | Str(s: string) | Arr(items: Items) | Obj(fields: Fields)
  datatype Items = NoItems | Item(head: Json, tail: Items)
  datatype Fields = NoFields | Field(name: string, value: Json, rest: Fields)

  // ------------------------------------------------------------------ numbers

  function Digit(n: nat): char
    requires n < 10
  {
    '0' + n as char
  }

  predicate IsDigit(c: char) {
    '0' <= c <= '9'
  }

  function Decimal(n: nat): (s: string)
    ensures s != [] && forall i :: 0 <= i < |s| ==> IsDigit(s[i])
  {
    if n < 10 then [Digit(n)] else Decimal(n / 10) + [Digit(n % 10)]
  }

  function DecimalValue(s: string): nat
    requires forall i :: 0 <= i < |s| ==> IsDigit(s[i])
  {
    if s == "" then 0
    else
      assert IsDigit(s[|s| - 1]);
      10 * DecimalValue(s[..|s| - 1]) + (s[|s| - 1] as int - '0' as int)
  }

  /** How many digits `s` begins with. */
  function DigitRun(s: string): (n: nat)
    ensures n <= |s| && forall i :: 0 <= i < n ==> IsDigit(s[i])
  {
    if s == "" || !IsDigit(s[0]) then 0 else 1 + DigitRun(s[1..])
  }

  lemma {:induction false} DecimalBack(n: nat)
    ensures DecimalValue(Decimal(n)) == n
  {
    if n >= 10 {
      DecimalBack(n / 10);
      assert Decimal(n)[..|Decimal(n)| - 1] == Decimal(n / 10);
    }
  }

  lemma {:induction false} DigitRunIs(digits: string, rest: string)
    requires forall i :: 0 <= i < |digits| ==> IsDigit(digits[i])
    requires rest == "" || !IsDigit(rest[0])
    ensures DigitRun(digits + rest) == |digits|
  {
    if digits == "" {
      assert digits + rest == rest;
    } else {
      assert (digits + rest)[1..] == digits[1..] + rest;
      DigitRunIs(digits[1..], rest);
    }
  }

  // ------------------------------------------------------------------ strings

  function HexDigit(n: nat): char
    requires n < 16
  {
    if n < 10 then '0' + n as char else 'a' + (n - 10) as char
  }

  function HexValue(c: char): Option<nat> {
    if '0' <= c <= '9' then Some(c as int - '0' as int)
    else if 'a' <= c <= 'f' then Some(c as int - 'a' as int + 10)
    else None
  }

  /** `\uXXXX` for one UTF-16 code unit. */
  function Unit(u: nat): (s: string)
    requires u < 0x1_0000
    ensures |s| == 6
  {
    ['\\', 'u', HexDigit(u / 4096), HexDigit(u / 256 % 16), HexDigit(u / 16 % 16), HexDigit(u % 16)]
  }

  /** One character of a string literal, in pure ASCII. */
  function Escape(c: char): (s: string)
    ensures |s| >= 1
  {
    if c == '"' then "\\\""
    else if c == '\\' then "\\\\"
    else if c == '\n' then "\\n"
    else if c == '\r' then "\\r"
    else if c == '\t' then "\\t"
    else if c as int == 12 then "\\f"
    else if c as int == 8 then "\\b"
    else if ' ' <= c <= '~' then [c]
    else if c as int < 0x1_0000 then Unit(c as int)
    else
      var n := c as int - 0x1_0000;
      Unit(0xD800 + n / 1024) + Unit(0xDC00 + n % 1024)
  }

  function EscapeAll(s: string): string {
    if s == "" then "" else Escape(s[0]) + EscapeAll(s[1..])
  }

  function Quote(s: string): string {
    "\"" + EscapeAll(s) + "\""
  }

  /** The code unit written at the start of `s` as `\uXXXX`. */
  function ReadUnit(s: string): (r: Option<nat>)
    ensures r.Some? ==> |s| >= 6 && r.value < 0x1_0000
  {
    if |s| < 6 || s[0] != '\\' || s[1] != 'u' then None
    else
      match (HexValue(s[2]), HexValue(s[3]), HexValue(s[4]), HexValue(s[5]))
      case (Some(a), Some(b), Some(c), Some(d)) =>
        if a < 16 && b < 16 && c < 16 && d < 16 then Some(a * 4096 + b * 256 + c * 16 + d) else None
      case _ => None
  }

  /** One character of a string literal, and what follows it. */
  function ReadChar(s: string): (r: Option<(char, string)>)
    requires s != ""
    ensures r.Some? ==> |r.value.1| < |s|
  {
    if s[0] != '\\' then Some((s[0], s[1..]))
    else if |s| < 2 then None
    else if s[1] == '"' || s[1] == '\\' then Some((s[1], s[2..]))
    else if s[1] == 'n' then Some(('\n', s[2..]))
    else if s[1] == 'r' then Some(('\r', s[2..]))
    else if s[1] == 't' then Some(('\t', s[2..]))
    else if s[1] == 'f' then Some((12 as char, s[2..]))
    else if s[1] == 'b' then Some((8 as char, s[2..]))
    else
      match ReadUnit(s)
      case None => None
      case Some(u) =>
        if u < 0xD800 || 0xE000 <= u then Some((u as char, s[6..]))
        else
          match ReadUnit(s[6..])
          case None => None
          case Some(v) =>
            if u < 0xDC00 <= v < 0xE000
            then Some(((0x1_0000 + (u - 0xD800) * 1024 + (v - 0xDC00)) as char, s[12..]))
            else None
  }

  /** A string literal whose opening quote has been read, and what follows it. */
  function ReadString(s: string): (r: Option<(string, string)>)
    ensures r.Some? ==> |r.value.1| < |s|
    decreases |s|
  {
    if s == "" then None
    else if s[0] == '"' then Some(("", s[1..]))
    else
      match ReadChar(s)
      case None => None
      case Some((c, rest)) =>
        match ReadString(rest)
        case None => None
        case Some((text, after)) => Some(([c] + text, after))
  }

  lemma HexBack(n: nat)
    requires n < 16
    ensures HexValue(HexDigit(n)) == Some(n)
  {}

  lemma FourDigits(u: nat)
    requires u < 0x1_0000
    ensures u / 4096 < 16
    ensures u / 4096 * 4096 + u / 256 % 16 * 256 + u / 16 % 16 * 16 + u % 16 == u
  {
    assert u == u / 16 * 16 + u % 16;
    assert u / 16 == u / 256 * 16 + u / 16 % 16;
    assert u / 256 == u / 4096 * 16 + u / 256 % 16;
  }

  lemma UnitBack(u: nat, rest: string)
    requires u < 0x1_0000
    ensures ReadUnit(Unit(u) + rest) == Some(u) && (Unit(u) + rest)[6..] == rest
  {
    FourDigits(u);
    var a, b, c, d, s := u / 4096, u / 256 % 16, u / 16 % 16, u % 16, Unit(u) + rest;
    assert s[0] == '\\' && s[1] == 'u';
    assert s[2] == HexDigit(a) && s[3] == HexDigit(b) && s[4] == HexDigit(c) && s[5] == HexDigit(d);
    HexBack(a);
    HexBack(b);
    HexBack(c);
    HexBack(d);
    hide HexDigit, HexValue, Unit;
  }

  /** A scalar value below U+10000 is not a surrogate and is read back from one unit. */
  lemma UnitCharBack(c: char, rest: string)
    requires c as int < 0x1_0000
    ensures ReadChar(Unit(c as int) + rest) == Some((c, rest))
  {
    UnitBack(c as int, rest);
    var s := Unit(c as int) + rest;
    assert s[0] == '\\' && s[1] == 'u';
    hide Unit, ReadUnit;
  }

  /** A scalar value above is read back from its surrogate pair. */
  lemma PairCharBack(c: char, rest: string)
    requires c as int >= 0x1_0000
    ensures var n := c as int - 0x1_0000;
            ReadChar(Unit(0xD800 + n / 1024) + Unit(0xDC00 + n % 1024) + rest) == Some((c, rest))
  {
    var n := c as int - 0x1_0000;
    var hi, lo := 0xD800 + n / 1024, 0xDC00 + n % 1024;
    var s := Unit(hi) + Unit(lo) + rest;
    assert n / 1024 < 1024;
    UnitBack(hi, Unit(lo) + rest);
    UnitBack(lo, rest);
    assert s == Unit(hi) + (Unit(lo) + rest);
    assert s[0] == '\\' && s[1] == 'u';
    assert s[6..] == Unit(lo) + rest;
    assert s[12..] == (Unit(lo) + rest)[6..] == rest;
    assert 0x1_0000 + (hi - 0xD800) * 1024 + (lo - 0xDC00) == c as int;
    hide Unit, ReadUnit;
  }

  lemma CharBack(c: char, rest: string)
    ensures Escape(c)[0] != '"'
    ensures ReadChar(Escape(c) + rest) == Some((c, rest))
  {
    hide ReadUnit;
    var s := Escape(c) + rest;
    if c == '"' || c == '\\' || c == '\n' || c == '\r' || c == '\t' || c as int == 12 || c as int == 8 {
      assert s[0] == '\\' && s[2..] == rest;
    } else if ' ' <= c <= '~' {
      assert s[0] == c && s[1..] == rest;
    } else if c as int < 0x1_0000 {
      UnitCharBack(c, rest);
      assert Unit(c as int)[0] == '\\';
    } else {
      PairCharBack(c, rest);
      var n := c as int - 0x1_0000;
      assert Unit(0xD800 + n / 1024)[0] == '\\';
    }
  }

  lemma ReadStringStep(s: string, c: char, s1: string, text: string, rest: string)
    requires s != "" && s[0] != '"' && ReadChar(s) == Some((c, s1)) && ReadString(s1) == Some((text, rest))
    ensures ReadString(s) == Some(([c] + text, rest))
  {
    hide ReadChar;
  }

  lemma {:induction false} StringBack(text: string, rest: string)
    ensures ReadString(EscapeAll(text) + ("\"" + rest)) == Some((text, rest))
  {
    hide ReadChar, Escape;
    var s := EscapeAll(text) + ("\"" + rest);
    if text == "" {
      assert s[0] == '"' && s[1..] == rest;
    } else {
      var c, after := text[0], EscapeAll(text[1..]) + ("\"" + rest);
      CharBack(c, after);
      StringBack(text[1..], rest);
      assert s == Escape(c) + after;
      assert s[0] == Escape(c)[0];
      assert text == [c] + text[1..];
      ReadStringStep(s, c, after, text[1..], rest);
    }
  }

  // ------------------------------------------------------------------ the printer

  /** The text of a value with `gap` after every comma and colon: none in the compact form, one
      space by default. */
  function Render(j: Json, gap: string): string {
    match j
    case Null => "null"
    case Bool(b) => if b then "true" else "false"
    case Num(n) => if n < 0 then "-" + Decimal(-n) else Decimal(n)
    case Str(s) => Quote(s)
    case Arr(items) => "[" + RenderItems(items, gap) + "]"
    case Obj(fields) => "{" + RenderFields(fields, gap) + "}"
  }

  function RenderItems(items: Items, gap: string): string {
    match items
    case NoItems => ""
    case Item(head, NoItems) => Render(head, gap)
    case Item(head, tail) => Render(head, gap) + "," + gap + RenderItems(tail, gap)
  }

  function RenderFields(fields: Fields, gap: string): string {
    match fields
    case NoFields => ""
    case Field(name, value, NoFields) => Quote(name) + ":" + gap + Render(value, gap)
    case Field(name, value, rest) =>
      Quote(name) + ":" + gap + Render(value, gap) + "," + gap + RenderFields(rest, gap)
  }

  /** Code-point order, Python's order on strings. */
  predicate Less(a: string, b: string) {
    b != "" && (a == "" || a[0] < b[0] || (a[0] == b[0] && Less(a[1..], b[1..])))
  }

  function Insert(name: string, value: Json, fields: Fields): Fields {
    if fields.NoFields? || Less(name, fields.name) then Field(name, value, fields)
    else Field(fields.name, fields.value, Insert(name, value, fields.rest))
  }

  /** Every object's fields in key order, at every depth. */
  function Canon(j: Json): Json {
    match j
    case Arr(items) => Arr(CanonItems(items))
    case Obj(fields) => Obj(CanonFields(fields))
    case _ => j
  }

  function CanonItems(items: Items): Items {
    match items
    case NoItems => NoItems
    case Item(head, tail) => Item(Canon(head), CanonItems(tail))
  }

  function CanonFields(fields: Fields): Fields {
    match fields
    case NoFields => NoFields
    case Field(name, value, rest) => Insert(name, Canon(value), CanonFields(rest))
  }

  function Dumps(j: Json): string {
    Render(Canon(j), "")
  }

  // ------------------------------------------------------------------ what the text looks like

  predicate Printable(s: string) {
    forall i :: 0 <= i < |s| ==> ' ' <= s[i] <= '~'
  }

  lemma UnitIsPrintable(u: nat)
    requires u < 0x1_0000
    ensures Printable(Unit(u))
  {
    FourDigits(u);
    forall n: nat | n < 16 ensures ' ' <= HexDigit(n) <= '~' {}
    hide HexDigit;
  }

  /** How Python writes a character: itself when it is plain printable ASCII, two characters for
      quote, backslash and the five named controls, one `\uXXXX` for the rest of the basic plane,
      and a surrogate pair beyond; printable ASCII in every case. */
  lemma EscapeForm(c: char)
    ensures Printable(Escape(c))
    ensures var plain, named := ' ' <= c <= '~' && c != '"' && c != '\\',
                                c in {'"', '\\', '\n', '\r', '\t', 8 as char, 12 as char};
            && (plain <==> Escape(c) == [c])
            && (named <==> |Escape(c)| == 2)
            && (!plain && !named && c as int < 0x1_0000 <==> |Escape(c)| == 6)
            && (c as int >= 0x1_0000 <==> |Escape(c)| == 12)
  {
    if c as int >= 0x1_0000 {
      var n := c as int - 0x1_0000;
      assert n / 1024 < 1024;
      UnitIsPrintable(0xD800 + n / 1024);
      UnitIsPrintable(0xDC00 + n % 1024);
    } else if !(' ' <= c <= '~') {
      UnitIsPrintable(c as int);
    }
    hide Unit;
  }

  lemma {:induction false} QuoteIsPrintable(s: string)
    ensures Printable(EscapeAll(s)) && Printable(Quote(s))
  {
    hide Escape;
    if s != "" {
      EscapeForm(s[0]);
      QuoteIsPrintable(s[1..]);
    }
  }

  /** The text is printable ASCII, whatever the strings in the value hold. */
  lemma {:induction false} RenderIsPrintable(j: Json, gap: string)
    requires Printable(gap)
    ensures Printable(Render(j, gap))
  {
    hide Quote, Decimal;
    match j
    case Str(s) => QuoteIsPrintable(s);
    case Arr(items) => ItemsArePrintable(items, gap);
    case Obj(fields) => FieldsArePrintable(fields, gap);
    case _ =>
  }

  lemma {:induction false} ItemsArePrintable(items: Items, gap: string)
    requires Printable(gap)
    ensures Printable(RenderItems(items, gap))
  {
    hide Render;
    if items.Item? {
      RenderIsPrintable(items.head, gap);
      ItemsArePrintable(items.tail, gap);
    }
  }

  lemma {:induction false} FieldsArePrintable(fields: Fields, gap: string)
    requires Printable(gap)
    ensures Printable(RenderFields(fields, gap))
  {
    hide Render, Quote;
    if fields.Field? {
      QuoteIsPrintable(fields.name);
      RenderIsPrintable(fields.value, gap);
      FieldsArePrintable(fields.rest, gap);
    }
  }

  // ------------------------------------------------------------------ the reader

  /** The white space of JSON, section 2 of RFC 8259. */
  predicate IsBlank(c: char) {
    c == ' ' || c == '\t' || c == '\n' || c == '\r'
  }

  function Skip(s: string): (r: string)
    ensures |r| <= |s|
  {
    if s != "" && IsBlank(s[0]) then Skip(s[1..]) else s
  }

  /** One value, and what follows it. */
  function ReadValue(s: string): (r: Option<(Json, string)>)
    ensures r.Some? ==> |r.value.1| < |s|
    decreases |s|, 0
  {
    if s == "" then None
    else if s[0] == 'n' then if "null" <= s then Some((Null, s[4..])) else None
    else if s[0] == 't' then if "true" <= s then Some((Bool(true), s[4..])) else None
    else if s[0] == 'f' then if "false" <= s then Some((Bool(false), s[5..])) else None
    else if s[0] == '"' then
      match ReadString(s[1..])
      case None => None
      case Some((text, rest)) => Some((Str(text), rest))
    else if s[0] == '[' then
      if "[]" <= s then Some((Arr(NoItems), s[2..]))
      else
        match ReadItems(s[1..])
        case None => None
        case Some((items, rest)) => Some((Arr(items), rest))
    else if s[0] == '{' then
      if "{}" <= s then Some((Obj(NoFields), s[2..]))
      else
        match ReadFields(s[1..])
        case None => None
        case Some((fields, rest)) => Some((Obj(fields), rest))
    else ReadNumber(s)
  }

  function ReadNumber(s: string): (r: Option<(Json, string)>)
    requires s != ""
    ensures r.Some? ==> |r.value.1| < |s|
  {
    if s[0] == '-' then
      var n := DigitRun(s[1..]);
      if n == 0 then None else Some((Num(-(DecimalValue(s[1..][..n]) as int)), s[1..][n..]))
    else
      var n := DigitRun(s);
      if n == 0 then None else Some((Num(DecimalValue(s[..n])), s[n..]))
  }

  /** One or more values up to the closing bracket. */
  function ReadItems(s: string): (r: Option<(Items, string)>)
    ensures r.Some? ==> |r.value.1| < |s|
    decreases |s|, 1
  {
    match ReadValue(s)
    case None => None
    case Some((head, rest)) =>
      if rest == "" then None
      else if rest[0] == ']' then Some((Item(head, NoItems), rest[1..]))
      else if rest[0] != ',' then None
      else
        match ReadItems(Skip(rest[1..]))
        case None => None
        case Some((tail, after)) => Some((Item(head, tail), after))
  }

  /** One or more fields up to the closing brace. */
  function ReadFields(s: string): (r: Option<(Fields, string)>)
    ensures r.Some? ==> |r.value.1| < |s|
    decreases |s|, 1
  {
    if s == "" || s[0] != '"' then None
    else
      match ReadString(s[1..])
      case None => None
      case Some((name, s1)) =>
        if s1 == "" || s1[0] != ':' then None
        else
          match ReadValue(Skip(s1[1..]))
          case None => None
          case Some((value, rest)) =>
            if rest == "" then None
            else if rest[0] == '}' then Some((Field(name, value, NoFields), rest[1..]))
            else if rest[0] != ',' then None
            else
              match ReadFields(Skip(rest[1..]))
              case None => None
              case Some((fields, after)) => Some((Field(name, value, fields), after))
  }

  function Loads(s: string): Option<Json> {
    match ReadValue(s)
    case Some((j, "")) => Some(j)
    case _ => None
  }

  // ------------------------------------------------------------------ reading back

  predicate Ends(rest: string) {
    rest == "" || !IsDigit(rest[0])
  }

  predicate Blank(gap: string) {
    forall i :: 0 <= i < |gap| ==> IsBlank(gap[i])
  }

  /** Text that no `Skip` shortens. */
  predicate Bare(s: string) {
    s != "" && !IsBlank(s[0])
  }

  lemma {:induction false} SkipGap(gap: string, s: string)
    requires Bare(s) && Blank(gap)
    ensures Skip(gap + s) == s
  {
    if gap == "" {
      assert gap + s == s;
    } else {
      SkipGap(gap[1..], s);
      assert (gap + s)[0] == gap[0] && (gap + s)[1..] == gap[1..] + s;
    }
  }

  lemma NumberBack(n: int, gap: string, rest: string)
    requires Ends(rest)
    ensures ReadValue(Render(Num(n), gap) + rest) == Some((Num(n), rest))
  {
    hide Decimal, DecimalValue, DigitRun, ReadItems, ReadFields, ReadString;
    var digits := Decimal(if n < 0 then -n else n);
    var s := Render(Num(n), gap) + rest;
    DigitRunIs(digits, rest);
    DecimalBack(if n < 0 then -n else n);
    if n < 0 {
      assert s == "-" + (digits + rest);
      assert s[0] == '-' && s[1..] == digits + rest;
      assert s[1..][..|digits|] == digits && s[1..][|digits|..] == rest;
    } else {
      assert s == digits + rest && s[0] == digits[0] && IsDigit(s[0]);
      assert s[..|digits|] == digits && s[|digits|..] == rest;
    }
  }

  lemma QuotedBack(text: string, rest: string)
    ensures var s := Quote(text) + rest; s != "" && s[0] == '"' && ReadString(s[1..]) == Some((text, rest))
  {
    hide ReadString, EscapeAll;
    StringBack(text, rest);
    var s := Quote(text) + rest;
    assert s[1..] == EscapeAll(text) + ("\"" + rest);
  }

  /** A rendered value begins neither like the end of a list nor with a blank. */
  lemma RenderBegins(j: Json, gap: string)
    ensures Bare(Render(j, gap)) && Render(j, gap)[0] != ']'
  {
    hide EscapeAll, RenderItems, RenderFields;
  }

  lemma FieldsBegin(fields: Fields, gap: string)
    requires fields.Field?
    ensures RenderFields(fields, gap) != "" && RenderFields(fields, gap)[0] == '"'
  {
    hide EscapeAll;
  }

  // The reader, one step at a time.

  lemma ReadStr(text: string, rest: string)
    ensures ReadValue(Quote(text) + rest) == Some((Str(text), rest))
  {
    hide ReadString, Quote, ReadItems, ReadFields, ReadNumber;
    QuotedBack(text, rest);
  }

  lemma ReadArr(s: string, items: Items, rest: string)
    requires s != "" && s[0] != ']' && ReadItems(s) == Some((items, rest))
    ensures ReadValue("[" + s) == Some((Arr(items), rest))
  {
    hide ReadString, ReadItems, ReadFields, ReadNumber;
    var whole := "[" + s;
    assert whole[0] == '[' && whole[1..] == s && whole[1] == s[0];
  }

  lemma ReadObj(s: string, fields: Fields, rest: string)
    requires s != "" && s[0] == '"' && ReadFields(s) == Some((fields, rest))
    ensures ReadValue("{" + s) == Some((Obj(fields), rest))
  {
    hide ReadString, ReadItems, ReadFields, ReadNumber;
    var whole := "{" + s;
    assert whole[0] == '{' && whole[1..] == s && whole[1] == s[0];
  }

  lemma ReadConstant(j: Json, gap: string, rest: string)
    requires j in {Null, Bool(true), Bool(false), Arr(NoItems), Obj(NoFields)}
    ensures ReadValue(Render(j, gap) + rest) == Some((j, rest))
  {
    hide ReadString, ReadItems, ReadFields, ReadNumber;
    var text := Render(j, gap);
    var s := text + rest;
    assert s[..|text|] == text && s[|text|..] == rest;
  }

  lemma ReadLastItem(s: string, head: Json, rest: string)
    requires ReadValue(s) == Some((head, "]" + rest))
    ensures ReadItems(s) == Some((Item(head, NoItems), rest))
  {
    hide ReadValue;
    assert ("]" + rest)[0] == ']' && ("]" + rest)[1..] == rest;
  }

  lemma ReadNextItem(s: string, head: Json, gap: string, more: string, tail: Items, rest: string)
    requires Bare(more) && Blank(gap)
    requires ReadValue(s) == Some((head, "," + (gap + more))) && ReadItems(more) == Some((tail, rest))
    ensures ReadItems(s) == Some((Item(head, tail), rest))
  {
    SkipGap(gap, more);
    hide ReadValue, Skip;
    assert ("," + (gap + more))[0] == ',' && ("," + (gap + more))[1..] == gap + more;
  }

  /** `"name":` and the value after the gap, up to the closing brace. */
  lemma ReadLastField(name: string, gap: string, s: string, value: Json, rest: string)
    requires Bare(s) && Blank(gap) && ReadValue(s) == Some((value, "}" + rest))
    ensures ReadFields(Quote(name) + (":" + (gap + s))) == Some((Field(name, value, NoFields), rest))
  {
    SkipGap(gap, s);
    hide ReadValue, ReadString, Quote, Skip;
    QuotedBack(name, ":" + (gap + s));
    assert (":" + (gap + s))[0] == ':' && (":" + (gap + s))[1..] == gap + s;
    assert ("}" + rest)[0] == '}' && ("}" + rest)[1..] == rest;
  }

  lemma ReadNextField(name: string, gap: string, s: string, value: Json, more: string, fields: Fields, rest: string)
    requires Bare(s) && Bare(more) && Blank(gap)
    requires ReadValue(s) == Some((value, "," + (gap + more))) && ReadFields(more) == Some((fields, rest))
    ensures ReadFields(Quote(name) + (":" + (gap + s))) == Some((Field(name, value, fields), rest))
  {
    SkipGap(gap, s);
    SkipGap(gap, more);
    hide ReadValue, ReadString, Quote, Skip;
    QuotedBack(name, ":" + (gap + s));
    assert (":" + (gap + s))[0] == ':' && (":" + (gap + s))[1..] == gap + s;
    assert ("," + (gap + more))[0] == ',' && ("," + (gap + more))[1..] == gap + more;
  }

  lemma ArrBack(items: Items, gap: string, rest: string)
    requires items.Item? && ReadItems(RenderItems(items, gap) + ("]" + rest)) == Some((items, rest))
    ensures ReadValue(Render(Arr(items), gap) + rest) == Some((Arr(items), rest))
  {
    hide ReadValue, ReadItems;
    var s := RenderItems(items, gap) + ("]" + rest);
    RenderBegins(items.head, gap);
    assert s[0] == Render(items.head, gap)[0];
    ReadArr(s, items, rest);
    assert Render(Arr(items), gap) + rest == "[" + s;
  }

  lemma ObjBack(fields: Fields, gap: string, rest: string)
    requires fields.Field? && ReadFields(RenderFields(fields, gap) + ("}" + rest)) == Some((fields, rest))
    ensures ReadValue(Render(Obj(fields), gap) + rest) == Some((Obj(fields), rest))
  {
    hide ReadValue, ReadFields, RenderFields;
    var s := RenderFields(fields, gap) + ("}" + rest);
    FieldsBegin(fields, gap);
    ReadObj(s, fields, rest);
    assert Render(Obj(fields), gap) + rest == "{" + s;
  }

  lemma {:induction false} ValueBack(j: Json, gap: string, rest: string)
    requires Blank(gap) && Ends(rest)
    ensures ReadValue(Render(j, gap) + rest) == Some((j, rest))
    decreases j, 1
  {
    hide ReadValue, ReadItems, ReadFields, Quote, Decimal, RenderItems, RenderFields, Blank;
    match j
    case Null => ReadConstant(j, gap, rest);
    case Bool(b) => ReadConstant(j, gap, rest);
    case Num(n) => NumberBack(n, gap, rest);
    case Str(text) => ReadStr(text, rest);
    case Arr(items) =>
      if items.NoItems? {
        ReadConstant(j, gap, rest);
      } else {
        ItemsBack(items, gap, rest);
        ArrBack(items, gap, rest);
      }
    case Obj(fields) =>
      if fields.NoFields? {
        ReadConstant(j, gap, rest);
      } else {
        FieldsBack(fields, gap, rest);
        ObjBack(fields, gap, rest);
      }
  }

  lemma {:induction false} ItemsBack(items: Items, gap: string, rest: string)
    requires Blank(gap) && items.Item?
    ensures ReadItems(RenderItems(items, gap) + ("]" + rest)) == Some((items, rest))
    decreases items, 0
  {
    hide Render, ReadValue, ReadItems, Blank, IsBlank;
    var s := RenderItems(items, gap) + ("]" + rest);
    if items.tail.NoItems? {
      ValueBack(items.head, gap, "]" + rest);
      ReadLastItem(s, items.head, rest);
    } else {
      var more := RenderItems(items.tail, gap) + ("]" + rest);
      ValueBack(items.head, gap, "," + (gap + more));
      ItemsBack(items.tail, gap, rest);
      RenderBegins(items.tail.head, gap);
      assert more[0] == Render(items.tail.head, gap)[0];
      assert s == Render(items.head, gap) + ("," + (gap + more));
      ReadNextItem(s, items.head, gap, more, items.tail, rest);
    }
  }

  lemma {:induction false} FieldsBack(fields: Fields, gap: string, rest: string)
    requires Blank(gap) && fields.Field?
    ensures ReadFields(RenderFields(fields, gap) + ("}" + rest)) == Some((fields, rest))
    decreases fields, 0
  {
    hide Render, ReadValue, ReadFields, Quote, Blank;
    RenderBegins(fields.value, gap);
    var s, text := RenderFields(fields, gap) + ("}" + rest), Render(fields.value, gap);
    if fields.rest.NoFields? {
      ValueBack(fields.value, gap, "}" + rest);
      assert Bare(text + ("}" + rest));
      ReadLastField(fields.name, gap, text + ("}" + rest), fields.value, rest);
      assert s == Quote(fields.name) + (":" + (gap + (text + ("}" + rest))));
    } else {
      var more := RenderFields(fields.rest, gap) + ("}" + rest);
      ValueBack(fields.value, gap, "," + (gap + more));
      FieldsBack(fields.rest, gap, rest);
      FieldsBegin(fields.rest, gap);
      assert Bare(more) && Bare(text + ("," + (gap + more)));
      ReadNextField(fields.name, gap, text + ("," + (gap + more)), fields.value, more, fields.rest, rest);
      assert s == Quote(fields.name) + (":" + (gap + (text + ("," + (gap + more)))));
    }
  }

  /** The reader undoes the printer, for every value and every white space between its parts. */
  lemma LoadsRender(j: Json, gap: string)
    requires Blank(gap)
    ensures Loads(Render(j, gap)) == Some(j)
  {
    ValueBack(j, gap, "");
    assert Render(j, gap) + "" == Render(j, gap);
  }

  // ------------------------------------------------------------------ what a value means

  /** Objects as maps: insertion order is gone. */
  datatype Value =
    | VNull | VBool(b: bool) | VNum(n: int) | VStr(s: string)
    | VArr(items: seq<Value>)
    | VObj(fields: map<string, Value>)

  function Meaning(j: Json): Value {
    match j
    case Null => VNull
    case Bool(b) => VBool(b)
    case Num(n) => VNum(n)
    case Str(s) => VStr(s)
    case Arr(items) => VArr(MeaningItems(items))
    case Obj(fields) => VObj(MeaningFields(fields))
  }

  function MeaningItems(items: Items): seq<Value> {
    match items
    case NoItems => []
    case Item(head, tail) => [Meaning(head)] + MeaningItems(tail)
  }

  function MeaningFields(fields: Fields): map<string, Value> {
    match fields
    case NoFields => map[]
    case Field(name, value, rest) => MeaningFields(rest)[name := Meaning(value)]
  }

  /** A Python dict holds each key once. */
  predicate IsDict(j: Json) {
    match j
    case Arr(items) => AreDicts(items)
    case Obj(fields) => HasDictFields(fields)
    case _ => true
  }

  predicate AreDicts(items: Items) {
    items.Item? ==> IsDict(items.head) && AreDicts(items.tail)
  }

  predicate HasDictFields(fields: Fields) {
    fields.Field? ==> IsDict(fields.value) && HasDictFields(fields.rest) && fields.name !in MeaningFields(fields.rest)
  }

  // ------------------------------------------------------------------ canonical forms

  predicate Ordered(j: Json) {
    match j
    case Arr(items) => OrderedItems(items)
    case Obj(fields) => OrderedFields(fields)
    case _ => true
  }

  predicate OrderedItems(items: Items) {
    items.Item? ==> Ordered(items.head) && OrderedItems(items.tail)
  }

  predicate OrderedFields(fields: Fields) {
    fields.Field? ==>
      && Ordered(fields.value) && OrderedFields(fields.rest)
      && (fields.rest.Field? ==> Less(fields.name, fields.rest.name))
  }

  /** The order of keys is by the first character in which they differ, a prefix first. */
  lemma {:induction false} LessIs(a: string, b: string)
    ensures Less(a, b) <==>
              exists n :: 0 <= n <= |a| && n < |b| && a[..n] == b[..n] && (n == |a| || a[n] < b[n])
  {
    if a != "" && b != "" && a[0] == b[0] {
      LessIs(a[1..], b[1..]);
      if n :| 0 <= n <= |a| && n < |b| && a[..n] == b[..n] && (n == |a| || a[n] < b[n]) {
        assert n > 0 && a[1..][..n - 1] == a[..n][1..] == b[..n][1..] == b[1..][..n - 1];
      }
      if n :| 0 <= n <= |a[1..]| && n < |b[1..]| && a[1..][..n] == b[1..][..n]
              && (n == |a[1..]| || a[1..][n] < b[1..][n]) {
        assert a[..n + 1] == [a[0]] + a[1..][..n] && b[..n + 1] == [b[0]] + b[1..][..n];
      }
    } else if b != "" {
      assert a[..0] == b[..0];
      forall n: nat | 0 < n <= |a| && n < |b| ensures a[..n] != b[..n] {
        assert a[..n][0] == a[0] && b[..n][0] == b[0];
      }
    }
  }

  lemma {:induction false} LessTotal(a: string, b: string)
    ensures Less(a, b) || Less(b, a) || a == b
  {
    if a != "" && b != "" && a[0] == b[0] {
      LessTotal(a[1..], b[1..]);
      assert a == [a[0]] + a[1..] && b == [b[0]] + b[1..];
    }
  }

  lemma {:induction false} LessStrict(a: string, b: string)
    requires Less(a, b)
    ensures !Less(b, a) && a != b
  {
    if a != "" && a[0] == b[0] {
      LessStrict(a[1..], b[1..]);
    }
  }

  lemma {:induction false} LessTransitive(a: string, b: string, c: string)
    requires Less(a, b) && Less(b, c)
    ensures Less(a, c)
  {
    if a != "" && a[0] == b[0] == c[0] {
      LessTransitive(a[1..], b[1..], c[1..]);
    }
  }

  /** In ordered fields, every later key is greater than the first. */
  lemma {:induction false} FirstIsLeast(fields: Fields, name: string)
    requires fields.Field? && OrderedFields(fields) && name in MeaningFields(fields.rest)
    ensures Less(fields.name, name)
  {
    if name != fields.rest.name {
      FirstIsLeast(fields.rest, name);
      LessTransitive(fields.name, fields.rest.name, name);
    }
  }

  lemma {:induction false} InsertMeans(name: string, value: Json, fields: Fields)
    requires name !in MeaningFields(fields)
    ensures MeaningFields(Insert(name, value, fields)) == MeaningFields(fields)[name := Meaning(value)]
  {
    if fields.Field? && !Less(name, fields.name) {
      InsertMeans(name, value, fields.rest);
    }
  }

  lemma {:induction false} InsertOrders(name: string, value: Json, fields: Fields)
    requires OrderedFields(fields) && Ordered(value) && name !in MeaningFields(fields)
    ensures OrderedFields(Insert(name, value, fields))
  {
    if fields.Field? && !Less(name, fields.name) {
      LessTotal(name, fields.name);
      InsertOrders(name, value, fields.rest);
    }
  }

  lemma {:induction false} CanonKeeps(j: Json)
    requires IsDict(j)
    ensures Meaning(Canon(j)) == Meaning(j) && Ordered(Canon(j))
  {
    match j
    case Arr(items) => CanonKeepsItems(items);
    case Obj(fields) => CanonKeepsFields(fields);
    case _ =>
  }

  lemma {:induction false} CanonKeepsItems(items: Items)
    requires AreDicts(items)
    ensures MeaningItems(CanonItems(items)) == MeaningItems(items) && OrderedItems(CanonItems(items))
  {
    if items.Item? {
      CanonKeeps(items.head);
      CanonKeepsItems(items.tail);
    }
  }

  lemma {:induction false} CanonKeepsFields(fields: Fields)
    requires HasDictFields(fields)
    ensures MeaningFields(CanonFields(fields)) == MeaningFields(fields) && OrderedFields(CanonFields(fields))
  {
    if fields.Field? {
      CanonKeeps(fields.value);
      CanonKeepsFields(fields.rest);
      InsertMeans(fields.name, Canon(fields.value), CanonFields(fields.rest));
      InsertOrders(fields.name, Canon(fields.value), CanonFields(fields.rest));
    }
  }

  lemma {:induction false} OrderedUnique(a: Json, b: Json)
    requires Ordered(a) && Ordered(b) && Meaning(a) == Meaning(b)
    ensures a == b
  {
    match a
    case Arr(items) => OrderedUniqueItems(items, b.items);
    case Obj(fields) => OrderedUniqueFields(fields, b.fields);
    case _ =>
  }

  lemma {:induction false} OrderedUniqueItems(a: Items, b: Items)
    requires OrderedItems(a) && OrderedItems(b) && MeaningItems(a) == MeaningItems(b)
    ensures a == b
  {
    if a.Item? {
      assert MeaningItems(a)[0] == MeaningItems(b)[0] && MeaningItems(a)[1..] == MeaningItems(b)[1..];
      OrderedUnique(a.head, b.head);
      OrderedUniqueItems(a.tail, b.tail);
    }
  }

  lemma FirstNotLater(fields: Fields)
    requires fields.Field? && OrderedFields(fields)
    ensures fields.name !in MeaningFields(fields.rest)
    ensures MeaningFields(fields.rest) == MeaningFields(fields) - {fields.name}
  {
    if fields.name in MeaningFields(fields.rest) {
      FirstIsLeast(fields, fields.name);
      LessStrict(fields.name, fields.name);
    }
  }

  lemma {:induction false} OrderedUniqueFields(a: Fields, b: Fields)
    requires OrderedFields(a) && OrderedFields(b) && MeaningFields(a) == MeaningFields(b)
    ensures a == b
  {
    assert a.Field? ==> a.name in MeaningFields(a);
    assert b.Field? ==> b.name in MeaningFields(b);
    if a.Field? {
      SameFirst(a, b);
      FirstNotLater(a);
      FirstNotLater(b);
      assert Meaning(a.value) == MeaningFields(a)[a.name] == Meaning(b.value);
      OrderedUnique(a.value, b.value);
      OrderedUniqueFields(a.rest, b.rest);
    }
  }

  lemma SameFirst(a: Fields, b: Fields)
    requires a.Field? && b.Field? && OrderedFields(a) && OrderedFields(b)
    requires a.name in MeaningFields(b) && b.name in MeaningFields(a)
    ensures a.name == b.name
  {
    if a.name != b.name {
      FirstIsLeast(b, a.name);
      FirstIsLeast(a, b.name);
      LessStrict(a.name, b.name);
    }
  }

  /** Two values print alike exactly when they mean the same: the order in which keys were
      inserted never shows, and nothing else is lost. */
  lemma CanonicalIdentity(a: Json, b: Json)
    requires IsDict(a) && IsDict(b)
    ensures Dumps(a) == Dumps(b) <==> Meaning(a) == Meaning(b)
  {
    CanonKeeps(a);
    CanonKeeps(b);
    if Dumps(a) == Dumps(b) {
      LoadsRender(Canon(a), "");
      LoadsRender(Canon(b), "");
    }
    if Meaning(a) == Meaning(b) {
      OrderedUnique(Canon(a), Canon(b));
    }
  }

  /** What `dumps` prints: the value with every object's keys in order, without any white space of
      its own, in printable ASCII. */
  lemma DumpsForm(j: Json)
    requires IsDict(j)
    ensures exists c :: Ordered(c) && Meaning(c) == Meaning(j) && Dumps(j) == Render(c, "")
    ensures Printable(Dumps(j))
  {
    CanonKeeps(j);
    RenderIsPrintable(Canon(j), "");
    hide Meaning, Ordered, Render, Canon;
    assert Dumps(j) == Render(Canon(j), "");
  }

  /** Reading back what `dumps` printed yields the same value. */
  lemma LoadsDumps(j: Json)
    requires IsDict(j)
    ensures Loads(Dumps(j)).Some? && Meaning(Loads(Dumps(j)).value) == Meaning(j)
  {
    CanonKeeps(j);
    LoadsRender(Canon(j), "");
  }
}
