/** JSON values and text, as Python's json module prints and parses them (RFC 8259, sections 2 to 7).

    Strings are sequences of Unicode scalar values; a finite float is identified with the text its
    repr prints. The parser is the whole grammar, not only what the printer produces. */
module Json {
  import opened Wrappers

  datatype FloatValue = Finite(text: string) | NonFinite

  /** A Python value. A dict keeps its entries in insertion order. Anything normalisation rejects
      by type, including a dict with a key that is no string, is Opaque. */
  datatype Value =
    | Null
    | Bool(b: bool)
    | Int(n: int)
    | Float(f: FloatValue)
    | Str(s: string)
    | List(items: seq<Value>)
    | Dict(entries: seq<Entry>)
    | Opaque

  datatype Entry = Entry(key: string, value: Value)

  /** What the platform supplies: NFC, and float(text). */
  datatype Platform = Platform(nfc: string -> string, readFloat: string -> FloatValue)

  /** `Plain` is json.loads with its defaults; `Strict` is the parser of core/canonical.py. */
  datatype Mode = Plain | Strict

  datatype Parsed<+T> = Fail | Got(value: T, rest: string)

  // ------------------------------------------------------------------ dictionaries

  predicate HasKey(entries: seq<Entry>, key: string) {
    exists i | 0 <= i < |entries| :: entries[i].key == key
  }

  ghost predicate DistinctKeys(entries: seq<Entry>) {
    forall i, j | 0 <= i < j < |entries| :: entries[i].key != entries[j].key
  }

  function Lookup(entries: seq<Entry>, key: string): Option<Value> {
    if entries == [] then None
    else if entries[0].key == key then Some(entries[0].value)
    else Lookup(entries[1..], key)
  }

  /** Assignment into a dict: the place of a key is that of its first assignment. */
  function Assign(entries: seq<Entry>, e: Entry): seq<Entry> {
    if entries == [] then [e]
    else if entries[0].key == e.key then [e] + entries[1..]
    else [entries[0]] + Assign(entries[1..], e)
  }

  function DictOf(pairs: seq<Entry>): seq<Entry> {
    if pairs == [] then [] else Assign(DictOf(pairs[..|pairs| - 1]), pairs[|pairs| - 1])
  }

  function FirstRepeat(pairs: seq<Entry>): bool {
    pairs != [] && (HasKey(pairs[..|pairs| - 1], pairs[|pairs| - 1].key) || FirstRepeat(pairs[..|pairs| - 1]))
  }

  /** `object_pairs_hook`: strict parsing refuses a repeated key, plain parsing keeps the last. */
  function BuildDict(mode: Mode, pairs: seq<Entry>): Option<Value> {
    if mode.Strict? && FirstRepeat(pairs) then None else Some(Dict(DictOf(pairs)))
  }

  // ------------------------------------------------------------------ characters and numbers

  predicate IsAscii(s: string) {
    forall i | 0 <= i < |s| :: s[i] < '\U{0080}'
  }

  predicate IsSpace(c: char) {
    c == ' ' || c == '\t' || c == '\n' || c == '\r'
  }

  function SkipSpace(s: string): (r: string)
    ensures |r| <= |s|
    ensures r == "" || !IsSpace(r[0])
  {
    if s != "" && IsSpace(s[0]) then SkipSpace(s[1..]) else s
  }

  predicate Starts(s: string, c: char) {
    s != "" && s[0] == c
  }

  predicate IsDigit(c: char) {
    '0' <= c <= '9'
  }

  function DigitOf(d: nat): char
    requires d < 10
  {
    ['0', '1', '2', '3', '4', '5', '6', '7', '8', '9'][d]
  }

  function DigitValue(c: char): nat {
    if IsDigit(c) then c as int - '0' as int else 0
  }

  function NatText(n: nat): string {
    if n < 10 then [DigitOf(n)] else NatText(n / 10) + [DigitOf(n % 10)]
  }

  function IntText(n: int): string {
    if n < 0 then "-" + NatText(-n) else NatText(n)
  }

  function NatOf(s: string): nat {
    if s == "" then 0 else NatOf(s[..|s| - 1]) * 10 + DigitValue(s[|s| - 1])
  }

  function IntOf(s: string): int {
    if Starts(s, '-') then 0 - NatOf(s[1..]) else NatOf(s)
  }

  /** The leading digits of a text, and what follows. */
  function Digits(s: string): (r: (string, string))
    ensures |r.0| + |r.1| == |s|
    ensures s != "" && IsDigit(s[0]) ==> r.0 != ""
  {
    if s != "" && IsDigit(s[0]) then
      var (d, rest) := Digits(s[1..]);
      ([s[0]] + d, rest)
    else ("", s)
  }

  datatype Number = Number(text: string, isFloat: bool)

  function IntegerPart(s: string): (r: (string, string))
    requires s != "" && IsDigit(s[0])
    ensures |r.1| < |s|
  {
    if s[0] == '0' then ("0", s[1..]) else Digits(s)
  }

  function Fraction(s: string): (r: (string, string))
    ensures |r.1| <= |s|
  {
    if |s| >= 2 && s[0] == '.' && IsDigit(s[1]) then
      var (d, rest) := Digits(s[1..]);
      ("." + d, rest)
    else ("", s)
  }

  function Exponent(s: string): (r: (string, string))
    ensures |r.1| <= |s|
  {
    if |s| >= 2 && (s[0] == 'e' || s[0] == 'E') then
      if IsDigit(s[1]) then
        var (d, rest) := Digits(s[1..]);
        ([s[0]] + d, rest)
      else if |s| >= 3 && (s[1] == '+' || s[1] == '-') && IsDigit(s[2]) then
        var (d, rest) := Digits(s[2..]);
        ([s[0], s[1]] + d, rest)
      else ("", s)
    else ("", s)
  }

  function ScanUnsigned(s: string): (r: Parsed<Number>)
    ensures r.Got? ==> |r.rest| < |s|
  {
    if s == "" || !IsDigit(s[0]) then Fail
    else
      var (whole, r1) := IntegerPart(s);
      var (fraction, r2) := Fraction(r1);
      var (exponent, r3) := Exponent(r2);
      Got(Number(whole + fraction + exponent, fraction != "" || exponent != ""), r3)
  }

  function ScanNumber(s: string): (r: Parsed<Number>)
    ensures r.Got? ==> |r.rest| < |s|
  {
    if Starts(s, '-') then
      match ScanUnsigned(s[1..])
      case Got(n, rest) => Got(Number("-" + n.text, n.isFloat), rest)
      case Fail => Fail
    else ScanUnsigned(s)
  }

  /** The texts that print a finite float: a float literal of the grammar that reads as itself. */
  predicate IsFloatText(p: Platform, t: string) {
    ScanNumber(t) == Got(Number(t, true), "") && p.readFloat(t) == Finite(t)
  }

  // ------------------------------------------------------------------ strings

  const HEX := "0123456789abcdef"

  function HexValue(c: char): Option<nat> {
    if '0' <= c <= '9' then Some(c as int - '0' as int)
    else if 'a' <= c <= 'f' then Some(c as int - 'a' as int + 10)
    else if 'A' <= c <= 'F' then Some(c as int - 'A' as int + 10)
    else None
  }

  /** A character as json.dumps writes it when it does not escape non-ASCII. */
  function EscapeChar(c: char): (r: string)
    ensures r != ""
  {
    if c == '"' then "\\\""
    else if c == '\\' then "\\\\"
    else if c == '\n' then "\\n"
    else if c == '\r' then "\\r"
    else if c == '\t' then "\\t"
    else if c == '\U{0008}' then "\\b"
    else if c == '\U{000C}' then "\\f"
    else if c < ' ' then
      var i := c as int;
      ['\\', 'u', '0', '0', HEX[i / 16], HEX[i % 16]]
    else [c]
  }

  /** The body of a string literal, its closing quote, and `rest`. */
  function StringTo(s: string, rest: string): string {
    if s == "" then "\"" + rest else EscapeChar(s[0]) + StringTo(s[1..], rest)
  }

  function FourHex(s: string): Option<nat> {
    if |s| < 4 then None
    else
      match (HexValue(s[0]), HexValue(s[1]), HexValue(s[2]), HexValue(s[3]))
      case (Some(a), Some(b), Some(c), Some(d)) => Some(((a * 16 + b) * 16 + c) * 16 + d)
      case _ => None
  }

  /** A scalar value as a character; a lone surrogate has none. */
  function Scalar(n: nat): Option<char> {
    if n < 0xD800 || 0xE000 <= n < 0x11_0000 then Some(n as char) else None
  }

  /** The escape after a backslash: its character, and the text after it. */
  function Unescape(s: string): (r: Parsed<char>)
    ensures r.Got? ==> |r.rest| < |s|
  {
    if s == "" then Fail
    else
      var c := s[0];
      if c == '"' || c == '\\' || c == '/' then Got(c, s[1..])
      else if c == 'n' then Got('\n', s[1..])
      else if c == 'r' then Got('\r', s[1..])
      else if c == 't' then Got('\t', s[1..])
      else if c == 'b' then Got('\U{0008}', s[1..])
      else if c == 'f' then Got('\U{000C}', s[1..])
      else if c == 'u' then UnescapeUnicode(s[1..])
      else Fail
  }

  function UnescapeUnicode(s: string): (r: Parsed<char>)
    ensures r.Got? ==> |r.rest| <= |s|
  {
    match FourHex(s)
    case None => Fail
    case Some(high) =>
      if 0xD800 <= high < 0xDC00 && |s| >= 10 && s[4] == '\\' && s[5] == 'u' && FourHex(s[6..]).Some?
         && 0xDC00 <= FourHex(s[6..]).value < 0xE000
      then
        var code := 0x1_0000 + (high - 0xD800) * 0x400 + (FourHex(s[6..]).value - 0xDC00);
        if Scalar(code).Some? then Got(Scalar(code).value, s[10..]) else Fail
      else if Scalar(high).Some? then Got(Scalar(high).value, s[4..])
      else Fail
  }

  /** The rest of a string literal after its opening quote. */
  function ParseString(s: string): (r: Parsed<string>)
    ensures r.Got? ==> |r.rest| < |s|
    decreases |s|
  {
    if s == "" || s[0] < ' ' then Fail
    else if s[0] == '"' then Got("", s[1..])
    else if s[0] == '\\' then
      match Unescape(s[1..])
      case Fail => Fail
      case Got(c, after) =>
        (match ParseString(after)
         case Fail => Fail
         case Got(t, rest) => Got([c] + t, rest))
    else
      match ParseString(s[1..])
      case Fail => Fail
      case Got(t, rest) => Got([s[0]] + t, rest)
  }

  // ------------------------------------------------------------------ printing

  /** The separators: compact, or the defaults of json.dumps. */
  datatype Style = Compact | Spaced

  function ItemSeparator(st: Style, rest: string): string {
    if st.Compact? then "," + rest else ", " + rest
  }

  function KeySeparator(st: Style, rest: string): string {
    if st.Compact? then ":" + rest else ": " + rest
  }

  /** The text of a value, followed by `rest`. */
  function PrintTo(v: Value, st: Style, rest: string): string
    decreases v, 1
  {
    match v
    case Null => "null" + rest
    case Bool(b) => if b then "true" + rest else "false" + rest
    case Int(n) => IntText(n) + rest
    case Float(f) => if f.Finite? then f.text + rest else "NaN" + rest
    case Str(s) => "\"" + StringTo(s, rest)
    case List(items) => "[" + ItemsTo(items, st, "]" + rest)
    case Dict(entries) => "{" + MembersTo(entries, st, "}" + rest)
    case Opaque => rest
  }

  function ItemsTo(items: seq<Value>, st: Style, rest: string): string
    decreases items, 0
  {
    if items == [] then rest
    else PrintTo(items[0], st, if |items| == 1 then rest else ItemSeparator(st, ItemsTo(items[1..], st, rest)))
  }

  function MembersTo(entries: seq<Entry>, st: Style, rest: string): string
    decreases entries, 0
  {
    if entries == [] then rest
    else
      "\"" + StringTo(entries[0].key, KeySeparator(st,
        PrintTo(entries[0].value, st,
                if |entries| == 1 then rest else ItemSeparator(st, MembersTo(entries[1..], st, rest)))))
  }

  function Print(v: Value, st: Style): string {
    PrintTo(v, st, "")
  }

  /** The values json.dumps prints as JSON. */
  ghost predicate Printable(p: Platform, v: Value)
    decreases v
  {
    match v
    case Float(f) => f.Finite? && IsFloatText(p, f.text)
    case List(items) => forall i | 0 <= i < |items| :: Printable(p, items[i])
    case Dict(entries) => DistinctKeys(entries) && forall i | 0 <= i < |entries| :: Printable(p, entries[i].value)
    case Opaque => false
    case _ => true
  }

  // ------------------------------------------------------------------ parsing

  function Literal(s: string, word: string, v: Value): (r: Parsed<Value>)
    requires word != ""
    ensures r.Got? ==> |r.rest| < |s|
  {
    if word <= s then Got(v, s[|word|..]) else Fail
  }

  function ParseNumber(p: Platform, s: string): (r: Parsed<Value>)
    ensures r.Got? ==> |r.rest| < |s|
  {
    match ScanNumber(s)
    case Fail => Fail
    case Got(n, rest) => Got(if n.isFloat then Float(p.readFloat(n.text)) else Int(IntOf(n.text)), rest)
  }

  /** NaN and the infinities are no JSON; plain parsing accepts them all the same. */
  function ParseConstant(mode: Mode, s: string, word: string): (r: Parsed<Value>)
    requires word != ""
    ensures r.Got? ==> |r.rest| < |s|
  {
    if mode.Plain? then Literal(s, word, Float(NonFinite)) else Fail
  }

  function ParseValue(p: Platform, mode: Mode, s: string): (r: Parsed<Value>)
    ensures r.Got? ==> |r.rest| < |s|
    decreases |s|, 1
  {
    if s == "" then Fail
    else if s[0] == '"' then
      (match ParseString(s[1..])
       case Fail => Fail
       case Got(t, rest) => Got(Str(t), rest))
    else if s[0] == '{' then
      var t := SkipSpace(s[1..]);
      if Starts(t, '}') then Got(Dict([]), t[1..])
      else
        (match ParseMembers(p, mode, t)
         case Fail => Fail
         case Got(pairs, rest) =>
           (match BuildDict(mode, pairs)
            case None => Fail
            case Some(v) => Got(v, rest)))
    else if s[0] == '[' then
      var t := SkipSpace(s[1..]);
      if Starts(t, ']') then Got(List([]), t[1..])
      else
        (match ParseItems(p, mode, t)
         case Fail => Fail
         case Got(items, rest) => Got(List(items), rest))
    else if s[0] == 'n' then Literal(s, "null", Null)
    else if s[0] == 't' then Literal(s, "true", Bool(true))
    else if s[0] == 'f' then Literal(s, "false", Bool(false))
    else if s[0] == 'N' then ParseConstant(mode, s, "NaN")
    else if s[0] == 'I' then ParseConstant(mode, s, "Infinity")
    else if "-Infinity" <= s then ParseConstant(mode, s, "-Infinity")
    else ParseNumber(p, s)
  }

  function ParseItems(p: Platform, mode: Mode, s: string): (r: Parsed<seq<Value>>)
    ensures r.Got? ==> |r.rest| < |s|
    decreases |s|, 2
  {
    match ParseValue(p, mode, s)
    case Fail => Fail
    case Got(v, after) =>
      var t := SkipSpace(after);
      if Starts(t, ']') then Got([v], t[1..])
      else if Starts(t, ',') then
        (match ParseItems(p, mode, SkipSpace(t[1..]))
         case Fail => Fail
         case Got(vs, rest) => Got([v] + vs, rest))
      else Fail
  }

  function ParseMembers(p: Platform, mode: Mode, s: string): (r: Parsed<seq<Entry>>)
    ensures r.Got? ==> |r.rest| < |s|
    decreases |s|, 2
  {
    if !Starts(s, '"') then Fail
    else
      match ParseString(s[1..])
      case Fail => Fail
      case Got(key, after) =>
        var colon := SkipSpace(after);
        if !Starts(colon, ':') then Fail
        else
          match ParseValue(p, mode, SkipSpace(colon[1..]))
          case Fail => Fail
          case Got(v, next) =>
            var t := SkipSpace(next);
            if Starts(t, '}') then Got([Entry(key, v)], t[1..])
            else if Starts(t, ',') then
              (match ParseMembers(p, mode, SkipSpace(t[1..]))
               case Fail => Fail
               case Got(es, rest) => Got([Entry(key, v)] + es, rest))
            else Fail
  }

  /** json.loads: one value, white space around it, and nothing else. */
  function Parse(p: Platform, mode: Mode, s: string): Option<Value> {
    match ParseValue(p, mode, SkipSpace(s))
    case Fail => None
    case Got(v, rest) => if SkipSpace(rest) == "" then Some(v) else None
  }
}
