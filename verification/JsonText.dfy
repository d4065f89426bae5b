/** The text json.dumps prints, written out as it is defined, and that the printer, which builds it from the end,
    prints it. */
module JsonText {
  import opened Wrappers
  import opened Json

  // ------------------------------------------------------------------ characters and numbers

  /** The digit of a number below sixteen, in lower case. */
  function HexDigit(n: nat): char
    requires n < 16
  {
    if n < 10 then ('0' as int + n) as char else ('a' as int + (n - 10)) as char
  }

  /** How section 7 of RFC 8259 lets a character be written: seven short escapes, four hexadecimal digits for the other
      control characters, and everything else as it is. */
  function Escaped(c: char): string {
    match c
    case '\"' => "\\\""
    case '\\' => "\\\\"
    case '\n' => "\\n"
    case '\r' => "\\r"
    case '\t' => "\\t"
    case '\U{0008}' => "\\b"
    case '\U{000C}' => "\\f"
    case _ =>
      if c < '\U{0020}' then "\\u00" + [HexDigit(c as int / 16), HexDigit(c as int % 16)] else [c]
  }

  lemma {:induction false} EscapesAsWritten(c: char)
    ensures EscapeChar(c) == Escaped(c)
  {
    if c < '\U{0020}' {
      var i := c as int;
      assert HEX[i / 16] == HexDigit(i / 16) && HEX[i % 16] == HexDigit(i % 16);
    }
  }

  function EscapedAll(s: string): string {
    if s == "" then "" else Escaped(s[0]) + EscapedAll(s[1..])
  }

  function Quoted(s: string): string {
    "\"" + EscapedAll(s) + "\""
  }

  lemma {:induction false} StringsAsWritten(s: string, rest: string)
    ensures StringTo(s, rest) == EscapedAll(s) + "\"" + rest
  {
    if s != "" {
      StringsAsWritten(s[1..], rest);
      EscapesAsWritten(s[0]);
    }
  }

  /** The decimal digits of a number, without leading zeros. */
  function Decimal(n: nat): string {
    if n < 10 then [('0' as int + n) as char] else Decimal(n / 10) + [('0' as int + n % 10) as char]
  }

  lemma {:induction false} NumbersAsWritten(n: nat)
    ensures NatText(n) == Decimal(n)
  {
    if n >= 10 { NumbersAsWritten(n / 10); }
  }

  // ------------------------------------------------------------------ values

  function Between(texts: seq<string>, separator: string): string {
    if texts == [] then ""
    else if |texts| == 1 then texts[0]
    else texts[0] + separator + Between(texts[1..], separator)
  }

  /** The text of a value between two separators: items apart, and a key apart from its value. */
  function Text(v: Value, comma: string, colon: string): string
    decreases v, 1
  {
    match v
    case Null => "null"
    case Bool(b) => if b then "true" else "false"
    case Int(n) => if n < 0 then "-" + Decimal(-n) else Decimal(n)
    case Float(f) => if f.Finite? then f.text else "NaN"
    case Str(s) => Quoted(s)
    case List(items) => "[" + Between(ItemTexts(items, comma, colon), comma) + "]"
    case Dict(entries) => "{" + Between(MemberTexts(entries, comma, colon), comma) + "}"
    case Opaque => ""
  }

  function ItemTexts(items: seq<Value>, comma: string, colon: string): (r: seq<string>)
    ensures |r| == |items|
    decreases items, 0
  {
    if items == [] then [] else [Text(items[0], comma, colon)] + ItemTexts(items[1..], comma, colon)
  }

  function MemberTexts(entries: seq<Entry>, comma: string, colon: string): (r: seq<string>)
    ensures |r| == |entries|
    decreases entries, 0
  {
    if entries == [] then []
    else
      [Quoted(entries[0].key) + colon + Text(entries[0].value, comma, colon)]
      + MemberTexts(entries[1..], comma, colon)
  }

  function Comma(st: Style): string {
    if st == Compact then "," else ", "
  }

  function Colon(st: Style): string {
    if st == Compact then ":" else ": "
  }

  // ------------------------------------------------------------------ the printer prints it

  lemma {:induction false} BetweenTail(first: string, others: seq<string>, separator: string)
    ensures Between([first] + others, separator)
         == if others == [] then first else first + separator + Between(others, separator)
  {
    assert ([first] + others)[1..] == others;
  }

  lemma {:induction false} SeparatorsAsWritten(st: Style, rest: string)
    ensures ItemSeparator(st, rest) == Comma(st) + rest && KeySeparator(st, rest) == Colon(st) + rest
  {
  }

  /** The first of several items, then the others. */
  lemma {:induction false} ItemsStep(items: seq<Value>, st: Style, rest: string)
    requires items != []
    requires forall more :: PrintTo(items[0], st, more) == Text(items[0], Comma(st), Colon(st)) + more
    requires ItemsTo(items[1..], st, rest) == Between(ItemTexts(items[1..], Comma(st), Colon(st)), Comma(st)) + rest
    ensures ItemsTo(items, st, rest) == Between(ItemTexts(items, Comma(st), Colon(st)), Comma(st)) + rest
  {
    var first, others := Text(items[0], Comma(st), Colon(st)), ItemTexts(items[1..], Comma(st), Colon(st));
    BetweenTail(first, others, Comma(st));
    SeparatorsAsWritten(st, ItemsTo(items[1..], st, rest));
    Regroup(first, Comma(st), Between(others, Comma(st)), rest);
  }

  lemma {:induction false} Regroup(a: string, b: string, c: string, d: string)
    ensures a + (b + (c + d)) == a + b + c + d
  {
  }

  lemma {:induction false} MembersStep(entries: seq<Entry>, st: Style, rest: string)
    requires entries != []
    requires forall more :: PrintTo(entries[0].value, st, more) == Text(entries[0].value, Comma(st), Colon(st)) + more
    requires MembersTo(entries[1..], st, rest)
          == Between(MemberTexts(entries[1..], Comma(st), Colon(st)), Comma(st)) + rest
    ensures MembersTo(entries, st, rest) == Between(MemberTexts(entries, Comma(st), Colon(st)), Comma(st)) + rest
  {
    var member := Quoted(entries[0].key) + Colon(st) + Text(entries[0].value, Comma(st), Colon(st));
    var others := MemberTexts(entries[1..], Comma(st), Colon(st));
    var tail := if |entries| == 1 then rest else ItemSeparator(st, MembersTo(entries[1..], st, rest));
    OneMember(entries[0], st, tail);
    BetweenTail(member, others, Comma(st));
    SeparatorsAsWritten(st, MembersTo(entries[1..], st, rest));
    Regroup(member, Comma(st), Between(others, Comma(st)), rest);
  }

  lemma {:induction false} OneMember(e: Entry, st: Style, tail: string)
    requires PrintTo(e.value, st, tail) == Text(e.value, Comma(st), Colon(st)) + tail
    ensures "\"" + StringTo(e.key, KeySeparator(st, PrintTo(e.value, st, tail)))
         == Quoted(e.key) + Colon(st) + Text(e.value, Comma(st), Colon(st)) + tail
  {
    var value := PrintTo(e.value, st, tail);
    SeparatorsAsWritten(st, value);
    StringsAsWritten(e.key, Colon(st) + value);
    QuotedFirst(EscapedAll(e.key), Colon(st), Text(e.value, Comma(st), Colon(st)), tail);
  }

  lemma {:induction false} QuotedFirst(s: string, colon: string, value: string, tail: string)
    ensures "\"" + (s + "\"" + (colon + (value + tail))) == "\"" + s + "\"" + colon + value + tail
  {
  }

  lemma {:induction false} ItemsAsWritten(items: seq<Value>, st: Style, rest: string)
    ensures ItemsTo(items, st, rest) == Between(ItemTexts(items, Comma(st), Colon(st)), Comma(st)) + rest
    decreases items, 0
  {
    if items != [] {
      forall more ensures PrintTo(items[0], st, more) == Text(items[0], Comma(st), Colon(st)) + more {
        ValuesAsWritten(items[0], st, more);
      }
      ItemsAsWritten(items[1..], st, rest);
      ItemsStep(items, st, rest);
    }
  }

  lemma {:induction false} MembersAsWritten(entries: seq<Entry>, st: Style, rest: string)
    ensures MembersTo(entries, st, rest) == Between(MemberTexts(entries, Comma(st), Colon(st)), Comma(st)) + rest
    decreases entries, 0
  {
    if entries != [] {
      forall more ensures PrintTo(entries[0].value, st, more) == Text(entries[0].value, Comma(st), Colon(st)) + more {
        ValuesAsWritten(entries[0].value, st, more);
      }
      MembersAsWritten(entries[1..], st, rest);
      MembersStep(entries, st, rest);
    }
  }

  /** The printer, which builds a text from its end, prints the text as it is defined. */
  lemma {:induction false} ValuesAsWritten(v: Value, st: Style, rest: string)
    ensures PrintTo(v, st, rest) == Text(v, Comma(st), Colon(st)) + rest
    decreases v, 1
  {
    match v
    case Int(n) => IntegersAsWritten(n, st, rest);
    case Str(s) => TextsAsWritten(s, st, rest);
    case List(items) =>
      ItemsAsWritten(items, st, "]" + rest);
      Bracketed("[", Between(ItemTexts(items, Comma(st), Colon(st)), Comma(st)), "]", rest);
    case Dict(entries) =>
      MembersAsWritten(entries, st, "}" + rest);
      Bracketed("{", Between(MemberTexts(entries, Comma(st), Colon(st)), Comma(st)), "}", rest);
    case _ =>
  }

  lemma {:induction false} IntegersAsWritten(n: int, st: Style, rest: string)
    ensures PrintTo(Int(n), st, rest) == Text(Int(n), Comma(st), Colon(st)) + rest
  {
    NumbersAsWritten(if n < 0 then -n else n);
  }

  lemma {:induction false} TextsAsWritten(s: string, st: Style, rest: string)
    ensures PrintTo(Str(s), st, rest) == Text(Str(s), Comma(st), Colon(st)) + rest
  {
    StringsAsWritten(s, rest);
    assert "\"" + (EscapedAll(s) + "\"" + rest) == Quoted(s) + rest;
  }

  lemma {:induction false} Bracketed(open: string, inner: string, close: string, rest: string)
    ensures open + (inner + (close + rest)) == open + inner + close + rest
  {
  }

  /** Compact texts have no white space between their parts; the defaults of json.dumps put a space after each comma
      and each colon. */
  lemma {:induction false} PrintsAsWritten(v: Value)
    ensures Print(v, Compact) == Text(v, ",", ":")
    ensures Print(v, Spaced) == Text(v, ", ", ": ")
  {
    ValuesAsWritten(v, Compact, "");
    ValuesAsWritten(v, Spaced, "");
  }

  // ------------------------------------------------------------------ a key twice in one object

  /** Of a repeated key plain parsing keeps the last value, and the place of the first. */
  lemma {:induction false} LastValueCounts(pairs: seq<Entry>, key: string, k: nat)
    requires k < |pairs| && pairs[k].key == key && forall j | k < j < |pairs| :: pairs[j].key != key
    ensures Lookup(DictOf(pairs), key) == Some(pairs[k].value)
  {
    var n := |pairs| - 1;
    AssignedLookup(DictOf(pairs[..n]), pairs[n], key);
    if k < n { LastValueCounts(pairs[..n], key, k); }
  }

  lemma {:induction false} AssignedLookup(entries: seq<Entry>, e: Entry, key: string)
    ensures Lookup(Assign(entries, e), key) == if key == e.key then Some(e.value) else Lookup(entries, key)
  {
    if entries != [] && entries[0].key != e.key { AssignedLookup(entries[1..], e, key); }
  }
}
