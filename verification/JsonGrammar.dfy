/** JSON as sections 2 to 7 of RFC 8259 define it, as syntax trees that keep every choice a text makes: its white
    space, its escapes and its spelling of numbers. The parser reads exactly the texts of these trees, each as what it
    means. */
module JsonGrammar {
  import opened Wrappers
  import opened Json
  import opened JsonRoundTrip

  // ------------------------------------------------------------------ the grammar

  predicate IsGap(s: string) {
    forall i | 0 <= i < |s| :: s[i] == ' ' || s[i] == '\t' || s[i] == '\n' || s[i] == '\r'
  }

  predicate IsDigits(s: string) {
    s != "" && forall i | 0 <= i < |s| :: '0' <= s[i] <= '9'
  }

  predicate IsHex(c: char) {
    '0' <= c <= '9' || 'a' <= c <= 'f' || 'A' <= c <= 'F'
  }

  predicate IsFourHex(s: string) {
    |s| == 4 && IsHex(s[0]) && IsHex(s[1]) && IsHex(s[2]) && IsHex(s[3])
  }

  function HexNumber(c: char): nat {
    if '0' <= c <= '9' then c as int - '0' as int
    else if 'A' <= c <= 'F' then c as int - 'A' as int + 10
    else if 'a' <= c <= 'f' then c as int - 'a' as int + 10
    else 0
  }

  function Code(s: string): nat {
    if |s| != 4 then 0
    else HexNumber(s[0]) * 4096 + HexNumber(s[1]) * 256 + HexNumber(s[2]) * 16 + HexNumber(s[3])
  }

  function CharacterAt(n: int): char {
    if 0 <= n < 0xD800 || 0xE000 <= n < 0x11_0000 then n as char else ' '
  }

  /** One character of a string: as it is, after a backslash, by its code, or by a pair of surrogates. */
  datatype Character = Bare(c: char) | Short(letter: char) | Coded(digits: string) | Paired(high: string, low: string)

  predicate IsCharacter(x: Character) {
    match x
    case Bare(c) => c >= '\U{0020}' && c != '\"' && c != '\\'
    case Short(l) =>
      l == '\"' || l == '\\' || l == '/' || l == 'b' || l == 'f' || l == 'n' || l == 'r' || l == 't'
    case Coded(d) => IsFourHex(d) && !(0xD800 <= Code(d) < 0xE000)
    case Paired(h, l) =>
      IsFourHex(h) && IsFourHex(l) && 0xD800 <= Code(h) < 0xDC00 && 0xDC00 <= Code(l) < 0xE000
  }

  function CharacterText(x: Character): string {
    match x
    case Bare(c) => [c]
    case Short(l) => ['\\', l]
    case Coded(d) => "\\u" + d
    case Paired(h, l) => "\\u" + h + "\\u" + l
  }

  function CharacterOf(x: Character): char {
    match x
    case Bare(c) => c
    case Short(l) =>
      if l == 'b' then '\U{0008}'
      else if l == 'f' then '\U{000C}'
      else if l == 'n' then '\U{000A}'
      else if l == 'r' then '\U{000D}'
      else if l == 't' then '\U{0009}'
      else l
    case Coded(d) => CharacterAt(Code(d))
    case Paired(h, l) => CharacterAt(0x1_0000 + (Code(h) - 0xD800) * 0x400 + (Code(l) - 0xDC00))
  }

  predicate AreCharacters(xs: seq<Character>) {
    forall i | 0 <= i < |xs| :: IsCharacter(xs[i])
  }

  /** A string after its opening quote, its closing quote, and what follows. */
  function CharactersTo(xs: seq<Character>, rest: string): string {
    if xs == [] then "\"" + rest else CharacterText(xs[0]) + CharactersTo(xs[1..], rest)
  }

  function StringOf(xs: seq<Character>): string {
    if xs == [] then "" else [CharacterOf(xs[0])] + StringOf(xs[1..])
  }

  /** A number: a sign, an integer without leading zeros, a fraction and an exponent, of which all but the integer may
      be missing. */
  datatype Numeral = Numeral(minus: bool, whole: string, fraction: string, power: string)

  predicate IsNumeral(n: Numeral) {
    && IsDigits(n.whole) && (n.whole[0] == '0' ==> |n.whole| == 1)
    && (n.fraction == "" || (n.fraction[0] == '.' && IsDigits(n.fraction[1..])))
    && IsPower(n.power)
  }

  predicate IsPower(e: string) {
    || e == ""
    || (&& (e[0] == 'e' || e[0] == 'E')
        && (IsDigits(e[1..]) || (|e| > 1 && (e[1] == '+' || e[1] == '-') && IsDigits(e[2..]))))
  }

  function Unsigned(n: Numeral): string {
    n.whole + n.fraction + n.power
  }

  function NumeralText(n: Numeral): string {
    (if n.minus then "-" else "") + Unsigned(n)
  }

  function DecimalNumber(s: string): int {
    if s == "" then 0 else DecimalNumber(s[..|s| - 1]) * 10 + (s[|s| - 1] as int - '0' as int)
  }

  /** A number with neither fraction nor exponent is an integer; any other is a float. */
  function NumberOf(p: Platform, n: Numeral): Value {
    if n.fraction == "" && n.power == "" then
      Int(if n.minus then 0 - DecimalNumber(n.whole) else DecimalNumber(n.whole))
    else Float(p.readFloat(NumeralText(n)))
  }

  datatype Syntax =
    | Word(word: Value)
    | Constant(name: string)
    | Figure(n: Numeral)
    | Quote(chars: seq<Character>)
    | Array(gap: string, items: seq<Item>)
    | Object(gap: string, members: seq<Member>)

  datatype Item = Item(before: string, value: Syntax, after: string)

  datatype Member = Member(before: string, key: seq<Character>, colonBefore: string, colonAfter: string, value: Syntax,
                           after: string)

  /** The text of a value, followed by `rest`. */
  function WriteTo(c: Syntax, rest: string): string
    decreases c, 1
  {
    match c
    case Word(v) => (if v == Null then "null" else if v == Bool(true) then "true" else "false") + rest
    case Constant(name) => name + rest
    case Figure(n) => NumeralText(n) + rest
    case Quote(xs) => "\"" + CharactersTo(xs, rest)
    case Array(gap, items) => "[" + if items == [] then gap + "]" + rest else ItemsTo(items, "]" + rest)
    case Object(gap, ms) => "{" + if ms == [] then gap + "}" + rest else MembersTo(ms, "}" + rest)
  }

  function ItemsTo(items: seq<Item>, rest: string): string
    requires items != []
    decreases items, 0
  {
    items[0].before
    + WriteTo(items[0].value, items[0].after + if |items| == 1 then rest else "," + ItemsTo(items[1..], rest))
  }

  function MembersTo(ms: seq<Member>, rest: string): string
    requires ms != []
    decreases ms, 0
  {
    var m := ms[0];
    m.before + "\""
    + CharactersTo(m.key, m.colonBefore + ":" + m.colonAfter
                          + WriteTo(m.value, m.after + if |ms| == 1 then rest else "," + MembersTo(ms[1..], rest)))
  }

  /** A tree of the grammar. Plain mode also takes the names of what is no finite number, which are no JSON; strict mode
      takes no object with a key twice. */
  ghost predicate IsSyntax(mode: Mode, c: Syntax)
    decreases c, 1
  {
    match c
    case Word(v) => v == Null || v == Bool(true) || v == Bool(false)
    case Constant(name) => mode == Mode.Plain && (name == "NaN" || name == "Infinity" || name == "-Infinity")
    case Figure(n) => IsNumeral(n)
    case Quote(xs) => AreCharacters(xs)
    case Array(gap, items) => IsGap(gap) && forall i | 0 <= i < |items| :: IsItem(mode, items[i])
    case Object(gap, ms) =>
      && IsGap(gap) && (forall i | 0 <= i < |ms| :: IsMember(mode, ms[i]))
      && (mode == Mode.Strict ==>
            forall i, j | 0 <= i < j < |ms| :: StringOf(ms[i].key) != StringOf(ms[j].key))
  }

  ghost predicate IsItem(mode: Mode, x: Item)
    decreases x, 0
  {
    IsGap(x.before) && IsGap(x.after) && IsSyntax(mode, x.value)
  }

  ghost predicate IsMember(mode: Mode, m: Member)
    decreases m, 0
  {
    && IsGap(m.before) && IsGap(m.colonBefore) && IsGap(m.colonAfter) && IsGap(m.after) && AreCharacters(m.key)
    && IsSyntax(mode, m.value)
  }

  /** What a tree means. Of two members with one key the later one counts. */
  function Meaning(p: Platform, c: Syntax): Value
    decreases c, 1
  {
    match c
    case Word(v) => v
    case Constant(_) => Float(NonFinite)
    case Figure(n) => NumberOf(p, n)
    case Quote(xs) => Str(StringOf(xs))
    case Array(_, items) => List(ItemMeanings(p, items))
    case Object(_, ms) => Dict(DictOf(MemberMeanings(p, ms)))
  }

  function ItemMeanings(p: Platform, items: seq<Item>): (r: seq<Value>)
    ensures |r| == |items|
    decreases items, 0
  {
    if items == [] then [] else [Meaning(p, items[0].value)] + ItemMeanings(p, items[1..])
  }

  function MemberMeanings(p: Platform, ms: seq<Member>): (r: seq<Entry>)
    ensures |r| == |ms| && forall i | 0 <= i < |ms| :: r[i].key == StringOf(ms[i].key)
    decreases ms, 0
  {
    if ms == [] then [] else [Entry(StringOf(ms[0].key), Meaning(p, ms[0].value))] + MemberMeanings(p, ms[1..])
  }

  // ------------------------------------------------------------------ characters are read

  lemma {:induction false} HexIsRead(c: char)
    ensures HexValue(c) == if IsHex(c) then Some(HexNumber(c)) else None
  {
  }

  lemma {:induction false} FourHexIsRead(s: string)
    ensures FourHex(s).Some? <==> |s| >= 4 && IsFourHex(s[..4])
    ensures FourHex(s).Some? ==> FourHex(s).value == Code(s[..4])
  {
    if |s| >= 4 {
      HexIsRead(s[0]);
      HexIsRead(s[1]);
      HexIsRead(s[2]);
      HexIsRead(s[3]);
    }
  }

  lemma {:induction false} CodedIsRead(d: string, tail: string)
    requires IsCharacter(Coded(d))
    ensures Unescape("u" + d + tail) == Got(CharacterOf(Coded(d)), tail)
  {
    var s := d + tail;
    assert ("u" + d + tail)[1..] == s && s[..4] == d && s[4..] == tail;
    FourHexIsRead(s);
  }

  lemma {:induction false} PairIsRead(h: string, l: string, tail: string)
    requires IsCharacter(Paired(h, l))
    ensures Unescape("u" + h + "\\u" + l + tail) == Got(CharacterOf(Paired(h, l)), tail)
  {
    var s := h + "\\u" + l + tail;
    assert ("u" + h + "\\u" + l + tail)[1..] == s && s[..4] == h && s[4] == '\\' && s[5] == 'u';
    assert s[6..] == l + tail && (l + tail)[..4] == l && s[10..] == tail;
    FourHexIsRead(s);
    FourHexIsRead(s[6..]);
  }

  lemma {:induction false} ShortIsRead(l: char, tail: string)
    requires IsCharacter(Short(l))
    ensures Unescape([l] + tail) == Got(CharacterOf(Short(l)), tail)
  {
    assert ([l] + tail)[1..] == tail;
  }

  lemma {:induction false} CharacterIsRead(x: Character, tail: string, t: string, rest: string)
    requires IsCharacter(x) && ParseString(tail) == Got(t, rest)
    ensures ParseString(CharacterText(x) + tail) == Got([CharacterOf(x)] + t, rest)
  {
    if x.Bare? {
      assert (CharacterText(x) + tail)[1..] == tail;
      PlainStep(CharacterText(x) + tail, t, rest);
    } else {
      EscapeIsRead(x, tail);
      EscapedStep(CharacterText(x), CharacterOf(x), tail, t, rest);
    }
  }

  lemma {:induction false} EscapeIsRead(x: Character, tail: string)
    requires IsCharacter(x) && !x.Bare?
    ensures Starts(CharacterText(x), '\\')
    ensures Unescape(CharacterText(x)[1..] + tail) == Got(CharacterOf(x), tail)
  {
    match x
    case Short(l) =>
      assert CharacterText(x)[1..] == [l];
      ShortIsRead(l, tail);
    case Coded(d) =>
      assert CharacterText(x)[1..] == "u" + d;
      CodedIsRead(d, tail);
    case Paired(h, l) =>
      assert CharacterText(x)[1..] == "u" + h + "\\u" + l;
      PairIsRead(h, l, tail);
  }

  lemma {:induction false} StringIsRead(xs: seq<Character>, rest: string)
    requires AreCharacters(xs)
    ensures ParseString(CharactersTo(xs, rest)) == Got(StringOf(xs), rest)
  {
    if xs == [] {
      assert ("\"" + rest)[1..] == rest;
    } else {
      StringIsRead(xs[1..], rest);
      CharacterIsRead(xs[0], CharactersTo(xs[1..], rest), StringOf(xs[1..]), rest);
    }
  }

  // ------------------------------------------------------------------ numbers are read

  lemma {:induction false} DigitsAreRead(s: string, rest: string)
    requires IsDigits(s) && StopsDigits(rest)
    ensures Digits(s + rest) == (s, rest)
  {
    AllDigits(s);
    DigitsExtend(s, rest);
    assert "" + rest == rest;
  }

  lemma {:induction false} PowerIsRead(e: string)
    requires IsPower(e)
    ensures Exponent(e) == (e, "") && StopsDigits(e) && (e != "" ==> e[0] != '.')
  {
    if e != "" {
      if IsDigits(e[1..]) {
        AllDigits(e[1..]);
        assert e == [e[0]] + e[1..];
      } else {
        AllDigits(e[2..]);
        assert e == [e[0], e[1]] + e[2..];
      }
    }
  }

  lemma {:induction false} FractionIsRead(fraction: string, power: string)
    requires fraction == "" || (fraction[0] == '.' && IsDigits(fraction[1..]))
    requires StopsDigits(power) && (power != "" ==> power[0] != '.')
    ensures Fraction(fraction + power) == (fraction, power) && StopsDigits(fraction + power)
  {
    var s := fraction + power;
    if fraction == "" {
      assert s == power;
    } else {
      var digits := fraction[1..];
      assert s[1..] == digits + power && s[1] == digits[0];
      DigitsAreRead(digits, power);
      assert fraction == "." + digits;
    }
  }

  lemma {:induction false} WholeIsRead(whole: string, others: string)
    requires IsDigits(whole) && (whole[0] == '0' ==> |whole| == 1) && StopsDigits(others)
    ensures IntegerPart(whole + others) == (whole, others) && IsDigit((whole + others)[0])
  {
    var s := whole + others;
    if whole[0] == '0' {
      assert whole == "0" && s[1..] == others;
    } else {
      DigitsAreRead(whole, others);
    }
  }

  lemma {:induction false} UnsignedIsRead(n: Numeral)
    requires IsNumeral(n)
    ensures ScanUnsigned(Unsigned(n)) == Got(Number(Unsigned(n), n.fraction != "" || n.power != ""), "")
  {
    PowerIsRead(n.power);
    FractionIsRead(n.fraction, n.power);
    JoinedIsRead(n.whole, n.fraction, n.power);
  }

  lemma {:induction false} JoinedIsRead(whole: string, fraction: string, power: string)
    requires IsDigits(whole) && (whole[0] == '0' ==> |whole| == 1) && StopsDigits(fraction + power)
    requires Fraction(fraction + power) == (fraction, power) && Exponent(power) == (power, "")
    ensures ScanUnsigned(whole + fraction + power)
         == Got(Number(whole + fraction + power, fraction != "" || power != ""), "")
  {
    WholeIsRead(whole, fraction + power);
    assert whole + fraction + power == whole + (fraction + power);
    PartsAreRead(whole + fraction + power, whole, fraction + power, fraction, power, power);
  }

  lemma {:induction false} PartsAreRead(s: string, whole: string, r1: string, fraction: string, r2: string,
                                        power: string)
    requires s != "" && IsDigit(s[0]) && IntegerPart(s) == (whole, r1)
    requires Fraction(r1) == (fraction, r2) && Exponent(r2) == (power, "")
    ensures ScanUnsigned(s) == Got(Number(whole + fraction + power, fraction != "" || power != ""), "")
  {
  }

  lemma {:induction false} DecimalIsRead(s: string)
    requires forall i | 0 <= i < |s| :: '0' <= s[i] <= '9'
    ensures NatOf(s) == DecimalNumber(s)
  {
    if s != "" { DecimalIsRead(s[..|s| - 1]); }
  }

  lemma {:induction false} NumeralIsRead(n: Numeral)
    requires IsNumeral(n)
    ensures ScanNumber(NumeralText(n)) == Got(Number(NumeralText(n), n.fraction != "" || n.power != ""), "")
  {
    UnsignedIsRead(n);
    if n.minus {
      assert NumeralText(n)[1..] == Unsigned(n);
    } else {
      assert NumeralText(n) == Unsigned(n) && NumeralText(n)[0] == n.whole[0];
    }
  }

  lemma {:induction false} IntegerIsRead(n: Numeral)
    requires IsNumeral(n) && n.fraction == "" && n.power == ""
    ensures IntOf(NumeralText(n)) == if n.minus then 0 - DecimalNumber(n.whole) else DecimalNumber(n.whole)
  {
    DecimalIsRead(n.whole);
    if n.minus {
      assert NumeralText(n)[1..] == n.whole;
    } else {
      assert NumeralText(n) == n.whole;
    }
  }

  lemma {:induction false} FigureIsRead(p: Platform, mode: Mode, n: Numeral, rest: string)
    requires IsNumeral(n) && StopsNumber(rest)
    ensures ParseValue(p, mode, NumeralText(n) + rest) == Got(NumberOf(p, n), rest)
  {
    var isFloat := n.fraction != "" || n.power != "";
    NumeralIsRead(n);
    NumeralMeans(p, n);
    NumberParses(p, mode, NumeralText(n), rest, isFloat);
  }

  lemma {:induction false} NumeralMeans(p: Platform, n: Numeral)
    requires IsNumeral(n)
    ensures NumberOf(p, n)
         == if n.fraction != "" || n.power != "" then Float(p.readFloat(NumeralText(n)))
            else Int(IntOf(NumeralText(n)))
  {
    if n.fraction == "" && n.power == "" { IntegerIsRead(n); }
  }

  // ------------------------------------------------------------------ values are read

  lemma {:induction false} GapIsSkipped(gap: string, rest: string)
    requires IsGap(gap)
    ensures SkipSpace(gap + rest) == SkipSpace(rest)
  {
    if gap == "" {
      assert gap + rest == rest;
    } else {
      assert (gap + rest)[1..] == gap[1..] + rest;
      GapIsSkipped(gap[1..], rest);
    }
  }

  lemma {:induction false} GapStopsNumber(gap: string, rest: string)
    requires IsGap(gap) && StopsNumber(rest)
    ensures StopsNumber(gap + rest)
  {
    if gap == "" { assert gap + rest == rest; }
  }

  lemma {:induction false} SyntaxStarts(mode: Mode, c: Syntax, rest: string)
    requires IsSyntax(mode, c)
    ensures StartsValue(WriteTo(c, rest))
  {
    match c
    case Word(v) => PrefixStarts(if v == Null then "null" else if v == Bool(true) then "true" else "false", rest);
    case Constant(name) => PrefixStarts(name, rest);
    case Figure(n) => NumeralIsRead(n); NumberPrefixStarts(NumeralText(n), rest);
    case _ =>
  }

  lemma {:induction false} ConstantIsRead(p: Platform, name: string, rest: string)
    requires name == "NaN" || name == "Infinity" || name == "-Infinity"
    ensures ParseValue(p, Mode.Plain, name + rest) == Got(Float(NonFinite), rest)
  {
    var s := name + rest;
    assert s[0] == name[0] && name <= s && s[|name|..] == rest;
  }

  /** Every text of the grammar is read as what it means, whatever follows that cannot continue a number. */
  lemma {:induction false} SyntaxIsRead(p: Platform, mode: Mode, c: Syntax, rest: string)
    requires IsSyntax(mode, c) && StopsNumber(rest)
    ensures ParseValue(p, mode, WriteTo(c, rest)) == Got(Meaning(p, c), rest)
    decreases c, 2
  {
    match c
    case Word(v) =>
      WordParses(p, mode, if v == Null then "null" else if v == Bool(true) then "true" else "false", v, rest);
    case Constant(name) => ConstantIsRead(p, name, rest);
    case Figure(n) => FigureIsRead(p, mode, n, rest);
    case Quote(xs) =>
      StringIsRead(xs, rest);
      assert WriteTo(c, rest)[1..] == CharactersTo(xs, rest);
    case Array(gap, items) => ArrayIsRead(p, mode, gap, items, rest);
    case Object(gap, ms) => ObjectIsRead(p, mode, gap, ms, rest);
  }

  lemma {:induction false} ArrayIsRead(p: Platform, mode: Mode, gap: string, items: seq<Item>, rest: string)
    requires IsSyntax(mode, Array(gap, items)) && StopsNumber(rest)
    ensures ParseValue(p, mode, WriteTo(Array(gap, items), rest)) == Got(List(ItemMeanings(p, items)), rest)
    decreases items, 4
  {
    if items == [] {
      EmptyArrayIsRead(p, mode, gap, rest);
    } else {
      ItemsAreRead(p, mode, items, rest);
      FullArrayIsRead(p, mode, ItemsTo(items, "]" + rest), ItemMeanings(p, items), rest);
    }
  }

  lemma {:induction false} EmptyArrayIsRead(p: Platform, mode: Mode, gap: string, rest: string)
    requires IsGap(gap)
    ensures ParseValue(p, mode, "[" + (gap + "]" + rest)) == Got(List([]), rest)
  {
    var s := "[" + (gap + "]" + rest);
    assert s[1..] == gap + ("]" + rest);
    GapIsSkipped(gap, "]" + rest);
    SkipNothing("]" + rest);
    assert ("]" + rest)[1..] == rest;
  }

  lemma {:induction false} FullArrayIsRead(p: Platform, mode: Mode, body: string, vs: seq<Value>, rest: string)
    requires !Starts(SkipSpace(body), ']') && ParseItems(p, mode, SkipSpace(body)) == Got(vs, rest)
    ensures ParseValue(p, mode, "[" + body) == Got(List(vs), rest)
  {
    assert ("[" + body)[1..] == body;
  }

  /** One item: its value is read, and then what comes after its white space. */
  lemma {:induction false} OneItemIsRead(p: Platform, mode: Mode, x: Item, next: string)
    requires IsItem(mode, x) && StopsNumber(next)
    ensures var s := SkipSpace(x.before + WriteTo(x.value, x.after + next));
            StartsValue(s) && ParseValue(p, mode, s) == Got(Meaning(p, x.value), x.after + next)
    ensures SkipSpace(x.after + next) == SkipSpace(next)
    decreases x, 3
  {
    var value := WriteTo(x.value, x.after + next);
    GapIsSkipped(x.before, value);
    SyntaxStarts(mode, x.value, x.after + next);
    SkipNothing(value);
    GapStopsNumber(x.after, next);
    SyntaxIsRead(p, mode, x.value, x.after + next);
    GapIsSkipped(x.after, next);
  }

  lemma {:induction false} ItemsAreRead(p: Platform, mode: Mode, items: seq<Item>, rest: string)
    requires items != [] && forall i | 0 <= i < |items| :: IsItem(mode, items[i])
    ensures var t := SkipSpace(ItemsTo(items, "]" + rest));
            !Starts(t, ']') && ParseItems(p, mode, t) == Got(ItemMeanings(p, items), rest)
    decreases items, 3
  {
    var x, close := items[0], "]" + rest;
    assert IsItem(mode, x);
    if |items| == 1 {
      OneItemIsRead(p, mode, x, close);
      LastItemIsRead(p, mode, SkipSpace(ItemsTo(items, close)), Meaning(p, x.value), x.after + close, rest);
      assert items[1..] == [] && ItemMeanings(p, items) == [Meaning(p, x.value)];
    } else {
      var next := "," + ItemsTo(items[1..], close);
      OneItemIsRead(p, mode, x, next);
      ItemsAreRead(p, mode, items[1..], rest);
      NextItemIsRead(p, mode, SkipSpace(ItemsTo(items, close)), Meaning(p, x.value), x.after + next,
                     ItemsTo(items[1..], close), ItemMeanings(p, items[1..]), rest);
    }
  }

  lemma {:induction false} LastItemIsRead(p: Platform, mode: Mode, s: string, v: Value, after: string, rest: string)
    requires ParseValue(p, mode, s) == Got(v, after) && SkipSpace(after) == SkipSpace("]" + rest)
    ensures ParseItems(p, mode, s) == Got([v], rest)
  {
    SkipNothing("]" + rest);
    assert ("]" + rest)[1..] == rest;
  }

  lemma {:induction false} NextItemIsRead(p: Platform, mode: Mode, s: string, v: Value, after: string, more: string,
                                          vs: seq<Value>, rest: string)
    requires ParseValue(p, mode, s) == Got(v, after) && SkipSpace(after) == SkipSpace("," + more)
    requires ParseItems(p, mode, SkipSpace(more)) == Got(vs, rest)
    ensures ParseItems(p, mode, s) == Got([v] + vs, rest)
  {
    SkipNothing("," + more);
    assert ("," + more)[1..] == more;
  }

  lemma {:induction false} EmptyObjectIsRead(p: Platform, mode: Mode, gap: string, rest: string)
    requires IsGap(gap)
    ensures ParseValue(p, mode, "{" + (gap + "}" + rest)) == Got(Dict([]), rest)
  {
    var s := "{" + (gap + "}" + rest);
    assert s[1..] == gap + ("}" + rest);
    GapIsSkipped(gap, "}" + rest);
    SkipNothing("}" + rest);
    assert ("}" + rest)[1..] == rest;
  }

  lemma {:induction false} FullObjectIsRead(p: Platform, mode: Mode, body: string, pairs: seq<Entry>, v: Value,
                                            rest: string)
    requires !Starts(SkipSpace(body), '}') && ParseMembers(p, mode, SkipSpace(body)) == Got(pairs, rest)
    requires BuildDict(mode, pairs) == Some(v)
    ensures ParseValue(p, mode, "{" + body) == Got(v, rest)
  {
    assert ("{" + body)[1..] == body;
  }

  lemma {:induction false} ObjectIsRead(p: Platform, mode: Mode, gap: string, ms: seq<Member>, rest: string)
    requires IsSyntax(mode, Object(gap, ms)) && StopsNumber(rest)
    ensures ParseValue(p, mode, WriteTo(Object(gap, ms), rest)) == Got(Dict(DictOf(MemberMeanings(p, ms))), rest)
    decreases ms, 4
  {
    if ms == [] {
      EmptyObjectIsRead(p, mode, gap, rest);
    } else {
      MembersAreRead(p, mode, ms, rest);
      PairsBuild(mode, MemberMeanings(p, ms), ms);
      FullObjectIsRead(p, mode, MembersTo(ms, "}" + rest), MemberMeanings(p, ms),
                       Dict(DictOf(MemberMeanings(p, ms))), rest);
    }
  }

  lemma {:induction false} PairsBuild(mode: Mode, pairs: seq<Entry>, ms: seq<Member>)
    requires |pairs| == |ms| && forall i | 0 <= i < |ms| :: pairs[i].key == StringOf(ms[i].key)
    requires mode == Mode.Strict ==> forall i, j | 0 <= i < j < |ms| :: StringOf(ms[i].key) != StringOf(ms[j].key)
    ensures BuildDict(mode, pairs) == Some(Dict(DictOf(pairs)))
  {
    if mode == Mode.Strict {
      forall i, j | 0 <= i < j < |pairs| ensures pairs[i].key != pairs[j].key {
        assert StringOf(ms[i].key) != StringOf(ms[j].key);
      }
      DistinctIsDict(pairs);
    }
  }

  lemma {:induction false} MembersAreRead(p: Platform, mode: Mode, ms: seq<Member>, rest: string)
    requires ms != [] && forall i | 0 <= i < |ms| :: IsMember(mode, ms[i])
    ensures var t := SkipSpace(MembersTo(ms, "}" + rest));
            !Starts(t, '}') && ParseMembers(p, mode, t) == Got(MemberMeanings(p, ms), rest)
    decreases ms, 3
  {
    var m, close := ms[0], "}" + rest;
    assert IsMember(mode, m);
    if |ms| == 1 {
      OneMemberIsRead(p, mode, m, close);
      GapIsSkipped(m.after, close);
      SkipNothing(close);
      assert close[1..] == rest;
      assert ms[1..] == [] && MemberMeanings(p, ms) == [Entry(StringOf(m.key), Meaning(p, m.value))];
      assert MembersTo(ms, close) == MemberTo(m, close);
    } else {
      var next := "," + MembersTo(ms[1..], close);
      OneMemberIsRead(p, mode, m, next);
      GapIsSkipped(m.after, next);
      SkipNothing(next);
      assert next[1..] == MembersTo(ms[1..], close);
      MembersAreRead(p, mode, ms[1..], rest);
      assert MembersTo(ms, close) == MemberTo(m, next);
    }
  }

  /** A member with what follows it, and the white space before it. */
  function MemberTo(m: Member, next: string): string {
    m.before + "\"" + CharactersTo(m.key, m.colonBefore + ":" + m.colonAfter + WriteTo(m.value, m.after + next))
  }

  lemma {:induction false} OneMemberIsRead(p: Platform, mode: Mode, m: Member, next: string)
    requires IsMember(mode, m) && StopsNumber(next)
    ensures var s := SkipSpace(MemberTo(m, next));
            var t := SkipSpace(m.after + next);
            var e := Entry(StringOf(m.key), Meaning(p, m.value));
            && Starts(s, '"')
            && (Starts(t, '}') ==> ParseMembers(p, mode, s) == Got([e], t[1..]))
            && (Starts(t, ',') ==>
                  ParseMembers(p, mode, s) == match ParseMembers(p, mode, SkipSpace(t[1..]))
                                              case Fail => Fail
                                              case Got(es, rest) => Got([e] + es, rest))
    decreases m, 3
  {
    var value := WriteTo(m.value, m.after + next);
    var colon := m.colonBefore + ":" + m.colonAfter + value;
    var body := "\"" + CharactersTo(m.key, colon);
    assert MemberTo(m, next) == m.before + body;
    GapIsSkipped(m.before, body);
    SkipNothing(body);
    assert body[1..] == CharactersTo(m.key, colon);
    StringIsRead(m.key, colon);
    ColonIsRead(m.colonBefore, m.colonAfter, value);
    SyntaxStarts(mode, m.value, m.after + next);
    SkipNothing(value);
    GapStopsNumber(m.after, next);
    SyntaxIsRead(p, mode, m.value, m.after + next);
  }

  lemma {:induction false} ColonIsRead(before: string, after: string, value: string)
    requires IsGap(before) && IsGap(after)
    ensures var t := SkipSpace(before + ":" + after + value);
            Starts(t, ':') && SkipSpace(t[1..]) == SkipSpace(value)
  {
    var t := ":" + after + value;
    assert before + ":" + after + value == before + t && t[1..] == after + value;
    GapIsSkipped(before, t);
    SkipNothing(t);
    GapIsSkipped(after, value);
  }

  // ------------------------------------------------------------------ what is read is of the grammar

  lemma {:induction false} GapBefore(s: string) returns (gap: string)
    ensures IsGap(gap) && s == gap + SkipSpace(s)
  {
    if s != "" && IsSpace(s[0]) {
      gap := GapBefore(s[1..]);
      gap := [s[0]] + gap;
      assert s == [s[0]] + s[1..];
    } else {
      gap := "";
    }
  }

  lemma {:induction false} FourFirst(s: string)
    requires FourHex(s).Some?
    ensures |s| >= 4 && IsFourHex(s[..4]) && s == s[..4] + s[4..] && FourHex(s).value == Code(s[..4])
  {
    FourHexIsRead(s);
  }

  /** The escape behind what `Unescape` makes of the text after a backslash. */
  lemma {:induction false} EscapeBehind(s: string) returns (x: Character)
    requires Unescape(s).Got?
    ensures IsCharacter(x) && CharacterOf(x) == Unescape(s).value
    ensures "\\" + s == CharacterText(x) + Unescape(s).rest
  {
    if s[0] == 'u' { x := LongBehind(s); } else { x := ShortBehind(s); }
  }

  lemma {:induction false} LongBehind(s: string) returns (x: Character)
    requires Unescape(s).Got? && s[0] == 'u'
    ensures IsCharacter(x) && CharacterOf(x) == Unescape(s).value
    ensures "\\" + s == CharacterText(x) + Unescape(s).rest
  {
    var t := s[1..];
    x := CodeBehind(t);
    assert Unescape(s) == UnescapeUnicode(t);
    assert "\\" + s == "\\u" + t;
  }

  lemma {:induction false} ShortBehind(s: string) returns (x: Character)
    requires Unescape(s).Got? && s[0] != 'u'
    ensures IsCharacter(x) && CharacterOf(x) == Unescape(s).value
    ensures "\\" + s == CharacterText(x) + Unescape(s).rest
  {
    x := Short(s[0]);
    assert s == [s[0]] + s[1..];
  }

  lemma {:induction false} CodeBehind(s: string) returns (x: Character)
    requires UnescapeUnicode(s).Got?
    ensures IsCharacter(x) && CharacterOf(x) == UnescapeUnicode(s).value
    ensures "\\u" + s == CharacterText(x) + UnescapeUnicode(s).rest
  {
    FourFirst(s);
    if IsPair(s) { x := PairBehind(s); } else { x := SingleBehind(s); }
  }

  /** A high surrogate, and the escape of a low one after it. */
  predicate IsPair(s: string) {
    && |s| >= 10 && s[4] == '\\' && s[5] == 'u' && FourHex(s).Some? && FourHex(s[6..]).Some?
    && 0xD800 <= FourHex(s).value < 0xDC00 && 0xDC00 <= FourHex(s[6..]).value < 0xE000
  }

  lemma {:induction false} PairBehind(s: string) returns (x: Character)
    requires UnescapeUnicode(s).Got? && IsPair(s)
    ensures IsCharacter(x) && CharacterOf(x) == UnescapeUnicode(s).value
    ensures "\\u" + s == CharacterText(x) + UnescapeUnicode(s).rest
  {
    FourFirst(s);
    FourFirst(s[6..]);
    PairText(s);
    x := Paired(s[..4], s[6..10]);
  }

  lemma {:induction false} PairText(s: string)
    requires |s| >= 10 && s[4] == '\\' && s[5] == 'u'
    ensures s[6..][..4] == s[6..10]
    ensures "\\u" + s == "\\u" + s[..4] + "\\u" + s[6..10] + s[10..]
  {
    assert s == s[..4] + "\\u" + s[6..10] + s[10..];
  }

  lemma {:induction false} SingleBehind(s: string) returns (x: Character)
    requires UnescapeUnicode(s).Got? && !IsPair(s)
    ensures IsCharacter(x) && CharacterOf(x) == UnescapeUnicode(s).value
    ensures "\\u" + s == CharacterText(x) + UnescapeUnicode(s).rest
  {
    FourFirst(s);
    x := Coded(s[..4]);
  }

  lemma {:induction false} StringBehind(s: string) returns (xs: seq<Character>)
    requires ParseString(s).Got?
    ensures AreCharacters(xs) && StringOf(xs) == ParseString(s).value && s == CharactersTo(xs, ParseString(s).rest)
    decreases |s|
  {
    if s[0] == '"' {
      xs := [];
      assert s == "\"" + s[1..];
    } else if s[0] == '\\' {
      var x := EscapeBehind(s[1..]);
      var more := StringBehind(Unescape(s[1..]).rest);
      xs := [x] + more;
      assert s == "\\" + s[1..];
    } else {
      var more := StringBehind(s[1..]);
      xs := [Bare(s[0])] + more;
      assert s == [s[0]] + s[1..];
    }
  }

  lemma {:induction false} DigitsBehind(s: string)
    ensures s == Digits(s).0 + Digits(s).1 && (Digits(s).0 == "" || IsDigits(Digits(s).0))
  {
    if s != "" && IsDigit(s[0]) {
      var (d, rest) := Digits(s[1..]);
      DigitsBehind(s[1..]);
      OneDigitMore(s[0], d);
      assert s == [s[0]] + d + rest;
    }
  }

  lemma {:induction false} OneDigitMore(c: char, d: string)
    requires IsDigit(c) && (d == "" || IsDigits(d))
    ensures IsDigits([c] + d)
  {
  }

  lemma {:induction false} PowerBehind(s: string)
    ensures s == Exponent(s).0 + Exponent(s).1 && IsPower(Exponent(s).0)
  {
    if |s| >= 2 && (s[0] == 'e' || s[0] == 'E') {
      var e := Exponent(s).0;
      if IsDigit(s[1]) {
        DigitsBehind(s[1..]);
        assert e[1..] == Digits(s[1..]).0 && s == [s[0]] + s[1..];
      } else if |s| >= 3 && (s[1] == '+' || s[1] == '-') && IsDigit(s[2]) {
        DigitsBehind(s[2..]);
        assert e[2..] == Digits(s[2..]).0 && s == [s[0], s[1]] + s[2..];
      }
    }
  }

  lemma {:induction false} FractionBehind(s: string)
    ensures s == Fraction(s).0 + Fraction(s).1
    ensures Fraction(s).0 == "" || (Fraction(s).0[0] == '.' && IsDigits(Fraction(s).0[1..]))
  {
    if |s| >= 2 && s[0] == '.' && IsDigit(s[1]) {
      DigitsBehind(s[1..]);
      assert Fraction(s).0[1..] == Digits(s[1..]).0 && s == "." + s[1..];
    }
  }

  lemma {:induction false} WholeBehind(s: string)
    requires s != "" && IsDigit(s[0])
    ensures var w := IntegerPart(s).0;
            s == w + IntegerPart(s).1 && IsDigits(w) && (w[0] == '0' ==> |w| == 1)
  {
    DigitsBehind(s);
    assert s == [s[0]] + s[1..];
  }

  lemma {:induction false} FourParts(a: string, b: string, c: string, d: string)
    ensures a + (b + (c + d)) == a + b + c + d
  {
  }

  lemma {:induction false} PartsBehind(s: string, whole: string, r1: string, fraction: string, r2: string,
                                       power: string, r3: string)
    requires s == whole + r1 && r1 == fraction + r2 && r2 == power + r3
    ensures s == whole + fraction + power + r3
  {
    FourParts(whole, fraction, power, r3);
  }

  lemma {:induction false} UnsignedBehind(s: string) returns (n: Numeral)
    requires ScanUnsigned(s).Got?
    ensures IsNumeral(n) && !n.minus && s == Unsigned(n) + ScanUnsigned(s).rest
    ensures ScanUnsigned(s).value == Number(Unsigned(n), n.fraction != "" || n.power != "")
  {
    var (whole, r1) := IntegerPart(s);
    var (fraction, r2) := Fraction(r1);
    var (power, r3) := Exponent(r2);
    WholeBehind(s);
    FractionBehind(r1);
    PowerBehind(r2);
    PartsBehind(s, whole, r1, fraction, r2, power, r3);
    n := Numeral(false, whole, fraction, power);
  }

  lemma {:induction false} NumeralBehind(s: string) returns (n: Numeral)
    requires ScanNumber(s).Got?
    ensures IsNumeral(n) && s == NumeralText(n) + ScanNumber(s).rest
    ensures ScanNumber(s).value == Number(NumeralText(n), n.fraction != "" || n.power != "")
  {
    if Starts(s, '-') {
      n := UnsignedBehind(s[1..]);
      n := n.(minus := true);
      assert s == "-" + s[1..];
    } else {
      n := UnsignedBehind(s);
    }
  }

  lemma {:induction false} FigureBehind(p: Platform, s: string) returns (n: Numeral)
    requires ParseNumber(p, s).Got?
    ensures IsNumeral(n) && s == NumeralText(n) + ParseNumber(p, s).rest && NumberOf(p, n) == ParseNumber(p, s).value
  {
    n := NumeralBehind(s);
    if n.fraction == "" && n.power == "" { IntegerIsRead(n); }
  }

  /** A text that is read with `rest` left over is that of some tree followed by `rest`. */
  ghost predicate Behind(p: Platform, mode: Mode, s: string, c: Syntax, v: Value, rest: string) {
    IsSyntax(mode, c) && s == WriteTo(c, rest) && Meaning(p, c) == v
  }

  lemma {:induction false} SyntaxBehind(p: Platform, mode: Mode, s: string) returns (c: Syntax)
    requires ParseValue(p, mode, s).Got?
    ensures Behind(p, mode, s, c, ParseValue(p, mode, s).value, ParseValue(p, mode, s).rest)
    decreases |s|, 1
  {
    if s[0] == '"' {
      var xs := StringBehind(s[1..]);
      c := Quote(xs);
      assert s == "\"" + s[1..];
    } else if s[0] == '{' {
      c := ObjectBehind(p, mode, s);
    } else if s[0] == '[' {
      c := ArrayBehind(p, mode, s);
    } else {
      c := WordBehind(p, mode, s);
    }
  }

  lemma {:induction false} WordBehind(p: Platform, mode: Mode, s: string) returns (c: Syntax)
    requires ParseValue(p, mode, s).Got? && s[0] != '"' && s[0] != '{' && s[0] != '['
    ensures Behind(p, mode, s, c, ParseValue(p, mode, s).value, ParseValue(p, mode, s).rest)
  {
    if s[0] == 'n' {
      c := Word(Null);
    } else if s[0] == 't' {
      c := Word(Bool(true));
    } else if s[0] == 'f' {
      c := Word(Bool(false));
    } else if s[0] == 'N' {
      c := Constant("NaN");
    } else if s[0] == 'I' {
      c := Constant("Infinity");
    } else if "-Infinity" <= s {
      c := Constant("-Infinity");
    } else {
      var n := FigureBehind(p, s);
      c := Figure(n);
    }
  }

  lemma {:induction false} ArrayBehind(p: Platform, mode: Mode, s: string) returns (c: Syntax)
    requires ParseValue(p, mode, s).Got? && s[0] == '['
    ensures Behind(p, mode, s, c, ParseValue(p, mode, s).value, ParseValue(p, mode, s).rest)
    decreases |s|, 0
  {
    var gap := GapBefore(s[1..]);
    var t := SkipSpace(s[1..]);
    assert s == "[" + s[1..];
    if Starts(t, ']') {
      c := Array(gap, []);
      assert s[1..] == gap + "]" + t[1..];
    } else {
      var items := ItemsBehind(p, mode, t, gap);
      c := Array("", items);
    }
  }

  lemma {:induction false} ItemsBehind(p: Platform, mode: Mode, s: string, before: string) returns (items: seq<Item>)
    requires ParseItems(p, mode, s).Got? && IsGap(before)
    ensures items != [] && (forall i | 0 <= i < |items| :: IsItem(mode, items[i]))
    ensures before + s == ItemsTo(items, "]" + ParseItems(p, mode, s).rest)
    ensures ItemMeanings(p, items) == ParseItems(p, mode, s).value
    decreases |s|, 2
  {
    var c := SyntaxBehind(p, mode, s);
    var after := ParseValue(p, mode, s).rest;
    var gap := GapBefore(after);
    var t := SkipSpace(after);
    var x := Item(before, c, gap);
    assert IsItem(mode, x);
    if Starts(t, ']') {
      items := [x];
      assert t == "]" + t[1..];
      LastItemMeans(p, x);
    } else {
      var second := GapBefore(t[1..]);
      var more := ItemsBehind(p, mode, SkipSpace(t[1..]), second);
      items := [x] + more;
      assert t == "," + t[1..];
      NextItemMeans(p, x, more, "]" + ParseItems(p, mode, s).rest);
      EachIsItem(mode, x, more);
    }
  }

  lemma {:induction false} EachIsItem(mode: Mode, x: Item, more: seq<Item>)
    requires IsItem(mode, x) && forall i | 0 <= i < |more| :: IsItem(mode, more[i])
    ensures forall i | 0 <= i < |[x] + more| :: IsItem(mode, ([x] + more)[i])
  {
  }

  lemma {:induction false} LastItemMeans(p: Platform, x: Item)
    ensures forall rest :: ItemsTo([x], rest) == x.before + WriteTo(x.value, x.after + rest)
    ensures ItemMeanings(p, [x]) == [Meaning(p, x.value)]
  {
    assert [x][1..] == [];
  }

  lemma {:induction false} NextItemMeans(p: Platform, x: Item, more: seq<Item>, rest: string)
    requires more != []
    ensures ItemsTo([x] + more, rest) == x.before + WriteTo(x.value, x.after + ("," + ItemsTo(more, rest)))
    ensures ItemMeanings(p, [x] + more) == [Meaning(p, x.value)] + ItemMeanings(p, more)
  {
    assert ([x] + more)[1..] == more;
  }

  lemma {:induction false} ObjectBehind(p: Platform, mode: Mode, s: string) returns (c: Syntax)
    requires ParseValue(p, mode, s).Got? && s[0] == '{'
    ensures Behind(p, mode, s, c, ParseValue(p, mode, s).value, ParseValue(p, mode, s).rest)
    decreases |s|, 0
  {
    var gap := GapBefore(s[1..]);
    var t := SkipSpace(s[1..]);
    if Starts(t, '}') {
      c := Object(gap, []);
      EmptyObjectBehind(p, mode, s, gap);
    } else {
      var ms := MembersBehind(p, mode, t, gap);
      FullObjectBehind(p, mode, s);
      KeysBehind(mode, ParseMembers(p, mode, t).value, ms);
      c := Object("", ms);
      ObjectMeans(p, s, ms, ParseValue(p, mode, s).rest);
    }
  }

  lemma {:induction false} EmptyObjectBehind(p: Platform, mode: Mode, s: string, gap: string)
    requires ParseValue(p, mode, s).Got? && s[0] == '{' && Starts(SkipSpace(s[1..]), '}')
    requires IsGap(gap) && s[1..] == gap + SkipSpace(s[1..])
    ensures Behind(p, mode, s, Object(gap, []), ParseValue(p, mode, s).value, ParseValue(p, mode, s).rest)
  {
    var t := SkipSpace(s[1..]);
    assert s == "{" + (gap + "}" + t[1..]);
  }

  lemma {:induction false} ObjectMeans(p: Platform, s: string, ms: seq<Member>, rest: string)
    requires ms != [] && s != "" && s[0] == '{' && s[1..] == MembersTo(ms, "}" + rest)
    ensures s == WriteTo(Object("", ms), rest)
    ensures Meaning(p, Object("", ms)) == Dict(DictOf(MemberMeanings(p, ms)))
  {
    assert s == "{" + s[1..];
  }

  lemma {:induction false} FullObjectBehind(p: Platform, mode: Mode, s: string)
    requires ParseValue(p, mode, s).Got? && s[0] == '{' && !Starts(SkipSpace(s[1..]), '}')
    ensures var t := SkipSpace(s[1..]);
            && ParseMembers(p, mode, t).Got? && BuildDict(mode, ParseMembers(p, mode, t).value).Some?
            && ParseValue(p, mode, s)
               == Got(BuildDict(mode, ParseMembers(p, mode, t).value).value, ParseMembers(p, mode, t).rest)
  {
  }

  lemma {:induction false} KeysBehind(mode: Mode, pairs: seq<Entry>, ms: seq<Member>)
    requires |pairs| == |ms| && (forall i | 0 <= i < |ms| :: pairs[i].key == StringOf(ms[i].key))
    requires BuildDict(mode, pairs).Some?
    ensures mode == Mode.Strict ==> forall i, j | 0 <= i < j < |ms| :: StringOf(ms[i].key) != StringOf(ms[j].key)
    ensures BuildDict(mode, pairs) == Some(Dict(DictOf(pairs)))
  {
    if mode == Mode.Strict {
      NoRepeat(pairs);
      forall i, j | 0 <= i < j < |ms| ensures StringOf(ms[i].key) != StringOf(ms[j].key) {
        assert pairs[i].key != pairs[j].key;
      }
    }
  }

  lemma {:induction false} NoRepeat(pairs: seq<Entry>)
    requires !FirstRepeat(pairs)
    ensures DistinctKeys(pairs)
  {
    if pairs != [] {
      var n := |pairs| - 1;
      NoRepeat(pairs[..n]);
      forall i, j | 0 <= i < j < |pairs| ensures pairs[i].key != pairs[j].key {
        assert pairs[i] == pairs[..n][i];
        if j < n { assert pairs[j] == pairs[..n][j]; }
      }
    }
  }

  lemma {:induction false} MembersBehind(p: Platform, mode: Mode, s: string, before: string)
    returns (ms: seq<Member>)
    requires ParseMembers(p, mode, s).Got? && IsGap(before)
    ensures ms != [] && (forall i | 0 <= i < |ms| :: IsMember(mode, ms[i]))
    ensures before + s == MembersTo(ms, "}" + ParseMembers(p, mode, s).rest)
    ensures MemberMeanings(p, ms) == ParseMembers(p, mode, s).value
    decreases |s|, 2
  {
    var m := MemberBehind(p, mode, s, before);
    var t := AfterMember(p, mode, s);
    AfterMemberMeans(p, mode, s);
    if Starts(t, '}') {
      ms := [m];
      assert t == "}" + t[1..];
      LastMemberMeans(p, m, t);
    } else {
      var second := GapBefore(t[1..]);
      var more := MembersBehind(p, mode, SkipSpace(t[1..]), second);
      ms := [m] + more;
      EachIsMember(mode, m, more);
      MoreMembers(p, mode, s, m, t, more);
    }
  }

  lemma {:induction false} MoreMembers(p: Platform, mode: Mode, s: string, m: Member, t: string, more: seq<Member>)
    requires ParseMembers(p, mode, s).Got? && t == AfterMember(p, mode, s) && !Starts(t, '}') && more != []
    requires ParseMembers(p, mode, s).value != []
             && ParseMembers(p, mode, s).value[0] == Entry(StringOf(m.key), Meaning(p, m.value))
    requires t != "" && t[1..] == MembersTo(more, "}" + ParseMembers(p, mode, s).rest)
    requires ParseMembers(p, mode, SkipSpace(t[1..])).Got?
             && MemberMeanings(p, more) == ParseMembers(p, mode, SkipSpace(t[1..])).value
    ensures MemberTo(m, t) == MembersTo([m] + more, "}" + ParseMembers(p, mode, s).rest)
    ensures MemberMeanings(p, [m] + more) == ParseMembers(p, mode, s).value
  {
    AfterMemberMeans(p, mode, s);
    NextMemberMeans(p, m, more, "}" + ParseMembers(p, mode, s).rest);
    assert t == "," + t[1..];
  }

  lemma {:induction false} AfterMemberMeans(p: Platform, mode: Mode, s: string)
    requires ParseMembers(p, mode, s).Got?
    ensures var t, pairs := AfterMember(p, mode, s), ParseMembers(p, mode, s).value;
            && pairs != [] && |t| < |s|
            && if Starts(t, '}') then ParseMembers(p, mode, s) == Got([pairs[0]], t[1..])
               else && Starts(t, ',') && ParseMembers(p, mode, SkipSpace(t[1..])).Got?
                    && ParseMembers(p, mode, s)
                       == Got([pairs[0]] + ParseMembers(p, mode, SkipSpace(t[1..])).value,
                              ParseMembers(p, mode, SkipSpace(t[1..])).rest)
  {
  }

  lemma {:induction false} EachIsMember(mode: Mode, m: Member, more: seq<Member>)
    requires IsMember(mode, m) && forall i | 0 <= i < |more| :: IsMember(mode, more[i])
    ensures forall i | 0 <= i < |[m] + more| :: IsMember(mode, ([m] + more)[i])
  {
  }

  lemma {:induction false} LastMemberMeans(p: Platform, m: Member, rest: string)
    ensures MembersTo([m], rest) == MemberTo(m, rest)
    ensures MemberMeanings(p, [m]) == [Entry(StringOf(m.key), Meaning(p, m.value))]
  {
    assert [m][1..] == [];
  }

  lemma {:induction false} NextMemberMeans(p: Platform, m: Member, more: seq<Member>, rest: string)
    requires more != []
    ensures MembersTo([m] + more, rest) == MemberTo(m, "," + MembersTo(more, rest))
    ensures MemberMeanings(p, [m] + more)
         == [Entry(StringOf(m.key), Meaning(p, m.value))] + MemberMeanings(p, more)
  {
    assert ([m] + more)[1..] == more;
  }

  /** What the parser has before it once it has read a member and skipped what is white. */
  function AfterMember(p: Platform, mode: Mode, s: string): string
    requires ParseMembers(p, mode, s).Got?
  {
    var colon := SkipSpace(ParseString(s[1..]).rest);
    SkipSpace(ParseValue(p, mode, SkipSpace(colon[1..])).rest)
  }

  lemma {:induction false} MemberBehind(p: Platform, mode: Mode, s: string, before: string) returns (m: Member)
    requires ParseMembers(p, mode, s).Got? && IsGap(before)
    ensures IsMember(mode, m) && before + s == MemberTo(m, AfterMember(p, mode, s))
    ensures ParseMembers(p, mode, s).value != []
    ensures ParseMembers(p, mode, s).value[0] == Entry(StringOf(m.key), Meaning(p, m.value))
    decreases |s|, 1
  {
    MemberParts(p, mode, s);
    var xs := StringBehind(s[1..]);
    var afterKey := ParseString(s[1..]).rest;
    var colonBefore := GapBefore(afterKey);
    var colon := SkipSpace(afterKey);
    var colonAfter := GapBefore(colon[1..]);
    var text := SkipSpace(colon[1..]);
    var c := SyntaxBehind(p, mode, text);
    var gap := GapBefore(ParseValue(p, mode, text).rest);
    m := Member(before, xs, colonBefore, colonAfter, c, gap);
    assert s == "\"" + s[1..];
    assert colon == ":" + colon[1..];
    MemberText(m, afterKey, colon, text, AfterMember(p, mode, s));
  }

  lemma {:induction false} MemberParts(p: Platform, mode: Mode, s: string)
    requires ParseMembers(p, mode, s).Got?
    ensures Starts(s, '"') && ParseString(s[1..]).Got? && |ParseString(s[1..]).rest| < |s|
    ensures var colon := SkipSpace(ParseString(s[1..]).rest);
            && Starts(colon, ':') && ParseValue(p, mode, SkipSpace(colon[1..])).Got?
            && ParseMembers(p, mode, s).value != []
            && ParseMembers(p, mode, s).value[0]
               == Entry(ParseString(s[1..]).value, ParseValue(p, mode, SkipSpace(colon[1..])).value)
  {
  }

  lemma {:induction false} MemberText(m: Member, afterKey: string, colon: string, text: string, t: string)
    requires afterKey == m.colonBefore + colon && colon == ":" + (m.colonAfter + text)
    requires text == WriteTo(m.value, m.after + t)
    ensures m.before + ("\"" + CharactersTo(m.key, afterKey)) == MemberTo(m, t)
  {
    assert afterKey == m.colonBefore + ":" + m.colonAfter + text;
  }

  // ------------------------------------------------------------------ the theorem

  ghost predicate Shows(p: Platform, mode: Mode, text: string, v: Value, before: string, c: Syntax, after: string) {
    IsGap(before) && IsGap(after) && IsSyntax(mode, c) && text == before + WriteTo(c, after) && Meaning(p, c) == v
  }

  /** The text is that of a tree that means this value, with white space around it. */
  ghost predicate IsTextOf(p: Platform, mode: Mode, text: string, v: Value) {
    exists before, c, after :: Shows(p, mode, text, v, before, c, after)
  }

  lemma {:induction false} ShownIsParsed(p: Platform, mode: Mode, text: string, v: Value, before: string, c: Syntax,
                                         after: string)
    requires Shows(p, mode, text, v, before, c, after)
    ensures Parse(p, mode, text) == Some(v)
  {
    assert after + "" == after;
    GapIsSkipped(before, WriteTo(c, after));
    SyntaxStarts(mode, c, after);
    SkipNothing(WriteTo(c, after));
    GapStopsNumber(after, "");
    SyntaxIsRead(p, mode, c, after);
    GapIsSkipped(after, "");
  }

  lemma {:induction false} ParsedIsShown(p: Platform, mode: Mode, text: string)
    requires Parse(p, mode, text).Some?
    ensures IsTextOf(p, mode, text, Parse(p, mode, text).value)
  {
    var before := GapBefore(text);
    var c := SyntaxBehind(p, mode, SkipSpace(text));
    var after := GapBefore(ParseValue(p, mode, SkipSpace(text)).rest);
    assert after + "" == after;
    assert Shows(p, mode, text, Parse(p, mode, text).value, before, c, after);
  }

  /** The parser reads exactly the texts of the grammar, each as what it means: with any white space between its parts,
      with every escape, and with every spelling of a number. So no text means two values. */
  lemma {:induction false} ParsesExactlyWhen(p: Platform, mode: Mode, text: string, v: Value)
    ensures Parse(p, mode, text) == Some(v) <==> IsTextOf(p, mode, text, v)
  {
    if Parse(p, mode, text) == Some(v) { ParsedIsShown(p, mode, text); }
    if IsTextOf(p, mode, text, v) {
      var before, c, after :| Shows(p, mode, text, v, before, c, after);
      ShownIsParsed(p, mode, text, v, before, c, after);
    }
  }
}
