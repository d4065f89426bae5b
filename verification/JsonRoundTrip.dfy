/** Parsing what was printed returns the value: the printer is uniquely decodable. */
module JsonRoundTrip {
  import opened Wrappers
  import opened Json

  // ------------------------------------------------------------------ numbers

  /** A text that cannot continue a number. */
  predicate StopsNumber(s: string) {
    s == "" || (!IsDigit(s[0]) && s[0] != '.' && s[0] != 'e' && s[0] != 'E')
  }

  predicate StopsDigits(s: string) {
    s == "" || !IsDigit(s[0])
  }

  lemma {:induction false} DigitsExtend(s: string, rest: string)
    requires StopsDigits(rest)
    ensures Digits(s + rest) == (Digits(s).0, Digits(s).1 + rest)
  {
    if s == "" {
      assert s + rest == rest;
    } else {
      assert (s + rest)[1..] == s[1..] + rest;
      if IsDigit(s[0]) { DigitsExtend(s[1..], rest); }
    }
  }

  lemma {:induction false} FractionExtends(s: string, rest: string)
    requires StopsNumber(rest)
    ensures Fraction(s + rest) == (Fraction(s).0, Fraction(s).1 + rest)
  {
    if s == "" {
      assert s + rest == rest;
    } else if |s| >= 2 {
      assert (s + rest)[1..] == s[1..] + rest;
      DigitsExtend(s[1..], rest);
    }
  }

  lemma {:induction false} ExponentExtends(s: string, rest: string)
    requires StopsNumber(rest) && Exponent(s).1 == ""
    ensures Exponent(s + rest) == (Exponent(s).0, rest)
  {
    var t := s + rest;
    if s == "" {
      assert t == rest;
    } else {
      assert |s| >= 2 && t[0] == s[0] && t[1] == s[1] && "" + rest == rest;
      if IsDigit(s[1]) {
        assert t[1..] == s[1..] + rest;
        DigitsExtend(s[1..], rest);
      } else {
        SignedExponentExtends(s, rest);
      }
    }
  }

  lemma {:induction false} SignedExponentExtends(s: string, rest: string)
    requires StopsNumber(rest) && |s| >= 3 && (s[0] == 'e' || s[0] == 'E') && (s[1] == '+' || s[1] == '-')
             && IsDigit(s[2])
    requires Exponent(s).1 == ""
    ensures Exponent(s + rest) == (Exponent(s).0, rest)
  {
    var t := s + rest;
    assert t[0] == s[0] && t[1] == s[1] && t[2] == s[2] && t[2..] == s[2..] + rest && "" + rest == rest;
    DigitsExtend(s[2..], rest);
  }

  lemma {:induction false} UnsignedExtends(s: string, rest: string)
    requires StopsNumber(rest)
    requires ScanUnsigned(s).Got? && ScanUnsigned(s).rest == ""
    ensures ScanUnsigned(s + rest) == Got(ScanUnsigned(s).value, rest)
  {
    assert (s + rest)[1..] == s[1..] + rest;
    DigitsExtend(s, rest);
    var r1 := IntegerPart(s).1;
    assert IntegerPart(s + rest) == (IntegerPart(s).0, r1 + rest);
    var r2 := Fraction(r1).1;
    FractionExtends(r1, rest);
    ExponentExtends(r2, rest);
  }

  lemma {:induction false} NumberExtends(s: string, rest: string)
    requires StopsNumber(rest)
    requires ScanNumber(s).Got? && ScanNumber(s).rest == ""
    ensures ScanNumber(s + rest) == Got(ScanNumber(s).value, rest)
  {
    if Starts(s, '-') {
      assert (s + rest)[1..] == s[1..] + rest;
      UnsignedExtends(s[1..], rest);
    } else {
      assert s != "";
      UnsignedExtends(s, rest);
    }
  }

  lemma {:induction false} NatTextIsDigits(n: nat)
    ensures |NatText(n)| >= 1
    ensures forall i | 0 <= i < |NatText(n)| :: IsDigit(NatText(n)[i])
    ensures NatText(n)[0] == '0' ==> n == 0
    ensures NatOf(NatText(n)) == n
  {
    if n >= 10 {
      NatTextIsDigits(n / 10);
      var t := NatText(n);
      assert t[..|t| - 1] == NatText(n / 10);
      assert NatOf(t) == NatOf(NatText(n / 10)) * 10 + DigitValue(t[|t| - 1]);
    } else {
      var t := NatText(n);
      assert t[..0] == "";
      assert NatOf(t) == NatOf(t[..0]) * 10 + DigitValue(t[0]);
    }
  }

  lemma {:induction false} AllDigits(s: string)
    requires forall i | 0 <= i < |s| :: IsDigit(s[i])
    ensures Digits(s) == (s, "")
  {
    if s != "" {
      AllDigits(s[1..]);
      assert s == [s[0]] + s[1..];
    }
  }

  lemma {:induction false} NatTextScans(n: nat)
    ensures ScanUnsigned(NatText(n)) == Got(Number(NatText(n), false), "")
  {
    NatTextIsDigits(n);
    var t := NatText(n);
    AllDigits(t);
    if t[0] == '0' { assert t == "0"; }
    assert IntegerPart(t) == (t, "");
    assert t + "" + "" == t;
  }

  lemma {:induction false} NegativeScans(t: string)
    requires ScanUnsigned(t) == Got(Number(t, false), "")
    ensures ScanNumber("-" + t) == Got(Number("-" + t, false), "")
    ensures IntOf("-" + t) == 0 - NatOf(t)
  {
    assert ("-" + t)[1..] == t;
  }

  lemma {:induction false} PositiveScans(t: string)
    requires ScanUnsigned(t) == Got(Number(t, false), "")
    ensures ScanNumber(t) == Got(Number(t, false), "")
    ensures IntOf(t) == NatOf(t)
  {
  }

  lemma {:induction false} IntTextScans(n: int)
    ensures ScanNumber(IntText(n)) == Got(Number(IntText(n), false), "")
    ensures IntOf(IntText(n)) == n
  {
    var m: nat := if n < 0 then -n else n;
    NatTextScans(m);
    NatTextIsDigits(m);
    if n < 0 { NegativeScans(NatText(m)); } else { PositiveScans(NatText(m)); }
  }

  // ------------------------------------------------------------------ strings

  lemma {:induction false} ControlRoundTrips(c: char, rest: string)
    requires c < ' '
    ensures FourHex(['0', '0', HEX[c as int / 16], HEX[c as int % 16]] + rest) == Some(c as int)
  {
    var i := c as int;
    assert i / 16 == 0 || i / 16 == 1;
    assert HexValue(HEX[i / 16]) == Some(i / 16);
    assert HexValue(HEX[i % 16]) == Some(i % 16);
  }

  lemma {:induction false} EscapedCharParses(c: char, rest: string)
    requires EscapeChar(c) != [c]
    ensures EscapeChar(c)[0] == '\\'
    ensures Unescape(EscapeChar(c)[1..] + rest) == Got(c, rest)
  {
    var e := EscapeChar(c);
    var t := e[1..] + rest;
    if |e| == 2 {
      assert t[0] == e[1] && t[1..] == rest;
    } else {
      ControlRoundTrips(c, rest);
      assert t[1..] == ['0', '0', HEX[c as int / 16], HEX[c as int % 16]] + rest;
      assert t[1..][4..] == rest;
    }
  }

  lemma {:induction false} PlainStep(s: string, t: string, rest: string)
    requires s != "" && s[0] >= ' ' && s[0] != '"' && s[0] != '\\' && ParseString(s[1..]) == Got(t, rest)
    ensures ParseString(s) == Got([s[0]] + t, rest)
  {
  }

  lemma {:induction false} EscapeStep(s: string, c: char, tail: string, t: string, rest: string)
    requires Starts(s, '\\') && Unescape(s[1..]) == Got(c, tail) && ParseString(tail) == Got(t, rest)
    ensures ParseString(s) == Got([c] + t, rest)
  {
  }

  lemma {:induction false} PlainChars(c: char)
    requires EscapeChar(c) == [c]
    ensures c >= ' ' && c != '"' && c != '\\'
  {
  }

  lemma {:induction false} CharParses(c: char, tail: string, t: string, rest: string)
    requires ParseString(tail) == Got(t, rest)
    ensures ParseString(EscapeChar(c) + tail) == Got([c] + t, rest)
  {
    if EscapeChar(c) == [c] {
      PlainChars(c);
      PlainStep([c] + tail, t, rest) by { assert ([c] + tail)[1..] == tail; }
    } else {
      EscapedCharParses(c, tail);
      EscapedStep(EscapeChar(c), c, tail, t, rest);
    }
  }

  lemma {:induction false} EscapedStep(e: string, c: char, tail: string, t: string, rest: string)
    requires Starts(e, '\\') && Unescape(e[1..] + tail) == Got(c, tail) && ParseString(tail) == Got(t, rest)
    ensures ParseString(e + tail) == Got([c] + t, rest)
  {
    assert (e + tail)[1..] == e[1..] + tail;
    EscapeStep(e + tail, c, tail, t, rest);
  }

  lemma {:induction false} StringRoundTrips(s: string, rest: string)
    ensures ParseString(StringTo(s, rest)) == Got(s, rest)
  {
    if s == "" {
      assert StringTo(s, rest)[1..] == rest;
    } else {
      StringRoundTrips(s[1..], rest);
      CharParses(s[0], StringTo(s[1..], rest), s[1..], rest);
      assert s == [s[0]] + s[1..];
    }
  }

  // ------------------------------------------------------------------ values

  /** Characters a value's text may start with. */
  predicate StartsValue(s: string) {
    s != "" && !IsSpace(s[0]) && s[0] != ']' && s[0] != '}'
  }

  lemma {:induction false} NumberStarts(t: string)
    requires ScanNumber(t).Got?
    ensures t != "" && (t[0] == '-' || IsDigit(t[0]))
  {
  }

  lemma {:induction false} PrefixStarts(a: string, b: string)
    requires StartsValue(a)
    ensures StartsValue(a + b)
  {
  }

  lemma {:induction false} NumberPrefixStarts(t: string, rest: string)
    requires ScanNumber(t).Got?
    ensures StartsValue(t + rest)
  {
    NumberStarts(t);
  }

  lemma {:induction false} PrintStartsValue(p: Platform, v: Value, st: Style, rest: string)
    requires Printable(p, v)
    ensures StartsValue(PrintTo(v, st, rest))
  {
    match v
    case Null => PrefixStarts("null", rest);
    case Bool(b) => PrefixStarts("true", rest); PrefixStarts("false", rest);
    case Int(n) => IntTextScans(n); NumberPrefixStarts(IntText(n), rest);
    case Float(f) => NumberPrefixStarts(f.text, rest);
    case Str(s) => PrefixStarts("\"", StringTo(s, rest));
    case List(items) => PrefixStarts("[", ItemsTo(items, st, "]" + rest));
    case Dict(entries) => PrefixStarts("{", MembersTo(entries, st, "}" + rest));
  }

  lemma {:induction false} ItemsStartValue(p: Platform, items: seq<Value>, st: Style, rest: string)
    requires items != [] && Printable(p, items[0])
    ensures StartsValue(ItemsTo(items, st, rest))
  {
    PrintStartsValue(p, items[0], st,
                     if |items| == 1 then rest else ItemSeparator(st, ItemsTo(items[1..], st, rest)));
  }

  lemma {:induction false} SkipNothing(s: string)
    requires s == "" || !IsSpace(s[0])
    ensures SkipSpace(s) == s
  {
  }

  lemma {:induction false} SkipSeparator(st: Style, c: char, rest: string)
    requires StartsValue(rest) && !IsSpace(c)
    ensures var s := if st.Compact? then [c] + rest else [c, ' '] + rest;
            SkipSpace(s) == s && s[0] == c && SkipSpace(s[1..]) == rest
  {
    var s := if st.Compact? then [c] + rest else [c, ' '] + rest;
    if st.Compact? {
      assert s[1..] == rest;
    } else {
      assert s[1..][1..] == rest;
    }
  }

  lemma {:induction false} NoInfinityScans(s: string)
    requires ScanNumber(s).Got?
    ensures !("-Infinity" <= s)
  {
  }

  lemma {:induction false} NumberStep(p: Platform, mode: Mode, s: string)
    requires s != "" && (s[0] == '-' || IsDigit(s[0])) && !("-Infinity" <= s)
    ensures ParseValue(p, mode, s) == ParseNumber(p, s)
  {
  }

  lemma {:induction false} NumberParses(p: Platform, mode: Mode, t: string, rest: string, isFloat: bool)
    requires ScanNumber(t) == Got(Number(t, isFloat), "") && StopsNumber(rest)
    ensures ParseValue(p, mode, t + rest) == Got(if isFloat then Float(p.readFloat(t)) else Int(IntOf(t)), rest)
  {
    NumberExtends(t, rest);
    NumberStarts(t);
    var s := t + rest;
    assert s[0] == t[0];
    NoInfinityScans(s);
    NumberStep(p, mode, s);
  }

  lemma {:induction false} WordParses(p: Platform, mode: Mode, word: string, v: Value, rest: string)
    requires (word == "null" && v == Null) || (word == "true" && v == Bool(true))
             || (word == "false" && v == Bool(false))
    ensures ParseValue(p, mode, word + rest) == Got(v, rest)
  {
    var s := word + rest;
    assert s[0] == word[0] && word <= s && s[|word|..] == rest;
  }

  lemma {:induction false} DistinctIsDict(pairs: seq<Entry>)
    requires DistinctKeys(pairs)
    ensures DictOf(pairs) == pairs && !FirstRepeat(pairs)
  {
    if pairs != [] {
      var shorter, last := pairs[..|pairs| - 1], pairs[|pairs| - 1];
      DistinctIsDict(shorter);
      AssignNew(shorter, last);
    }
  }

  lemma {:induction false} AssignNew(entries: seq<Entry>, e: Entry)
    requires forall i | 0 <= i < |entries| :: entries[i].key != e.key
    ensures Assign(entries, e) == entries + [e]
  {
    if entries != [] {
      AssignNew(entries[1..], e);
      assert entries == [entries[0]] + entries[1..];
    }
  }

  /** The text of a printable value, followed by anything that cannot continue a number, parses to
      that value and leaves what follows. */
  lemma {:induction false} ValueRoundTrips(p: Platform, mode: Mode, v: Value, st: Style, rest: string)
    requires Printable(p, v) && StopsNumber(rest)
    ensures ParseValue(p, mode, PrintTo(v, st, rest)) == Got(v, rest)
    decreases v, 1
  {
    match v
    case Null => WordParses(p, mode, "null", v, rest);
    case Bool(b) => WordParses(p, mode, if b then "true" else "false", v, rest);
    case Int(n) => IntTextScans(n); NumberParses(p, mode, IntText(n), rest, false);
    case Float(f) => NumberParses(p, mode, f.text, rest, true);
    case Str(s) =>
      StringRoundTrips(s, rest);
      assert PrintTo(v, st, rest)[1..] == StringTo(s, rest);
    case List(items) => ListRoundTrips(p, mode, items, st, rest);
    case Dict(entries) => DictRoundTrips(p, mode, entries, st, rest);
  }

  lemma {:induction false} ListRoundTrips(p: Platform, mode: Mode, items: seq<Value>, st: Style, rest: string)
    requires Printable(p, List(items)) && StopsNumber(rest)
    ensures ParseValue(p, mode, PrintTo(List(items), st, rest)) == Got(List(items), rest)
    decreases items, 3
  {
    var text := PrintTo(List(items), st, rest);
    var body := ItemsTo(items, st, "]" + rest);
    assert text[1..] == body;
    if items == [] {
      SkipNothing(body);
      assert body[1..] == rest;
    } else {
      ItemsStartValue(p, items, st, "]" + rest);
      SkipNothing(body);
      ItemsRoundTrip(p, mode, items, st, rest);
    }
  }

  lemma {:induction false} LastItem(p: Platform, mode: Mode, s: string, v: Value, rest: string)
    requires ParseValue(p, mode, s) == Got(v, "]" + rest)
    ensures ParseItems(p, mode, s) == Got([v], rest)
  {
    SkipNothing("]" + rest);
    assert ("]" + rest)[1..] == rest;
  }

  lemma {:induction false} NextItem(p: Platform, mode: Mode, st: Style, s: string, v: Value, more: string,
                                    vs: seq<Value>, rest: string)
    requires ParseValue(p, mode, s) == Got(v, ItemSeparator(st, more)) && StartsValue(more)
    requires ParseItems(p, mode, more) == Got(vs, rest)
    ensures ParseItems(p, mode, s) == Got([v] + vs, rest)
  {
    SkipSeparator(st, ',', more);
  }

  lemma {:induction false} ItemsRoundTrip(p: Platform, mode: Mode, items: seq<Value>, st: Style, rest: string)
    requires items != [] && forall i | 0 <= i < |items| :: Printable(p, items[i])
    ensures ParseItems(p, mode, ItemsTo(items, st, "]" + rest)) == Got(items, rest)
    decreases items, 2
  {
    var close := "]" + rest;
    if |items| == 1 {
      ValueRoundTrips(p, mode, items[0], st, close);
      LastItem(p, mode, PrintTo(items[0], st, close), items[0], rest);
      assert items == [items[0]];
    } else {
      var v, others := items[0], items[1..];
      assert Printable(p, v) && forall i | 0 <= i < |others| :: Printable(p, others[i]);
      var more := ItemsTo(others, st, close);
      ItemsStartValue(p, others, st, close);
      ValueRoundTrips(p, mode, v, st, ItemSeparator(st, more));
      ItemsRoundTrip(p, mode, others, st, rest);
      NextItem(p, mode, st, PrintTo(v, st, ItemSeparator(st, more)), v, more, others, rest);
      assert items == [v] + others;
    }
  }

  lemma {:induction false} DictRoundTrips(p: Platform, mode: Mode, entries: seq<Entry>, st: Style, rest: string)
    requires Printable(p, Dict(entries)) && StopsNumber(rest)
    ensures ParseValue(p, mode, PrintTo(Dict(entries), st, rest)) == Got(Dict(entries), rest)
    decreases entries, 3
  {
    var text := PrintTo(Dict(entries), st, rest);
    var body := MembersTo(entries, st, "}" + rest);
    assert text[0] == '{' && text[1..] == body;
    if entries == [] {
      SkipNothing(body);
      assert body[1..] == rest;
    } else {
      assert body[0] == '"';
      SkipNothing(body);
      MembersRoundTrip(p, mode, entries, st, rest);
      DistinctIsDict(entries);
      DictStep(p, mode, text, body, entries, rest);
    }
  }

  lemma {:induction false} DictStep(p: Platform, mode: Mode, text: string, body: string, entries: seq<Entry>,
                                    rest: string)
    requires Starts(text, '{') && SkipSpace(text[1..]) == body && Starts(body, '"')
    requires ParseMembers(p, mode, body) == Got(entries, rest) && BuildDict(mode, entries) == Some(Dict(entries))
    ensures ParseValue(p, mode, text) == Got(Dict(entries), rest)
  {
  }

  /** One member, and what the parser does after it. */
  lemma {:induction false} MemberStep(p: Platform, mode: Mode, s: string, key: string, colon: string, v: Value,
                                      after: string)
    requires Starts(s, '"') && ParseString(s[1..]) == Got(key, colon) && SkipSpace(colon) == colon
    requires Starts(colon, ':') && ParseValue(p, mode, SkipSpace(colon[1..])) == Got(v, after)
    ensures var t := SkipSpace(after);
            && (Starts(t, '}') ==> ParseMembers(p, mode, s) == Got([Entry(key, v)], t[1..]))
            && (Starts(t, ',') ==>
                  ParseMembers(p, mode, s) == match ParseMembers(p, mode, SkipSpace(t[1..]))
                                              case Fail => Fail
                                              case Got(es, rest) => Got([Entry(key, v)] + es, rest))
  {
  }

  /** The text of the first member of a dict, with `next` behind it. */
  lemma {:induction false} MemberParses(p: Platform, mode: Mode, e: Entry, st: Style, s: string, next: string)
    requires Printable(p, e.value) && StopsNumber(next)
    requires s == "\"" + StringTo(e.key, KeySeparator(st, PrintTo(e.value, st, next)))
    ensures var t := SkipSpace(next);
            && (Starts(t, '}') ==> ParseMembers(p, mode, s) == Got([e], t[1..]))
            && (Starts(t, ',') ==>
                  ParseMembers(p, mode, s) == match ParseMembers(p, mode, SkipSpace(t[1..]))
                                              case Fail => Fail
                                              case Got(es, rest) => Got([e] + es, rest))
    decreases e, 2
  {
    var value := PrintTo(e.value, st, next);
    var colon := KeySeparator(st, value);
    assert s[1..] == StringTo(e.key, colon);
    StringRoundTrips(e.key, colon);
    PrintStartsValue(p, e.value, st, next);
    SkipSeparator(st, ':', value);
    ValueRoundTrips(p, mode, e.value, st, next);
    MemberStep(p, mode, s, e.key, colon, e.value, next);
  }

  lemma {:induction false} NextMember(p: Platform, mode: Mode, e: Entry, st: Style, s: string, more: string,
                                      es: seq<Entry>, rest: string)
    requires Printable(p, e.value) && StartsValue(more)
    requires s == "\"" + StringTo(e.key, KeySeparator(st, PrintTo(e.value, st, ItemSeparator(st, more))))
    requires ParseMembers(p, mode, more) == Got(es, rest)
    ensures ParseMembers(p, mode, s) == Got([e] + es, rest)
    decreases e, 3
  {
    SkipSeparator(st, ',', more);
    MemberParses(p, mode, e, st, s, ItemSeparator(st, more));
  }

  lemma {:induction false} LastMember(p: Platform, mode: Mode, entries: seq<Entry>, st: Style, rest: string)
    requires |entries| == 1 && Printable(p, entries[0].value)
    ensures ParseMembers(p, mode, MembersTo(entries, st, "}" + rest)) == Got([entries[0]], rest)
    decreases entries, 1
  {
    var close := "}" + rest;
    SkipNothing(close);
    MemberParses(p, mode, entries[0], st, MembersTo(entries, st, close), close);
    assert close[1..] == rest;
  }

  lemma {:induction false} SeveralMembers(p: Platform, mode: Mode, entries: seq<Entry>, st: Style, rest: string)
    requires |entries| > 1 && Printable(p, entries[0].value)
    requires ParseMembers(p, mode, MembersTo(entries[1..], st, "}" + rest)) == Got(entries[1..], rest)
    ensures ParseMembers(p, mode, MembersTo(entries, st, "}" + rest)) == Got([entries[0]] + entries[1..], rest)
    decreases entries, 1
  {
    NextMember(p, mode, entries[0], st, MembersTo(entries, st, "}" + rest), MembersTo(entries[1..], st, "}" + rest),
               entries[1..], rest);
  }

  lemma {:induction false} MembersRoundTrip(p: Platform, mode: Mode, entries: seq<Entry>, st: Style, rest: string)
    requires entries != [] && forall i | 0 <= i < |entries| :: Printable(p, entries[i].value)
    ensures ParseMembers(p, mode, MembersTo(entries, st, "}" + rest)) == Got(entries, rest)
    decreases entries, 2
  {
    if |entries| == 1 {
      LastMember(p, mode, entries, st, rest);
      assert entries == [entries[0]];
    } else {
      var others := entries[1..];
      assert entries == [entries[0]] + others;
      forall i | 0 <= i < |others| ensures Printable(p, others[i].value) {
        assert others[i] == entries[i + 1];
      }
      MembersRoundTrip(p, mode, others, st, rest);
      SeveralMembers(p, mode, entries, st, rest);
    }
  }

  /** json.loads inverts json.dumps, in either style and either parsing mode. */
  lemma {:induction false} PrintParses(p: Platform, mode: Mode, v: Value, st: Style)
    requires Printable(p, v)
    ensures Parse(p, mode, Print(v, st)) == Some(v)
  {
    ValueRoundTrips(p, mode, v, st, "");
    PrintStartsValue(p, v, st, "");
    SkipNothing(Print(v, st));
  }
}
