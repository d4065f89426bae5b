/** Two facts about printed JSON that decide whether a file of records can be read back a line at a
    time: a printed object has no proper prefix that parses, and a printed value holds a line break
    only where one of its strings does. */
module JsonPrefix {
  import opened Wrappers
  import opened Json
  import opened JsonRoundTrip
  import opened Lines

  // ------------------------------------------------------------------ parsing more text after the same value

  lemma {:induction false} SkipExtends(s: string, t: string)
    requires SkipSpace(s) != ""
    ensures SkipSpace(s + t) == SkipSpace(s) + t
  {
    if s != "" && IsSpace(s[0]) {
      assert (s + t)[1..] == s[1..] + t;
      SkipExtends(s[1..], t);
    }
  }

  lemma {:induction false} DigitsGoOn(s: string, t: string)
    requires Digits(s).1 != ""
    ensures Digits(s + t) == (Digits(s).0, Digits(s).1 + t)
  {
    if s != "" && IsDigit(s[0]) {
      assert (s + t)[1..] == s[1..] + t;
      DigitsGoOn(s[1..], t);
    }
  }

  lemma {:induction false} ExponentGoesOn(s: string, t: string)
    requires Exponent(s).1 != "" && StopsNumber(Exponent(s).1)
    ensures Exponent(s + t) == (Exponent(s).0, Exponent(s).1 + t)
  {
    var u := s + t;
    assert u[0] == s[0];
    if |s| >= 2 && (s[0] == 'e' || s[0] == 'E') {
      assert u[1] == s[1] && u[1..] == s[1..] + t;
      if IsDigit(s[1]) {
        DigitsGoOn(s[1..], t);
      } else {
        assert u[2] == s[2] && u[2..] == s[2..] + t;
        DigitsGoOn(s[2..], t);
      }
    }
  }

  lemma {:induction false} FractionGoesOn(s: string, t: string)
    requires s != "" && Fraction(s).1 != "" && (Fraction(s).0 == "" ==> s[0] != '.')
    ensures Fraction(s + t) == (Fraction(s).0, Fraction(s).1 + t)
  {
    var u := s + t;
    assert u[0] == s[0];
    if |s| >= 2 && s[0] == '.' && IsDigit(s[1]) {
      assert u[1] == s[1] && u[1..] == s[1..] + t;
      DigitsGoOn(s[1..], t);
    }
  }

  lemma {:induction false} UnsignedGoesOn(s: string, t: string)
    requires ScanUnsigned(s).Got? && ScanUnsigned(s).rest != "" && StopsNumber(ScanUnsigned(s).rest)
    ensures ScanUnsigned(s + t) == Got(ScanUnsigned(s).value, ScanUnsigned(s).rest + t)
  {
    var (whole, r1) := IntegerPart(s);
    var (fraction, r2) := Fraction(r1);
    assert (s + t)[0] == s[0] && (s + t)[1..] == s[1..] + t;
    if s[0] != '0' { DigitsGoOn(s, t); }
    assert IntegerPart(s + t) == (whole, r1 + t);
    assert Exponent(r2).1 != "";
    FractionGoesOn(r1, t);
    ExponentGoesOn(r2, t);
  }

  lemma {:induction false} NumberGoesOn(s: string, t: string)
    requires ScanNumber(s).Got? && ScanNumber(s).rest != "" && StopsNumber(ScanNumber(s).rest)
    ensures ScanNumber(s + t) == Got(ScanNumber(s).value, ScanNumber(s).rest + t)
  {
    if Starts(s, '-') {
      assert (s + t)[1..] == s[1..] + t;
      UnsignedGoesOn(s[1..], t);
    } else {
      UnsignedGoesOn(s, t);
    }
  }

  lemma {:induction false} FourHexGoesOn(s: string, t: string)
    requires |s| >= 4
    ensures FourHex(s + t) == FourHex(s)
  {
  }

  lemma {:induction false} UnicodeGoesOn(s: string, t: string)
    requires UnescapeUnicode(s).Got?
    ensures UnescapeUnicode(s + t) == Got(UnescapeUnicode(s).value, UnescapeUnicode(s).rest + t)
  {
    var u := s + t;
    FourHexGoesOn(s, t);
    if 0xD800 <= FourHex(s).value < 0xDC00 {
      assert |s| >= 10 && u[4] == s[4] && u[5] == s[5];
      assert u[6..] == s[6..] + t && u[10..] == s[10..] + t;
      FourHexGoesOn(s[6..], t);
    } else {
      assert u[4..] == s[4..] + t;
    }
  }

  lemma {:induction false} EscapeGoesOn(s: string, t: string)
    requires Unescape(s).Got?
    ensures Unescape(s + t) == Got(Unescape(s).value, Unescape(s).rest + t)
  {
    assert (s + t)[0] == s[0] && (s + t)[1..] == s[1..] + t;
    if s[0] == 'u' { UnicodeGoesOn(s[1..], t); }
  }

  lemma {:induction false} StringGoesOn(s: string, t: string)
    requires ParseString(s).Got?
    ensures ParseString(s + t) == Got(ParseString(s).value, ParseString(s).rest + t)
    decreases |s|
  {
    var u := s + t;
    assert u[0] == s[0] && u[1..] == s[1..] + t;
    if s[0] == '\\' {
      EscapeGoesOn(s[1..], t);
      StringGoesOn(Unescape(s[1..]).rest, t);
    } else if s[0] != '"' {
      StringGoesOn(s[1..], t);
    }
  }

  /** A text whose first character says where its value ends. */
  predicate SelfDelimiting(s: string) {
    s != "" && (s[0] == '{' || s[0] == '[' || s[0] == '"')
  }

  predicate Ends(rest: string) {
    rest != "" && StopsNumber(rest)
  }

  lemma {:induction false} LiteralGoesOn(s: string, t: string, word: string, v: Value)
    requires word != "" && Literal(s, word, v).Got?
    ensures Literal(s + t, word, v) == Got(v, Literal(s, word, v).rest + t)
  {
    assert (s + t)[|word|..] == s[|word|..] + t;
  }

  /** Text after a value does not change how the value is read. */
  lemma {:induction false} ValueGoesOn(p: Platform, mode: Mode, s: string, t: string)
    requires ParseValue(p, mode, s).Got? && (SelfDelimiting(s) || Ends(ParseValue(p, mode, s).rest))
    ensures ParseValue(p, mode, s + t) == Got(ParseValue(p, mode, s).value, ParseValue(p, mode, s).rest + t)
    decreases |s|, 1
  {
    var u := s + t;
    assert u[0] == s[0] && u[1..] == s[1..] + t;
    if s[0] == '"' {
      StringGoesOn(s[1..], t);
    } else if s[0] == '{' {
      DictGoesOn(p, mode, s, t);
    } else if s[0] == '[' {
      ListGoesOn(p, mode, s, t);
    } else {
      ScalarGoesOn(p, mode, s, t);
    }
  }

  lemma {:induction false} ScalarGoesOn(p: Platform, mode: Mode, s: string, t: string)
    requires ParseValue(p, mode, s).Got? && !SelfDelimiting(s) && Ends(ParseValue(p, mode, s).rest)
    ensures ParseValue(p, mode, s + t) == Got(ParseValue(p, mode, s).value, ParseValue(p, mode, s).rest + t)
  {
    var u := s + t;
    assert u[0] == s[0];
    if s[0] == 'n' {
      LiteralGoesOn(s, t, "null", Null);
    } else if s[0] == 't' {
      LiteralGoesOn(s, t, "true", Bool(true));
    } else if s[0] == 'f' {
      LiteralGoesOn(s, t, "false", Bool(false));
    } else if s[0] == 'N' {
      LiteralGoesOn(s, t, "NaN", Float(NonFinite));
    } else if s[0] == 'I' {
      LiteralGoesOn(s, t, "Infinity", Float(NonFinite));
    } else if "-Infinity" <= s {
      LiteralGoesOn(s, t, "-Infinity", Float(NonFinite));
    } else {
      NumberGoesOn(s, t);
      NumberStarts(s);
      NoInfinityScans(u);
      NumberStep(p, mode, s);
      NumberStep(p, mode, u);
    }
  }

  lemma {:induction false} ListGoesOn(p: Platform, mode: Mode, s: string, t: string)
    requires Starts(s, '[') && ParseValue(p, mode, s).Got?
    ensures ParseValue(p, mode, s + t) == Got(ParseValue(p, mode, s).value, ParseValue(p, mode, s).rest + t)
    decreases |s|, 0
  {
    var u, body := s + t, SkipSpace(s[1..]);
    assert u[0] == s[0] && u[1..] == s[1..] + t;
    SkipExtends(s[1..], t);
    if Starts(body, ']') {
      assert (body + t)[1..] == body[1..] + t;
    } else {
      ItemsGoOn(p, mode, body, t);
    }
  }

  lemma {:induction false} DictGoesOn(p: Platform, mode: Mode, s: string, t: string)
    requires Starts(s, '{') && ParseValue(p, mode, s).Got?
    ensures ParseValue(p, mode, s + t) == Got(ParseValue(p, mode, s).value, ParseValue(p, mode, s).rest + t)
    decreases |s|, 0
  {
    var u, body := s + t, SkipSpace(s[1..]);
    assert u[0] == s[0] && u[1..] == s[1..] + t;
    SkipExtends(s[1..], t);
    if Starts(body, '}') {
      assert (body + t)[1..] == body[1..] + t;
    } else {
      MembersGoOn(p, mode, body, t);
    }
  }

  /** What the parser sees after a value inside a list or a dict. */
  lemma {:induction false} Separated(after: string, c: char)
    requires Starts(SkipSpace(after), c) && (c == ',' || c == ']' || c == '}')
    ensures Ends(after)
  {
  }

  /** What the parser does after the first item. */
  function AfterItem(p: Platform, mode: Mode, v: Value, next: string): Parsed<seq<Value>> {
    if Starts(next, ']') then Got([v], next[1..])
    else if Starts(next, ',') then
      (match ParseItems(p, mode, SkipSpace(next[1..]))
       case Fail => Fail
       case Got(vs, rest) => Got([v] + vs, rest))
    else Fail
  }

  lemma {:induction false} ItemsStep(p: Platform, mode: Mode, s: string, v: Value, after: string)
    requires ParseValue(p, mode, s) == Got(v, after)
    ensures ParseItems(p, mode, s) == AfterItem(p, mode, v, SkipSpace(after))
  {
  }

  lemma {:induction false} ItemsPieces(p: Platform, mode: Mode, s: string) returns (v: Value, after: string)
    requires ParseItems(p, mode, s).Got?
    ensures ParseValue(p, mode, s) == Got(v, after)
    ensures Starts(SkipSpace(after), ']') || Starts(SkipSpace(after), ',')
  {
    v, after := ParseValue(p, mode, s).value, ParseValue(p, mode, s).rest;
  }

  lemma {:induction false} ItemsGoOn(p: Platform, mode: Mode, s: string, t: string)
    requires ParseItems(p, mode, s).Got?
    ensures ParseItems(p, mode, s + t) == Got(ParseItems(p, mode, s).value, ParseItems(p, mode, s).rest + t)
    decreases |s|, 2
  {
    var v, after := ItemsPieces(p, mode, s);
    var next := SkipSpace(after);
    Separated(after, next[0]);
    ValueGoesOn(p, mode, s, t);
    SkipExtends(after, t);
    ItemsStep(p, mode, s, v, after);
    ItemsStep(p, mode, s + t, v, after + t);
    AfterItemGoesOn(p, mode, v, next, t);
  }

  lemma {:induction false} LastItemLeft(p: Platform, mode: Mode, v: Value, next: string)
    requires Starts(next, ']')
    ensures AfterItem(p, mode, v, next) == Got([v], next[1..])
  {
  }

  lemma {:induction false} ItemComma(p: Platform, mode: Mode, v: Value, next: string, vs: seq<Value>, rest: string)
    requires Starts(next, ',') && ParseItems(p, mode, SkipSpace(next[1..])) == Got(vs, rest)
    ensures AfterItem(p, mode, v, next) == Got([v] + vs, rest)
  {
  }

  lemma {:induction false} AfterItemGoesOn(p: Platform, mode: Mode, v: Value, next: string, t: string)
    requires AfterItem(p, mode, v, next).Got? && (Starts(next, ']') || Starts(next, ','))
    ensures AfterItem(p, mode, v, next + t)
         == Got(AfterItem(p, mode, v, next).value, AfterItem(p, mode, v, next).rest + t)
    decreases |next|, 2
  {
    if Starts(next, ']') {
      LastItemLeft(p, mode, v, next);
      LastItemLeft(p, mode, v, next + t);
      assert (next + t)[1..] == next[1..] + t;
    } else {
      var more := ParseItems(p, mode, SkipSpace(next[1..]));
      MoreItems(p, mode, next, t);
      ItemComma(p, mode, v, next, more.value, more.rest);
      ItemComma(p, mode, v, next + t, more.value, more.rest + t);
    }
  }

  lemma {:induction false} CommaGoesOn(next: string, t: string)
    requires Starts(next, ',') && SkipSpace(next[1..]) != ""
    ensures SkipSpace((next + t)[1..]) == SkipSpace(next[1..]) + t
  {
    assert (next + t)[1..] == next[1..] + t;
    SkipExtends(next[1..], t);
  }

  lemma {:induction false} ItemsNonempty(p: Platform, mode: Mode, s: string)
    requires ParseItems(p, mode, s).Got? || ParseMembers(p, mode, s).Got?
    ensures s != ""
  {
  }

  lemma {:induction false} MoreItems(p: Platform, mode: Mode, next: string, t: string)
    requires Starts(next, ',') && ParseItems(p, mode, SkipSpace(next[1..])).Got?
    ensures ParseItems(p, mode, SkipSpace((next + t)[1..]))
         == Got(ParseItems(p, mode, SkipSpace(next[1..])).value, ParseItems(p, mode, SkipSpace(next[1..])).rest + t)
    decreases |next|, 1
  {
    ItemsNonempty(p, mode, SkipSpace(next[1..]));
    CommaGoesOn(next, t);
    ItemsGoOn(p, mode, SkipSpace(next[1..]), t);
  }

  /** What the parser does after the first member. */
  function AfterMember(p: Platform, mode: Mode, e: Entry, next: string): Parsed<seq<Entry>> {
    if Starts(next, '}') then Got([e], next[1..])
    else if Starts(next, ',') then
      (match ParseMembers(p, mode, SkipSpace(next[1..]))
       case Fail => Fail
       case Got(es, rest) => Got([e] + es, rest))
    else Fail
  }

  lemma {:induction false} MembersStep(p: Platform, mode: Mode, s: string, key: string, keyed: string, colon: string,
                                       v: Value, after: string)
    requires Starts(s, '"') && ParseString(s[1..]) == Got(key, keyed) && SkipSpace(keyed) == colon && Starts(colon, ':')
    requires ParseValue(p, mode, SkipSpace(colon[1..])) == Got(v, after)
    ensures ParseMembers(p, mode, s) == AfterMember(p, mode, Entry(key, v), SkipSpace(after))
  {
  }

  /** The pieces of a first member. */
  lemma {:induction false} MembersPieces(p: Platform, mode: Mode, s: string)
    returns (key: string, keyed: string, colon: string, text: string, v: Value, after: string)
    requires ParseMembers(p, mode, s).Got?
    ensures Starts(s, '"') && ParseString(s[1..]) == Got(key, keyed) && SkipSpace(keyed) == colon && Starts(colon, ':')
    ensures SkipSpace(colon[1..]) == text && ParseValue(p, mode, text) == Got(v, after)
    ensures Starts(SkipSpace(after), '}') || Starts(SkipSpace(after), ',')
    ensures |text| < |s|
  {
    key, keyed := ParseString(s[1..]).value, ParseString(s[1..]).rest;
    colon := SkipSpace(keyed);
    text := SkipSpace(colon[1..]);
    v, after := ParseValue(p, mode, text).value, ParseValue(p, mode, text).rest;
  }

  lemma {:induction false} FirstMemberGoesOn(p: Platform, mode: Mode, s: string, t: string)
    returns (e: Entry, next: string)
    requires ParseMembers(p, mode, s).Got?
    ensures ParseMembers(p, mode, s) == AfterMember(p, mode, e, next)
    ensures ParseMembers(p, mode, s + t) == AfterMember(p, mode, e, next + t)
    ensures (Starts(next, '}') || Starts(next, ',')) && |next| < |s|
    decreases |s|, 1
  {
    var key, keyed, colon, text, v, after := MembersPieces(p, mode, s);
    e, next := Entry(key, v), SkipSpace(after);
    MembersStep(p, mode, s, key, keyed, colon, v, after);
    KeyGoesOn(s, t, key, keyed, colon);
    SkipExtends(colon[1..], t) by { assert text != ""; }
    MemberGoesOn(p, mode, text, t);
    MembersStep(p, mode, s + t, key, keyed + t, colon + t, v, after + t);
  }

  lemma {:induction false} MembersGoOn(p: Platform, mode: Mode, s: string, t: string)
    requires ParseMembers(p, mode, s).Got?
    ensures ParseMembers(p, mode, s + t) == Got(ParseMembers(p, mode, s).value, ParseMembers(p, mode, s).rest + t)
    decreases |s|, 2
  {
    var e, next := FirstMemberGoesOn(p, mode, s, t);
    AfterGoesOn(p, mode, e, next, t);
  }

  lemma {:induction false} AfterLast(p: Platform, mode: Mode, e: Entry, next: string)
    requires Starts(next, '}')
    ensures AfterMember(p, mode, e, next) == Got([e], next[1..])
  {
  }

  lemma {:induction false} AfterComma(p: Platform, mode: Mode, e: Entry, next: string, es: seq<Entry>, rest: string)
    requires Starts(next, ',') && ParseMembers(p, mode, SkipSpace(next[1..])) == Got(es, rest)
    ensures AfterMember(p, mode, e, next) == Got([e] + es, rest)
  {
  }

  lemma {:induction false} AfterGoesOn(p: Platform, mode: Mode, e: Entry, next: string, t: string)
    requires AfterMember(p, mode, e, next).Got? && (Starts(next, '}') || Starts(next, ','))
    ensures AfterMember(p, mode, e, next + t)
         == Got(AfterMember(p, mode, e, next).value, AfterMember(p, mode, e, next).rest + t)
    decreases |next|, 2
  {
    if Starts(next, '}') {
      AfterLast(p, mode, e, next);
      AfterLast(p, mode, e, next + t);
    } else {
      var more := ParseMembers(p, mode, SkipSpace(next[1..]));
      MoreMembers(p, mode, next, t);
      AfterComma(p, mode, e, next, more.value, more.rest);
      AfterComma(p, mode, e, next + t, more.value, more.rest + t);
    }
  }

  lemma {:induction false} KeyGoesOn(s: string, t: string, key: string, keyed: string, colon: string)
    requires Starts(s, '"') && ParseString(s[1..]) == Got(key, keyed) && SkipSpace(keyed) == colon && Starts(colon, ':')
    ensures Starts(s + t, '"') && ParseString((s + t)[1..]) == Got(key, keyed + t)
    ensures SkipSpace(keyed + t) == colon + t && Starts(colon + t, ':') && (colon + t)[1..] == colon[1..] + t
  {
    assert (s + t)[1..] == s[1..] + t;
    StringGoesOn(s[1..], t);
    SkipExtends(keyed, t);
  }

  lemma {:induction false} MoreMembers(p: Platform, mode: Mode, next: string, t: string)
    requires Starts(next, ',') && ParseMembers(p, mode, SkipSpace(next[1..])).Got?
    ensures ParseMembers(p, mode, SkipSpace((next + t)[1..]))
         == Got(ParseMembers(p, mode, SkipSpace(next[1..])).value, ParseMembers(p, mode, SkipSpace(next[1..])).rest + t)
    decreases |next|, 1
  {
    ItemsNonempty(p, mode, SkipSpace(next[1..]));
    CommaGoesOn(next, t);
    MembersGoOn(p, mode, SkipSpace(next[1..]), t);
  }

  lemma {:induction false} MemberGoesOn(p: Platform, mode: Mode, text: string, t: string)
    requires ParseValue(p, mode, text).Got?
    requires var next := SkipSpace(ParseValue(p, mode, text).rest); Starts(next, ',') || Starts(next, '}')
    ensures ParseValue(p, mode, text + t) == Got(ParseValue(p, mode, text).value, ParseValue(p, mode, text).rest + t)
    ensures SkipSpace(ParseValue(p, mode, text).rest + t) == SkipSpace(ParseValue(p, mode, text).rest) + t
    decreases |text|, 3
  {
    var after := ParseValue(p, mode, text).rest;
    Separated(after, SkipSpace(after)[0]);
    ValueGoesOn(p, mode, text, t);
    SkipExtends(after, t);
  }

  /** A printed object is not recovered from less than its whole text. */
  lemma {:induction false} ProperPrefixFails(p: Platform, mode: Mode, v: Value, st: Style, n: nat)
    requires Printable(p, v) && v.Dict? && n < |Print(v, st)|
    ensures Parse(p, mode, Print(v, st)[..n]) == None
  {
    var text := Print(v, st);
    var part, more := text[..n], text[n..];
    assert text == part + more;
    if n > 0 {
      assert part[0] == '{';
      SkipNothing(part);
      if ParseValue(p, mode, part).Got? {
        ValueGoesOn(p, mode, part, more);
        ValueRoundTrips(p, mode, v, st, "");
      }
    }
  }

  // ------------------------------------------------------------------ line breaks in printed text

  lemma {:induction false} UnbrokenParts(a: string, b: string)
    ensures Unbroken(a + b) <==> Unbroken(a) && Unbroken(b)
  {
    var s := a + b;
    if Unbroken(s) {
      forall i | 0 <= i < |a| ensures !IsBreak(a[i]) { assert s[i] == a[i]; }
      forall i | 0 <= i < |b| ensures !IsBreak(b[i]) { assert s[|a| + i] == b[i]; }
    }
  }

  /** A string that json.dumps writes with a character in it at which splitlines breaks. */
  predicate RawBreakIn(s: string) {
    exists i | 0 <= i < |s| :: IsRawBreak(s[i])
  }

  predicate BreaksIn(v: Value)
    decreases v
  {
    match v
    case Str(s) => RawBreakIn(s)
    case List(items) => exists i | 0 <= i < |items| :: BreaksIn(items[i])
    case Dict(entries) => exists i | 0 <= i < |entries| :: RawBreakIn(entries[i].key) || BreaksIn(entries[i].value)
    case _ => false
  }

  lemma {:induction false} EscapedUnbroken(c: char)
    ensures Unbroken(EscapeChar(c)) <==> !IsRawBreak(c)
  {
    if c < ' ' {
      var i := c as int;
      assert i / 16 == 0 || i / 16 == 1;
      assert HEX[i / 16] <= 'f' && HEX[i % 16] <= 'f' && HEX[i / 16] >= '0' && HEX[i % 16] >= '0';
    } else if EscapeChar(c) == [c] {
      assert [c][0] == c;
    }
  }

  lemma {:induction false} StringBreaks(s: string, rest: string)
    ensures Unbroken(StringTo(s, rest)) <==> !RawBreakIn(s) && Unbroken(rest)
  {
    if s == "" {
      UnbrokenParts("\"", rest);
    } else {
      StringBreaks(s[1..], rest);
      EscapedUnbroken(s[0]);
      UnbrokenParts(EscapeChar(s[0]), StringTo(s[1..], rest));
      assert RawBreakIn(s) <==> IsRawBreak(s[0]) || RawBreakIn(s[1..]) by {
        if RawBreakIn(s[1..]) {
          var i :| 0 <= i < |s[1..]| && IsRawBreak(s[1..][i]);
          assert s[i + 1] == s[1..][i];
        }
        if RawBreakIn(s) && !IsRawBreak(s[0]) {
          var i :| 0 <= i < |s| && IsRawBreak(s[i]);
          assert s[1..][i - 1] == s[i];
        }
      }
    }
  }

  lemma {:induction false} DigitsUnbroken(s: string)
    ensures Unbroken(Digits(s).0)
  {
    if s != "" && IsDigit(s[0]) { DigitsUnbroken(s[1..]); }
  }

  lemma {:induction false} NumberUnbroken(s: string)
    requires ScanNumber(s).Got?
    ensures Unbroken(ScanNumber(s).value.text)
  {
    var u := if Starts(s, '-') then s[1..] else s;
    UnsignedUnbroken(u);
    UnbrokenParts("-", ScanUnsigned(u).value.text);
  }

  lemma {:induction false} UnsignedUnbroken(s: string)
    requires ScanUnsigned(s).Got?
    ensures Unbroken(ScanUnsigned(s).value.text)
  {
    var (whole, r1) := IntegerPart(s);
    var (fraction, r2) := Fraction(r1);
    var (exponent, r3) := Exponent(r2);
    DigitsUnbroken(s);
    if fraction != "" { DigitsUnbroken(r1[1..]); UnbrokenParts(".", Digits(r1[1..]).0); }
    ExponentUnbroken(r2);
    UnbrokenParts(whole, fraction);
    UnbrokenParts(whole + fraction, exponent);
  }

  lemma {:induction false} ExponentUnbroken(s: string)
    ensures Unbroken(Exponent(s).0)
  {
    if |s| >= 2 && (s[0] == 'e' || s[0] == 'E') {
      DigitsUnbroken(s[1..]);
      DigitsUnbroken(s[2..]);
      UnbrokenParts([s[0]], Digits(s[1..]).0);
      UnbrokenParts([s[0], s[1]], Digits(s[2..]).0);
    }
  }

  lemma {:induction false} SeparatorsUnbroken(st: Style, rest: string)
    ensures Unbroken(ItemSeparator(st, rest)) <==> Unbroken(rest)
    ensures Unbroken(KeySeparator(st, rest)) <==> Unbroken(rest)
  {
    UnbrokenParts(",", rest);
    UnbrokenParts(", ", rest);
    UnbrokenParts(":", rest);
    UnbrokenParts(": ", rest);
  }

  lemma {:induction false} WordsUnbroken(rest: string)
    ensures Unbroken("null" + rest) <==> Unbroken(rest)
    ensures Unbroken("true" + rest) <==> Unbroken(rest)
    ensures Unbroken("false" + rest) <==> Unbroken(rest)
  {
    UnbrokenParts("null", rest);
    UnbrokenParts("true", rest);
    UnbrokenParts("false", rest);
  }

  /** The text of a value holds a line break exactly when one of its strings holds one of the three
      that JSON does not escape. */
  lemma {:induction false} PrintBreaks(p: Platform, v: Value, st: Style, rest: string)
    requires Printable(p, v)
    ensures Unbroken(PrintTo(v, st, rest)) <==> !BreaksIn(v) && Unbroken(rest)
    decreases v, 1
  {
    match v
    case Null => WordsUnbroken(rest);
    case Bool(b) => WordsUnbroken(rest);
    case Int(n) => IntTextScans(n); NumberUnbroken(IntText(n)); UnbrokenParts(IntText(n), rest);
    case Float(f) => NumberUnbroken(f.text); UnbrokenParts(f.text, rest);
    case Str(s) => StringBreaks(s, rest); UnbrokenParts("\"", StringTo(s, rest));
    case List(items) =>
      ItemsBreak(p, items, st, "]" + rest);
      UnbrokenParts("[", ItemsTo(items, st, "]" + rest));
      UnbrokenParts("]", rest);
    case Dict(entries) =>
      MembersBreak(p, entries, st, "}" + rest);
      UnbrokenParts("{", MembersTo(entries, st, "}" + rest));
      UnbrokenParts("}", rest);
  }

  predicate AnyBreak(items: seq<Value>) {
    exists i | 0 <= i < |items| :: BreaksIn(items[i])
  }

  lemma {:induction false} AnyBreakSteps(items: seq<Value>)
    requires items != []
    ensures AnyBreak(items) <==> BreaksIn(items[0]) || AnyBreak(items[1..])
  {
    if AnyBreak(items[1..]) {
      var i :| 0 <= i < |items[1..]| && BreaksIn(items[1..][i]);
      assert BreaksIn(items[i + 1]);
    }
    if AnyBreak(items) && !BreaksIn(items[0]) {
      var i :| 0 <= i < |items| && BreaksIn(items[i]);
      assert BreaksIn(items[1..][i - 1]);
    }
  }

  lemma {:induction false} ItemsBreak(p: Platform, items: seq<Value>, st: Style, rest: string)
    requires forall i | 0 <= i < |items| :: Printable(p, items[i])
    ensures Unbroken(ItemsTo(items, st, rest)) <==> !AnyBreak(items) && Unbroken(rest)
    decreases items, 0
  {
    if items != [] {
      AnyBreakSteps(items);
      if |items| == 1 {
        PrintBreaks(p, items[0], st, rest);
      } else {
        var more := ItemsTo(items[1..], st, rest);
        ItemsBreak(p, items[1..], st, rest);
        SeparatorsUnbroken(st, more);
        PrintBreaks(p, items[0], st, ItemSeparator(st, more));
      }
    }
  }

  predicate EntryBreaks(e: Entry) {
    RawBreakIn(e.key) || BreaksIn(e.value)
  }

  predicate AnyEntryBreaks(entries: seq<Entry>) {
    exists i | 0 <= i < |entries| :: EntryBreaks(entries[i])
  }

  lemma {:induction false} AnyEntrySteps(entries: seq<Entry>)
    requires entries != []
    ensures AnyEntryBreaks(entries) <==> EntryBreaks(entries[0]) || AnyEntryBreaks(entries[1..])
  {
    if AnyEntryBreaks(entries[1..]) {
      var i :| 0 <= i < |entries[1..]| && EntryBreaks(entries[1..][i]);
      assert EntryBreaks(entries[i + 1]);
    }
    if AnyEntryBreaks(entries) && !EntryBreaks(entries[0]) {
      var i :| 0 <= i < |entries| && EntryBreaks(entries[i]);
      assert EntryBreaks(entries[1..][i - 1]);
    }
  }

  lemma {:induction false} DictBreaks(entries: seq<Entry>)
    ensures BreaksIn(Dict(entries)) <==> AnyEntryBreaks(entries)
  {
    if AnyEntryBreaks(entries) {
      var i :| 0 <= i < |entries| && EntryBreaks(entries[i]);
      assert RawBreakIn(entries[i].key) || BreaksIn(entries[i].value);
    }
    if BreaksIn(Dict(entries)) {
      var i :| 0 <= i < |entries| && (RawBreakIn(entries[i].key) || BreaksIn(entries[i].value));
      assert EntryBreaks(entries[i]);
    }
  }

  lemma {:induction false} MemberBreaks(p: Platform, e: Entry, st: Style, next: string)
    requires Printable(p, e.value)
    ensures Unbroken("\"" + StringTo(e.key, KeySeparator(st, PrintTo(e.value, st, next))))
       <==> !EntryBreaks(e) && Unbroken(next)
    decreases e, 2
  {
    var value := PrintTo(e.value, st, next);
    PrintBreaks(p, e.value, st, next);
    SeparatorsUnbroken(st, value);
    StringBreaks(e.key, KeySeparator(st, value));
    UnbrokenParts("\"", StringTo(e.key, KeySeparator(st, value)));
  }

  lemma {:induction false} MembersBreak(p: Platform, entries: seq<Entry>, st: Style, rest: string)
    requires forall i | 0 <= i < |entries| :: Printable(p, entries[i].value)
    ensures Unbroken(MembersTo(entries, st, rest)) <==> !BreaksIn(Dict(entries)) && Unbroken(rest)
    decreases entries, 0
  {
    DictBreaks(entries);
    if entries != [] {
      AnyEntrySteps(entries);
      DictBreaks(entries[1..]);
      if |entries| == 1 {
        MemberBreaks(p, entries[0], st, rest);
      } else {
        var more := MembersTo(entries[1..], st, rest);
        MembersBreak(p, entries[1..], st, rest);
        SeparatorsUnbroken(st, more);
        MemberBreaks(p, entries[0], st, ItemSeparator(st, more));
      }
    }
  }
}
