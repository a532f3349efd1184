/** The printer and the parser of the closed profile undo each other. */
module JsonRoundTrip {
  import opened Wrappers
  import opened Text
  import opened Sorting
  import opened Json

  // ---------- Text ----------

  lemma ScanEscapedChar(c: char, t: string)
    ensures c != '"' && c != '\\' && c as int >= 0x20 ==> EscapeChar(c) == [c]
    ensures c == '"' || c == '\\' || c as int < 0x20 ==>
              |EscapeChar(c)| >= 2 && EscapeChar(c)[0] == '\\' && ScanEscape(EscapeChar(c)[1..] + t) == Parsed(c, t)
  {
    if c == '"' || c == '\\' || c as int < 0x20 {
      var e := EscapeChar(c)[1..];
      var s := e + t;
      assert s[0] == e[0];
      if |e| == 1 {
        assert s[1..] == t;
      } else {
        var n := c as int;
        assert e == "u00" + [HexDigit(n / 16), HexDigit(n % 16)];
        assert s[1..][0] == '0' && s[1..][1] == '0' && s[1..][2] == HexDigit(n / 16) && s[1..][3] == HexDigit(n % 16);
        assert Hex4(s[1..]) == Some(n);
        assert s[5..] == t;
      }
    }
  }

  lemma ScanOneChar(c: char, rest: string, tail: string, t: string)
    requires ScanText(rest) == Parsed(tail, t)
    ensures ScanText(EscapeChar(c) + rest) == Parsed([c] + tail, t)
  {
    var e := EscapeChar(c);
    ScanEscapedChar(c, rest);
    var whole := e + rest;
    assert whole[0] == e[0] && whole[1..] == e[1..] + rest;
  }

  lemma {:induction false} ScanPrintedText(s: string, t: string)
    ensures ScanText(Escape(s) + "\"" + t) == Parsed(s, t)
  {
    if s == [] {
      assert (Escape(s) + "\"" + t)[1..] == t;
    } else {
      var c, e, rest := s[0], EscapeChar(s[0]), Escape(s[1..]) + "\"" + t;
      ScanPrintedText(s[1..], t);
      assert Escape(s) + "\"" + t == e + rest;
      ScanOneChar(c, rest, s[1..], t);
      assert [c] + s[1..] == s;
    }
  }

  // ---------- Numbers ----------

  /** What may follow a value in printed text. */
  predicate Delimited(t: string) {
    t == [] || t[0] == ',' || t[0] == ']' || t[0] == '}'
  }

  lemma {:induction false} CountDigitsStops(digits: string, t: string)
    requires AllDigits(digits) && (t == [] || !IsDigit(t[0]))
    ensures CountDigits(digits + t) == |digits|
  {
    if digits == [] {
      assert digits + t == t;
    } else {
      assert (digits + t)[1..] == digits[1..] + t;
      CountDigitsStops(digits[1..], t);
    }
  }

  lemma NothingAfterDigits(t: string)
    requires Delimited(t)
    ensures t == [] || !IsDigit(t[0])
    ensures FractionLength(t) == 0 && ExponentLength(t) == 0 && t[0..] == t
  {
    assert t != [] ==> t[0] != '.' && t[0] != 'e' && t[0] != 'E';
  }

  lemma DigitStart(c: char)
    requires IsDigit(c)
    ensures c != '-'
  {
  }

  lemma ScanDigits(digits: string, t: string, negative: bool)
    requires digits != [] && AllDigits(digits) && Delimited(t)
    requires digits[0] == '0' ==> digits == "0"
    ensures var n: int := DigitsValue(digits);
            ScanMagnitude(digits + t, negative) == Parsed(Int(if negative then -n else n), t)
  {
    var body := digits + t;
    NothingAfterDigits(t);
    PrintedIntegerLength(digits, t);
    assert body[..|digits|] == digits && body[|digits|..] == t;
    ScanMagnitudeStep(body, |digits|, digits, t, negative);
  }

  lemma PrintedIntegerLength(digits: string, t: string)
    requires digits != [] && AllDigits(digits) && (t == [] || !IsDigit(t[0]))
    requires digits[0] == '0' ==> digits == "0"
    ensures IsDigit((digits + t)[0]) && IntegerLength(digits + t) == |digits|
  {
    assert (digits + t)[0] == digits[0];
    CountDigitsStops(digits, t);
  }

  lemma ScanMagnitudeStep(body: string, n: nat, digits: string, rest: string, negative: bool)
    requires body != [] && IsDigit(body[0]) && IntegerLength(body) == n
    requires body[..n] == digits && body[n..] == rest && AllDigits(digits)
    requires FractionLength(rest) == 0 && rest[0..] == rest && ExponentLength(rest) == 0
    ensures var m: int := DigitsValue(digits);
            ScanMagnitude(body, negative) == Parsed(Int(if negative then -m else m), rest)
  {
  }

  lemma PrintedIntStart(n: int)
    ensures PrintInt(n) != [] && (PrintInt(n)[0] == '-' || IsDigit(PrintInt(n)[0]))
  {
    var digits := Decimal(if n < 0 then -n else n);
  }

  lemma ScanPrintedInt(n: int, t: string)
    requires Delimited(t)
    ensures ScanNumber(PrintInt(n) + t) == Parsed(Int(n), t)
  {
    var m: nat := if n < 0 then -n else n;
    DecimalRoundTrip(m);
    ScanDigits(Decimal(m), t, n < 0);
    ScanSigned(Decimal(m), t, n < 0, n);
  }

  lemma ScanSigned(digits: string, t: string, negative: bool, n: int)
    requires digits != [] && IsDigit(digits[0]) && ScanMagnitude(digits + t, negative) == Parsed(Int(n), t)
    ensures ScanNumber((if negative then "-" + digits else digits) + t) == Parsed(Int(n), t)
  {
    if negative {
      assert "-" + digits + t == "-" + (digits + t) && ("-" + (digits + t))[1..] == digits + t;
    } else {
      DigitStart(digits[0]);
      assert (digits + t)[0] == digits[0];
    }
  }

  // ---------- Values ----------

  /** Printed text never starts with white space, so nothing is skipped. */
  predicate Visible(s: string) {
    s != [] && !IsSpace(s[0])
  }

  lemma PrintedStart(v: Json)
    requires NoFloats(v)
    ensures Visible(PrintValue(v)) && PrintValue(v)[0] != ']' && PrintValue(v)[0] != '}'
  {
    match v
    case Int(n) => PrintedIntStart(n);
    case _ =>
  }

  lemma AppendedStart(a: string, b: string)
    requires a != []
    ensures a + b != [] && (a + b)[0] == a[0]
  {
  }

  lemma ParseEmptyArray(t: string)
    ensures ParseValue("[]" + t) == Parsed(Arr([]), t)
  {
    assert ("[]" + t)[1..] == "]" + t && ("]" + t)[1..] == t;
  }

  lemma ParseEmptyObject(t: string)
    ensures ParseValue("{}" + t) == Parsed(Obj([]), t)
  {
    assert ("{}" + t)[1..] == "}" + t && ("}" + t)[1..] == t;
  }

  lemma ParseArrayStep(s: string, items: seq<Json>, t: string)
    requires s != [] && s[0] == '[' && Visible(s[1..]) && s[1] != ']'
    requires ParseItems(s[1..]) == Parsed(items, t)
    ensures ParseValue(s) == Parsed(Arr(items), t)
  {
  }

  lemma ParseObjectStep(s: string, members: seq<Member>, t: string)
    requires s != [] && s[0] == '{' && |s| >= 2 && s[1] == '"'
    requires ParseMembers(s[1..]) == Parsed(members, t) && Distinct(Map(KeyOf, members))
    ensures ParseValue(s) == Parsed(Obj(members), t)
  {
  }

  lemma ParseLastItem(s: string, item: Json, t: string)
    requires ParseValue(s) == Parsed(item, "]" + t)
    ensures ParseItems(s) == Parsed([item], t)
  {
    assert ("]" + t)[1..] == t;
  }

  lemma ParseMoreItems(s: string, item: Json, more: string, items: seq<Json>, t: string)
    requires ParseValue(s) == Parsed(item, "," + more) && Visible(more)
    requires ParseItems(more) == Parsed(items, t)
    ensures ParseItems(s) == Parsed([item] + items, t)
  {
    assert ("," + more)[1..] == more;
  }

  lemma ParseLiteral(v: Json, t: string)
    requires v.Null? || v.Bool?
    ensures ParseValue(PrintValue(v) + t) == Parsed(v, t)
  {
    var s := PrintValue(v) + t;
    match v
    case Null => assert s[4..] == t;
    case Bool(b) => assert s[if b then 4 else 5..] == t;
  }

  lemma ParseNumberStep(s: string)
    requires s != [] && (s[0] == '-' || IsDigit(s[0])) && ScanNumber(s).Parsed?
    ensures ParseValue(s) == ScanNumber(s)
  {
    NumberStart(s[0]);
  }

  lemma NumberStart(c: char)
    requires c == '-' || IsDigit(c)
    ensures c != '"' && c != '{' && c != '[' && c != 'n' && c != 't' && c != 'f'
  {
  }

  lemma ParseTextStep(s: string, text: string, t: string)
    requires s != [] && s[0] == '"' && ScanText(s[1..]) == Parsed(text, t)
    ensures ParseValue(s) == Parsed(Str(text), t)
  {
  }

  lemma ParseScalar(v: Json, t: string)
    requires v.Null? || v.Bool? || v.Int? || v.Str?
    requires Delimited(t)
    ensures ParseValue(PrintValue(v) + t) == Parsed(v, t)
  {
    match v
    case Int(n) =>
      PrintedIntStart(n);
      AppendedStart(PrintInt(n), t);
      ScanPrintedInt(n, t);
      ParseNumberStep(PrintInt(n) + t);
    case Str(text) =>
      var s := PrintText(text) + t;
      assert s == "\"" + (Escape(text) + "\"" + t) && s[1..] == Escape(text) + "\"" + t;
      ScanPrintedText(text, t);
      ParseTextStep(s, text, t);
    case _ => ParseLiteral(v, t);
  }

  lemma {:induction false} ParsePrintedValue(v: Json, t: string)
    requires NoFloats(v) && UniqueKeys(v) && Delimited(t)
    ensures ParseValue(PrintValue(v) + t) == Parsed(v, t)
    decreases v, 1
  {
    match v
    case Arr(items) => ParsePrintedArray(items, t);
    case Obj(members) => ParsePrintedObject(members, t);
    case _ => ParseScalar(v, t);
  }

  lemma {:induction false} ParsePrintedArray(items: seq<Json>, t: string)
    requires NoFloats(Arr(items)) && UniqueKeys(Arr(items)) && Delimited(t)
    ensures ParseValue(PrintValue(Arr(items)) + t) == Parsed(Arr(items), t)
    decreases items, 1
  {
    var s := PrintValue(Arr(items)) + t;
    var inner := PrintItems(items) + "]" + t;
    assert s == "[" + inner && s[1..] == inner;
    if items == [] {
      ParseEmptyArray(t);
    } else {
      ParsePrintedItems(items, t);
      ParseArrayStep(s, items, t);
    }
  }

  lemma SplitItems(items: seq<Json>, t: string)
    requires items != []
    ensures PrintItems(items) + "]" + t
         == PrintValue(items[0]) + (if |items| == 1 then "]" + t else "," + (PrintItems(items[1..]) + "]" + t))
  {
  }

  lemma {:induction false} ParsePrintedItems(items: seq<Json>, t: string)
    requires items != [] && forall i | 0 <= i < |items| :: NoFloats(items[i]) && UniqueKeys(items[i])
    ensures ParseItems(PrintItems(items) + "]" + t) == Parsed(items, t)
    ensures Visible(PrintItems(items) + "]" + t) && (PrintItems(items) + "]" + t)[0] != ']'
    decreases items, 0
  {
    var s := PrintItems(items) + "]" + t;
    var head := PrintValue(items[0]);
    PrintedStart(items[0]);
    SplitItems(items, t);
    if |items| == 1 {
      AppendedStart(head, "]" + t);
      ParsePrintedValue(items[0], "]" + t);
      ParseLastItem(s, items[0], t);
      assert items == [items[0]];
    } else {
      var more := PrintItems(items[1..]) + "]" + t;
      AppendedStart(head, "," + more);
      ParsePrintedValue(items[0], "," + more);
      ParsePrintedItems(items[1..], t);
      ParseMoreItems(s, items[0], more, items[1..], t);
      assert items == [items[0]] + items[1..];
    }
  }

  lemma {:induction false} ParsePrintedObject(members: seq<Member>, t: string)
    requires NoFloats(Obj(members)) && UniqueKeys(Obj(members)) && Delimited(t)
    ensures ParseValue(PrintValue(Obj(members)) + t) == Parsed(Obj(members), t)
    decreases members, 1
  {
    var s := PrintValue(Obj(members)) + t;
    var inner := PrintMembers(members) + "}" + t;
    assert s == "{" + inner && s[1..] == inner;
    if members == [] {
      ParseEmptyObject(t);
    } else {
      ParsePrintedMembers(members, t);
      ParseObjectStep(s, members, t);
    }
  }

  lemma Regroup(key: string, value: string, more: string, t: string)
    ensures key + ":" + value + "}" + t == key + (":" + (value + ("}" + t)))
    ensures key + ":" + value + "," + more + "}" + t == key + (":" + (value + ("," + (more + "}" + t))))
  {
    var rest := more + "}" + t;
    assert key + ":" + value + "," + more + "}" + t == key + ":" + value + "," + rest;
    assert key + ":" + value + "," + rest == key + ":" + (value + ("," + rest));
  }

  lemma SplitMembers(members: seq<Member>, t: string)
    requires members != []
    ensures PrintMembers(members) + "}" + t
         == PrintText(members[0].key) + (":" + (PrintValue(members[0].value) +
            (if |members| == 1 then "}" + t else "," + (PrintMembers(members[1..]) + "}" + t))))
  {
    Regroup(PrintText(members[0].key), PrintValue(members[0].value), PrintMembers(members[1..]), t);
  }

  lemma {:induction false} ParsePrintedMembers(members: seq<Member>, t: string)
    requires members != []
    requires forall i | 0 <= i < |members| :: NoFloats(members[i].value) && UniqueKeys(members[i].value)
    ensures ParseMembers(PrintMembers(members) + "}" + t) == Parsed(members, t)
    ensures PrintMembers(members) + "}" + t != [] && (PrintMembers(members) + "}" + t)[0] == '"'
    decreases members, 0
  {
    var value := members[0].value;
    MembersStart(members, t);
    if |members| == 1 {
      ParsePrintedValue(value, "}" + t);
      LastMember(members, t);
    } else {
      var more := PrintMembers(members[1..]) + "}" + t;
      ParsePrintedValue(value, "," + more);
      ParsePrintedMembers(members[1..], t);
      MoreMembers(members, more, t);
    }
  }

  lemma MembersStart(members: seq<Member>, t: string)
    requires members != []
    ensures PrintMembers(members) + "}" + t != [] && (PrintMembers(members) + "}" + t)[0] == '"'
  {
    SplitMembers(members, t);
  }

  lemma LastMember(members: seq<Member>, t: string)
    requires |members| == 1 && NoFloats(members[0].value)
    requires ParseValue(PrintValue(members[0].value) + ("}" + t)) == Parsed(members[0].value, "}" + t)
    ensures ParseMembers(PrintMembers(members) + "}" + t) == Parsed(members, t)
  {
    var s := PrintMembers(members) + "}" + t;
    SplitMembers(members, t);
    PrintedMember(members[0].key, members[0].value, "}" + t, s);
    ParseLastMember(s, members[0].key, members[0].value, t);
    assert members == [Member(members[0].key, members[0].value)];
  }

  lemma MoreMembers(members: seq<Member>, more: string, t: string)
    requires |members| > 1 && NoFloats(members[0].value)
    requires more == PrintMembers(members[1..]) + "}" + t && Visible(more)
    requires ParseValue(PrintValue(members[0].value) + ("," + more)) == Parsed(members[0].value, "," + more)
    requires ParseMembers(more) == Parsed(members[1..], t)
    ensures ParseMembers(PrintMembers(members) + "}" + t) == Parsed(members, t)
  {
    var s := PrintMembers(members) + "}" + t;
    SplitMembers(members, t);
    PrintedMember(members[0].key, members[0].value, "," + more, s);
    ParseMoreMembers(s, members[0].key, members[0].value, more, members[1..], t);
    assert members == [Member(members[0].key, members[0].value)] + members[1..];
  }

  /** `s` starts with the pair `key`, `value` and goes on with `after`. */
  ghost predicate StartsWithPair(s: string, key: string, value: Json, after: string) {
    && s != [] && s[0] == '"'
    && ScanText(s[1..]).Parsed? && ScanText(s[1..]).value == key
    && var rest := ScanText(s[1..]).rest;
       rest != [] && rest[0] == ':' && Visible(rest[1..]) && ParseValue(rest[1..]) == Parsed(value, after)
  }

  lemma ParseLastMember(s: string, key: string, value: Json, t: string)
    requires StartsWithPair(s, key, value, "}" + t)
    ensures ParseMembers(s) == Parsed([Member(key, value)], t)
  {
    assert ("}" + t)[1..] == t;
  }

  lemma ParseMoreMembers(s: string, key: string, value: Json, more: string, members: seq<Member>, t: string)
    requires StartsWithPair(s, key, value, "," + more) && Visible(more)
    requires ParseMembers(more) == Parsed(members, t)
    ensures ParseMembers(s) == Parsed([Member(key, value)] + members, t)
  {
    assert ("," + more)[1..] == more;
  }

  lemma PrintedMember(key: string, value: Json, after: string, s: string)
    requires NoFloats(value) && ParseValue(PrintValue(value) + after) == Parsed(value, after)
    requires s == PrintText(key) + (":" + (PrintValue(value) + after))
    ensures StartsWithPair(s, key, value, after)
  {
    PrintedStart(value);
    AppendedStart(PrintValue(value), after);
    MemberText(key, value, after, s, PrintValue(value) + after);
  }

  lemma ScanKey(key: string, rest: string)
    ensures var s := PrintText(key) + (":" + rest);
            s != [] && s[0] == '"' && ScanText(s[1..]) == Parsed(key, ":" + rest)
  {
    var s := PrintText(key) + (":" + rest);
    assert s == "\"" + (Escape(key) + "\"" + (":" + rest));
    assert s[1..] == Escape(key) + "\"" + (":" + rest);
    ScanPrintedText(key, ":" + rest);
  }

  lemma MemberText(key: string, value: Json, after: string, s: string, rest: string)
    requires Visible(rest) && ParseValue(rest) == Parsed(value, after)
    requires s == PrintText(key) + (":" + rest)
    ensures StartsWithPair(s, key, value, after)
  {
    ScanKey(key, rest);
    assert (":" + rest)[1..] == rest;
  }
}
