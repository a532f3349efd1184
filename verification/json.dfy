/** The closed JSON profile of the kit: one printer, one strict parser.

    The text follows sections 4 to 7 of RFC 8259; the profile adds sorted keys, no white space,
    no floats, safe integers, closed key names and a depth limit. */
module Json {
  import opened Wrappers
  import opened Text
  import opened Sorting
  import opened Utf8

  const MAX_SAFE_INTEGER := 9_007_199_254_740_991
  const MAX_JSON_BYTES := 16 * 1024 * 1024
  const MAX_DEPTH := 64

  /** A dict is its members in insertion order; `Float` stands for any number that is not an
      integer literal, including `NaN` and the infinities Python reads. */
  datatype Json =
    | Null
    | Bool(b: bool)
    | Int(n: int)
    | Float
    | Str(s: string)
    | Arr(items: seq<Json>)
    | Obj(members: seq<Member>)

  datatype Member = Member(key: string, value: Json)

  // ---------- The profile ----------

  /** `^[a-z][a-z0-9_]*$`. */
  predicate IsClosedKey(key: string) {
    && key != []
    && 'a' <= key[0] <= 'z'
    && forall c | c in key :: 'a' <= c <= 'z' || '0' <= c <= '9' || c == '_'
  }

  /** `_canonical_value` accepts `v`; `nfc` is Unicode normalisation form C. */
  predicate Canonical(v: Json, depth: nat, nfc: string -> bool)
    decreases v
  {
    && depth <= MAX_DEPTH
    && match v
       case Null => true
       case Bool(_) => true
       case Int(n) => -MAX_SAFE_INTEGER <= n <= MAX_SAFE_INTEGER
       case Float => false
       case Str(s) => nfc(s)
       case Arr(items) => forall i | 0 <= i < |items| :: Canonical(items[i], depth + 1, nfc)
       case Obj(members) =>
         forall i | 0 <= i < |members| ::
           nfc(members[i].key) && IsClosedKey(members[i].key) && Canonical(members[i].value, depth + 1, nfc)
  }

  /** `_canonical_value`: the checked copy, filled item by item. */
  method CanonicalValue(v: Json, depth: nat, nfc: string -> bool) returns (r: Result<Json>)
    ensures r == if Canonical(v, depth, nfc) then Ok(v) else Fail
    decreases v
  {
    if depth > MAX_DEPTH {
      return Fail;
    }
    match v
    case Arr(items) =>
      var copy: seq<Json> := [];
      for i := 0 to |items|
        invariant copy == items[..i]
        invariant forall k | 0 <= k < i :: Canonical(items[k], depth + 1, nfc)
      {
        var item := CanonicalValue(items[i], depth + 1, nfc);
        if item.Fail? {
          return Fail;
        }
        copy := copy + [item.value];
      }
      assert copy == items;
      return Ok(Arr(copy));
    case Obj(members) =>
      var copy: seq<Member> := [];
      for i := 0 to |members|
        invariant copy == members[..i]
        invariant forall k | 0 <= k < i ::
                    nfc(members[k].key) && IsClosedKey(members[k].key) && Canonical(members[k].value, depth + 1, nfc)
      {
        if !nfc(members[i].key) || !IsClosedKey(members[i].key) {
          return Fail;
        }
        var value := CanonicalValue(members[i].value, depth + 1, nfc);
        if value.Fail? {
          return Fail;
        }
        copy := copy + [Member(members[i].key, value.value)];
      }
      assert copy == members;
      return Ok(Obj(copy));
    case _ =>
      return if Canonical(v, depth, nfc) then Ok(v) else Fail;
  }

  function KeyOf(m: Member): string { m.key }

  /** `value[key]`, if the key is there. */
  function Lookup(members: seq<Member>, key: string): Option<Json> {
    if members == [] then None
    else if members[0].key == key then Some(members[0].value)
    else Lookup(members[1..], key)
  }

  function KeySet(members: seq<Member>): set<string> {
    set m | m in members :: m.key
  }

  predicate MemberLe(a: Member, b: Member) { TextLe(a.key, b.key) }

  /** What every Python dict guarantees. */
  predicate UniqueKeys(v: Json) {
    match v
    case Arr(items) => forall i | 0 <= i < |items| :: UniqueKeys(items[i])
    case Obj(members) =>
      && Distinct(Map(KeyOf, members))
      && forall i | 0 <= i < |members| :: UniqueKeys(members[i].value)
    case _ => true
  }

  predicate NoFloats(v: Json) {
    match v
    case Float => false
    case Arr(items) => forall i | 0 <= i < |items| :: NoFloats(items[i])
    case Obj(members) => forall i | 0 <= i < |members| :: NoFloats(members[i].value)
    case _ => true
  }

  /** The same value with every object's members in key order. */
  function SortKeys(v: Json): Json {
    match v
    case Arr(items) => Arr(seq(|items|, i requires 0 <= i < |items| => SortKeys(items[i])))
    case Obj(members) => Obj(Sort(SortValues(members), MemberLe))
    case _ => v
  }

  function SortValues(members: seq<Member>): (r: seq<Member>)
    ensures |r| == |members|
    ensures forall i | 0 <= i < |r| :: r[i].key == members[i].key
  {
    seq(|members|, i requires 0 <= i < |members| => Member(members[i].key, SortKeys(members[i].value)))
  }

  // ---------- The printer ----------

  function HexDigit(n: nat): char
    requires n < 16
  {
    if n < 10 then Digit(n) else ('a' as int + n - 10) as char
  }

  function EscapeChar(c: char): string {
    var n := c as int;
    if c == '"' then "\\\""
    else if c == '\\' then "\\\\"
    else if c == '\n' then "\\n"
    else if c == '\r' then "\\r"
    else if c == '\t' then "\\t"
    else if n == 12 then "\\f"
    else if n == 8 then "\\b"
    else if n < 0x20 then "\\u00" + [HexDigit(n / 16), HexDigit(n % 16)]
    else [c]
  }

  function Escape(s: string): string {
    if s == [] then [] else EscapeChar(s[0]) + Escape(s[1..])
  }

  function PrintText(s: string): string { "\"" + Escape(s) + "\"" }

  function PrintInt(n: int): string {
    if n < 0 then "-" + Decimal(-n) else Decimal(n)
  }

  function PrintValue(v: Json): string
    decreases v, 1
  {
    match v
    case Null => "null"
    case Bool(b) => if b then "true" else "false"
    case Int(n) => PrintInt(n)
    case Float => ""
    case Str(s) => PrintText(s)
    case Arr(items) => "[" + PrintItems(items) + "]"
    case Obj(members) => "{" + PrintMembers(members) + "}"
  }

  function PrintItems(items: seq<Json>): string
    decreases items, 0
  {
    if items == [] then []
    else if |items| == 1 then PrintValue(items[0])
    else PrintValue(items[0]) + "," + PrintItems(items[1..])
  }

  function PrintMembers(members: seq<Member>): string
    decreases members, 0
  {
    if members == [] then []
    else
      var head := PrintText(members[0].key) + ":" + PrintValue(members[0].value);
      if |members| == 1 then head else head + "," + PrintMembers(members[1..])
  }

  /** `canonical_json_bytes`. */
  function CanonicalBytes(v: Json, nfc: string -> bool): Result<seq<Byte>> {
    if Canonical(v, 0, nfc) then Ok(Encode(PrintValue(SortKeys(v)))) else Fail
  }

  // ---------- The parser (`json.loads`) ----------

  datatype Parsed<+T> = NoParse | Parsed(value: T, rest: string)

  predicate IsSpace(c: char) { c == ' ' || c == '\t' || c == '\n' || c == '\r' }

  function SkipSpace(s: string): (r: string)
    ensures |r| <= |s|
  {
    if s != [] && IsSpace(s[0]) then SkipSpace(s[1..]) else s
  }

  function HexValue(c: char): Option<nat> {
    if '0' <= c <= '9' then Some(c as int - '0' as int)
    else if 'a' <= c <= 'f' then Some(c as int - 'a' as int + 10)
    else if 'A' <= c <= 'F' then Some(c as int - 'A' as int + 10)
    else None
  }

  function Hex4(s: string): Option<nat> {
    if |s| < 4 then None
    else
      var a, b, c, d := HexValue(s[0]), HexValue(s[1]), HexValue(s[2]), HexValue(s[3]);
      if a.Some? && b.Some? && c.Some? && d.Some?
      then Some(((a.value * 16 + b.value) * 16 + c.value) * 16 + d.value)
      else None
  }

  /** The character an escape stands for, `s` starting after the backslash.  An escape that
      yields an unpaired surrogate is refused here; the script refuses it one step later. */
  function ScanEscape(s: string): (r: Parsed<char>)
    ensures r.Parsed? ==> |r.rest| < |s|
  {
    if s == [] then NoParse
    else if s[0] == '"' || s[0] == '\\' || s[0] == '/' then Parsed(s[0], s[1..])
    else if s[0] == 'b' then Parsed(8 as char, s[1..])
    else if s[0] == 'f' then Parsed(12 as char, s[1..])
    else if s[0] == 'n' then Parsed('\n', s[1..])
    else if s[0] == 'r' then Parsed('\r', s[1..])
    else if s[0] == 't' then Parsed('\t', s[1..])
    else if s[0] == 'u' && Hex4(s[1..]).Some? then
      var high := Hex4(s[1..]).value;
      if 0xD800 <= high < 0xDC00 then
        if |s| >= 11 && s[5] == '\\' && s[6] == 'u' && Hex4(s[7..]).Some? && 0xDC00 <= Hex4(s[7..]).value < 0xE000
        then Parsed((0x10000 + (high - 0xD800) * 0x400 + (Hex4(s[7..]).value - 0xDC00)) as char, s[11..])
        else NoParse
      else if 0xDC00 <= high < 0xE000 || high >= 0x10000 then NoParse
      else Parsed(high as char, s[5..])
    else NoParse
  }

  /** The text up to the closing quote, `s` starting after the opening one. */
  function ScanText(s: string): (r: Parsed<string>)
    ensures r.Parsed? ==> |r.rest| < |s|
  {
    if s == [] then NoParse
    else if s[0] == '"' then Parsed([], s[1..])
    else if s[0] == '\\' then
      match ScanEscape(s[1..])
      case NoParse => NoParse
      case Parsed(c, rest) =>
        (match ScanText(rest)
         case NoParse => NoParse
         case Parsed(more, rest') => Parsed([c] + more, rest'))
    else if s[0] as int < 0x20 then NoParse
    else
      match ScanText(s[1..])
      case NoParse => NoParse
      case Parsed(more, rest') => Parsed([s[0]] + more, rest')
  }

  function CountDigits(s: string): (n: nat)
    ensures n <= |s| && AllDigits(s[..n])
    ensures n < |s| ==> !IsDigit(s[n])
  {
    if s == [] || !IsDigit(s[0]) then 0
    else
      var n := CountDigits(s[1..]);
      assert s[..n + 1] == [s[0]] + s[1..][..n];
      n + 1
  }

  /** Length of `(\.\d+)?` at the front. */
  function FractionLength(s: string): (n: nat)
    ensures n <= |s|
  {
    if |s| >= 2 && s[0] == '.' && IsDigit(s[1]) then 1 + CountDigits(s[1..]) else 0
  }

  /** Length of `([eE][-+]?\d+)?` at the front. */
  function ExponentLength(s: string): (n: nat)
    ensures n <= |s|
  {
    if |s| >= 1 && (s[0] == 'e' || s[0] == 'E') then
      var k := if |s| >= 2 && (s[1] == '-' || s[1] == '+') then 2 else 1;
      if CountDigits(s[k..]) > 0 then k + CountDigits(s[k..]) else 0
    else 0
  }

  /** `(0|[1-9]\d*)` with an optional fraction and exponent, after an optional minus sign. */
  function ScanNumber(s: string): (r: Parsed<Json>)
    ensures r.Parsed? ==> |r.rest| < |s|
  {
    if s != [] && s[0] == '-' then ScanMagnitude(s[1..], true) else ScanMagnitude(s, false)
  }

  function IntegerLength(body: string): (n: nat)
    ensures n <= |body| && AllDigits(body[..n])
    ensures body != [] && IsDigit(body[0]) ==> n > 0
  {
    if body != [] && body[0] == '0' then (assert body[..1] == ['0']; 1) else CountDigits(body)
  }

  function ScanMagnitude(body: string, negative: bool): (r: Parsed<Json>)
    ensures r.Parsed? ==> |r.rest| < |body|
  {
    if body == [] || !IsDigit(body[0]) then NoParse
    else
      var n := IntegerLength(body);
      var rest := body[n..];
      var fraction := FractionLength(rest);
      var exponent := ExponentLength(rest[fraction..]);
      if fraction + exponent > 0 then Parsed(Float, rest[fraction + exponent..])
      else
        var magnitude: int := DigitsValue(body[..n]);
        Parsed(Int(if negative then -magnitude else magnitude), rest)
  }

  /** `_pairs_hook`: a repeated key is an error. */
  function PairsHook(pairs: seq<Member>): Option<Json> {
    if Distinct(Map(KeyOf, pairs)) then Some(Obj(pairs)) else None
  }

  method BuildObject(pairs: seq<Member>) returns (r: Option<Json>)
    ensures r == PairsHook(pairs)
  {
    var seen: set<string> := {};
    var result: seq<Member> := [];
    for i := 0 to |pairs|
      invariant result == pairs[..i]
      invariant seen == set k | 0 <= k < i :: pairs[k].key
      invariant forall j, k | 0 <= j < k < i :: pairs[j].key != pairs[k].key
    {
      if pairs[i].key in seen {
        assert exists k :: 0 <= k < i && pairs[k].key == pairs[i].key;
        var k :| 0 <= k < i && pairs[k].key == pairs[i].key;
        assert Map(KeyOf, pairs)[k] == Map(KeyOf, pairs)[i];
        return None;
      }
      seen := seen + {pairs[i].key};
      result := result + [pairs[i]];
    }
    assert result == pairs;
    assert forall j | 0 <= j < |pairs| :: Map(KeyOf, pairs)[j] == pairs[j].key;
    return Some(Obj(result));
  }

  function ParseValue(s: string): (r: Parsed<Json>)
    ensures r.Parsed? ==> |r.rest| < |s|
    decreases |s|, 1
  {
    if s == [] then NoParse
    else if s[0] == '"' then
      match ScanText(s[1..])
      case NoParse => NoParse
      case Parsed(text, rest) => Parsed(Str(text), rest)
    else if s[0] == '{' then
      var inner := SkipSpace(s[1..]);
      if inner != [] && inner[0] == '}' then Parsed(Obj([]), inner[1..])
      else
        match ParseMembers(inner)
        case NoParse => NoParse
        case Parsed(members, rest) =>
          if PairsHook(members).Some? then Parsed(PairsHook(members).value, rest) else NoParse
    else if s[0] == '[' then
      var inner := SkipSpace(s[1..]);
      if inner != [] && inner[0] == ']' then Parsed(Arr([]), inner[1..])
      else
        match ParseItems(inner)
        case NoParse => NoParse
        case Parsed(items, rest) => Parsed(Arr(items), rest)
    else if s[0] == 'n' && "null" <= s then Parsed(Null, s[4..])
    else if s[0] == 't' && "true" <= s then Parsed(Bool(true), s[4..])
    else if s[0] == 'f' && "false" <= s then Parsed(Bool(false), s[5..])
    else if ScanNumber(s).Parsed? then ScanNumber(s)
    else if s[0] == 'N' && "NaN" <= s then Parsed(Float, s[3..])
    else if s[0] == 'I' && "Infinity" <= s then Parsed(Float, s[8..])
    else if s[0] == '-' && "-Infinity" <= s then Parsed(Float, s[9..])
    else NoParse
  }

  /** One or more values up to the closing bracket. */
  function ParseItems(s: string): (r: Parsed<seq<Json>>)
    ensures r.Parsed? ==> |r.rest| < |s|
    decreases |s|, 2
  {
    match ParseValue(s)
    case NoParse => NoParse
    case Parsed(item, rest) =>
      var after := SkipSpace(rest);
      if after != [] && after[0] == ']' then Parsed([item], after[1..])
      else if after != [] && after[0] == ',' then
        match ParseItems(SkipSpace(after[1..]))
        case NoParse => NoParse
        case Parsed(items, rest') => Parsed([item] + items, rest')
      else NoParse
  }

  /** One or more `"key":value` pairs up to the closing brace. */
  function ParseMembers(s: string): (r: Parsed<seq<Member>>)
    ensures r.Parsed? ==> |r.rest| < |s|
    decreases |s|, 0
  {
    if s == [] || s[0] != '"' then NoParse
    else match ScanText(s[1..])
      case NoParse => NoParse
      case Parsed(key, rest) =>
        var colon := SkipSpace(rest);
        if colon == [] || colon[0] != ':' then NoParse
        else match ParseValue(SkipSpace(colon[1..]))
          case NoParse => NoParse
          case Parsed(value, rest') =>
            var after := SkipSpace(rest');
            if after != [] && after[0] == '}' then Parsed([Member(key, value)], after[1..])
            else if after != [] && after[0] == ',' then
              match ParseMembers(SkipSpace(after[1..]))
              case NoParse => NoParse
              case Parsed(members, rest'') => Parsed([Member(key, value)] + members, rest'')
            else NoParse
  }

  /** `json.loads` with the pairs hook. */
  function Loads(s: string): Option<Json> {
    match ParseValue(SkipSpace(s))
    case NoParse => None
    case Parsed(v, rest) => if SkipSpace(rest) == [] then Some(v) else None
  }

  const BYTE_ORDER_MARK: seq<Byte> := [0xEF, 0xBB, 0xBF]

  /** `_parse_canonical_json`. */
  function ParseCanonical(raw: seq<Byte>, nfc: string -> bool): Result<Json> {
    if |raw| > MAX_JSON_BYTES || BYTE_ORDER_MARK <= raw then Fail
    else match Decode(raw)
      case None => Fail
      case Some(text) =>
        match Loads(text)
        case None => Fail
        case Some(v) => if CanonicalBytes(v, nfc) == Ok(raw) then Ok(v) else Fail
  }
}
