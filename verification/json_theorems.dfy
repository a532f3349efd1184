/** Canonical JSON is a bijection between the values of the profile, up to key order, and the
    byte strings the strict parser accepts. */
module JsonTheorems {
  import opened Wrappers
  import opened Text
  import opened Sorting
  import opened Utf8
  import opened Json
  import opened JsonRoundTrip

  // ---------- Key order ----------

  lemma MemberLeIsTotalPreorder()
    ensures IsTotalPreorder(MemberLe)
  {
    forall a, b, c
      ensures MemberLe(a, b) || MemberLe(b, a)
      ensures MemberLe(a, b) && MemberLe(b, c) ==> MemberLe(a, c)
    {
      TextLeTotalOrder(a.key, b.key, c.key);
    }
  }

  /** What sorting does to the members of one object. */
  lemma SortedMembers(members: seq<Member>)
    ensures var sorted := Sort(SortValues(members), MemberLe);
            && IsSorted(sorted, MemberLe)
            && |sorted| == |members|
            && (forall i | 0 <= i < |sorted| :: sorted[i] in SortValues(members))
            && (Distinct(Map(KeyOf, members)) ==> Distinct(Map(KeyOf, sorted)))
  {
    var values := SortValues(members);
    var sorted := Sort(values, MemberLe);
    MemberLeIsTotalPreorder();
    SortSorted(values, MemberLe);
    SortPermutes(values, MemberLe);
    forall i | 0 <= i < |sorted|
      ensures sorted[i] in values
    {
      assert sorted[i] in multiset(sorted);
    }
    MapPermutes(KeyOf, values, sorted);
    assert Map(KeyOf, values) == Map(KeyOf, members);
    if Distinct(Map(KeyOf, members)) {
      DistinctPermutation(Map(KeyOf, values), Map(KeyOf, sorted));
    }
  }

  /** Each sorted member is one of the old ones, with its own value sorted. */
  lemma SortedMemberOrigin(members: seq<Member>, i: nat) returns (k: nat)
    requires i < |Sort(SortValues(members), MemberLe)|
    ensures k < |members|
    ensures Sort(SortValues(members), MemberLe)[i] == Member(members[k].key, SortKeys(members[k].value))
  {
    var values := SortValues(members);
    SortedMembers(members);
    assert Sort(values, MemberLe)[i] in values;
    k :| 0 <= k < |values| && values[k] == Sort(values, MemberLe)[i];
  }

  lemma {:induction false} SortKeysKeepsProfile(v: Json, depth: nat, nfc: string -> bool)
    requires Canonical(v, depth, nfc)
    ensures Canonical(SortKeys(v), depth, nfc) && NoFloats(SortKeys(v))
    decreases v
  {
    match v
    case Arr(items) =>
      forall i | 0 <= i < |items|
        ensures Canonical(SortKeys(items[i]), depth + 1, nfc) && NoFloats(SortKeys(items[i]))
      {
        SortKeysKeepsProfile(items[i], depth + 1, nfc);
      }
    case Obj(members) =>
      var sorted := Sort(SortValues(members), MemberLe);
      forall i | 0 <= i < |sorted|
        ensures nfc(sorted[i].key) && IsClosedKey(sorted[i].key)
        ensures Canonical(sorted[i].value, depth + 1, nfc) && NoFloats(sorted[i].value)
      {
        var k := SortedMemberOrigin(members, i);
        SortKeysKeepsProfile(members[k].value, depth + 1, nfc);
      }
    case _ =>
  }

  lemma {:induction false} SortKeysKeepsUniqueKeys(v: Json)
    requires UniqueKeys(v)
    ensures UniqueKeys(SortKeys(v))
    decreases v
  {
    match v
    case Arr(items) =>
      forall i | 0 <= i < |items|
        ensures UniqueKeys(SortKeys(items[i]))
      {
        SortKeysKeepsUniqueKeys(items[i]);
      }
    case Obj(members) =>
      var sorted := Sort(SortValues(members), MemberLe);
      SortedMembers(members);
      forall i | 0 <= i < |sorted|
        ensures UniqueKeys(sorted[i].value)
      {
        var k := SortedMemberOrigin(members, i);
        SortKeysKeepsUniqueKeys(members[k].value);
      }
    case _ =>
  }

  /** Sorting the keys twice is sorting them once. */
  lemma {:induction false} SortKeysIdempotent(v: Json)
    ensures SortKeys(SortKeys(v)) == SortKeys(v)
    decreases v
  {
    match v
    case Arr(items) =>
      var sorted := SortKeys(v).items;
      forall i | 0 <= i < |items|
        ensures SortKeys(sorted[i]) == sorted[i]
      {
        SortKeysIdempotent(items[i]);
      }
      assert SortKeys(Arr(sorted)).items == sorted;
    case Obj(members) =>
      var values := SortValues(members);
      var sorted := Sort(values, MemberLe);
      SortedMembers(members);
      forall i | 0 <= i < |sorted|
        ensures SortKeys(sorted[i].value) == sorted[i].value
      {
        var k := SortedMemberOrigin(members, i);
        SortKeysIdempotent(members[k].value);
      }
      assert SortValues(sorted) == sorted;
      SortOfSorted(sorted, MemberLe);
    case _ =>
  }

  lemma {:induction false} SortedProfileIsProfile(v: Json, depth: nat, nfc: string -> bool)
    requires Canonical(SortKeys(v), depth, nfc)
    ensures Canonical(v, depth, nfc)
    decreases v
  {
    match v
    case Arr(items) =>
      forall i | 0 <= i < |items|
        ensures Canonical(items[i], depth + 1, nfc)
      {
        assert SortKeys(v).items[i] == SortKeys(items[i]);
        SortedProfileIsProfile(items[i], depth + 1, nfc);
      }
    case Obj(members) =>
      var sorted := Sort(SortValues(members), MemberLe);
      forall i | 0 <= i < |members|
        ensures nfc(members[i].key) && IsClosedKey(members[i].key) && Canonical(members[i].value, depth + 1, nfc)
      {
        var k := SortedMemberPlace(members, i);
        assert Canonical(sorted[k].value, depth + 1, nfc);
        SortedProfileIsProfile(members[i].value, depth + 1, nfc);
      }
    case _ =>
  }

  /** Where a member goes. */
  lemma SortedMemberPlace(members: seq<Member>, i: nat) returns (k: nat)
    requires i < |members|
    ensures k < |Sort(SortValues(members), MemberLe)|
    ensures Sort(SortValues(members), MemberLe)[k] == Member(members[i].key, SortKeys(members[i].value))
  {
    var values := SortValues(members);
    SortPermutes(values, MemberLe);
    assert values[i] in multiset(Sort(values, MemberLe));
    k :| 0 <= k < |Sort(values, MemberLe)| && Sort(values, MemberLe)[k] == values[i];
  }

  /** Values that differ in key order only have the same canonical bytes. */
  lemma SameBytes(v: Json, w: Json, nfc: string -> bool)
    requires SortKeys(v) == SortKeys(w)
    ensures CanonicalBytes(v, nfc) == CanonicalBytes(w, nfc)
  {
    if Canonical(v, 0, nfc) {
      SortKeysKeepsProfile(v, 0, nfc);
      SortedProfileIsProfile(w, 0, nfc);
    }
    if Canonical(w, 0, nfc) {
      SortKeysKeepsProfile(w, 0, nfc);
      SortedProfileIsProfile(v, 0, nfc);
    }
  }

  // ---------- ASCII text ----------

  predicate IsAscii(s: string) {
    forall i | 0 <= i < |s| :: s[i] as int < 0x80
  }

  /** ASCII text is in every normalisation form (Unicode Standard Annex 15). */
  ghost predicate AsciiIsNormal(nfc: string -> bool) {
    forall s | IsAscii(s) :: nfc(s)
  }

  // ---------- What the parser returns ----------

  /** Every object the parser builds has unique keys. */
  lemma {:induction false} ParsedKeysUnique(s: string)
    ensures ParseValue(s).Parsed? ==> UniqueKeys(ParseValue(s).value)
    decreases |s|, 1
  {
    if s != [] && s[0] == '{' {
      var inner := SkipSpace(s[1..]);
      if inner == [] || inner[0] != '}' {
        ParsedMembersUnique(inner);
      }
    } else if s != [] && s[0] == '[' {
      var inner := SkipSpace(s[1..]);
      if inner == [] || inner[0] != ']' {
        ParsedItemsUnique(inner);
      }
    } else {
      ParsedScalar(s);
    }
  }

  lemma ParsedScalar(s: string)
    requires s == [] || (s[0] != '{' && s[0] != '[')
    ensures ParseValue(s).Parsed? ==> UniqueKeys(ParseValue(s).value)
  {
  }

  lemma {:induction false} ParsedItemsUnique(s: string)
    ensures ParseItems(s).Parsed? ==> forall i | 0 <= i < |ParseItems(s).value| :: UniqueKeys(ParseItems(s).value[i])
    decreases |s|, 2
  {
    ParsedKeysUnique(s);
    if ParseValue(s).Parsed? {
      var after := SkipSpace(ParseValue(s).rest);
      if after != [] && after[0] == ',' {
        ParsedItemsUnique(SkipSpace(after[1..]));
      }
    }
  }

  lemma {:induction false} ParsedMembersUnique(s: string)
    ensures ParseMembers(s).Parsed? ==>
              forall i | 0 <= i < |ParseMembers(s).value| :: UniqueKeys(ParseMembers(s).value[i].value)
    decreases |s|, 0
  {
    if s != [] && s[0] == '"' && ScanText(s[1..]).Parsed? {
      var colon := SkipSpace(ScanText(s[1..]).rest);
      if colon != [] && colon[0] == ':' {
        var from := SkipSpace(colon[1..]);
        ParsedKeysUnique(from);
        if ParseValue(from).Parsed? {
          var after := SkipSpace(ParseValue(from).rest);
          if after != [] && after[0] == ',' {
            ParsedMembersUnique(SkipSpace(after[1..]));
          }
        }
      }
    }
  }

  // ---------- Main results ----------

  lemma LoadsOfPrinted(v: Json)
    requires NoFloats(v) && UniqueKeys(v)
    ensures Loads(PrintValue(v)) == Some(v)
  {
    PrintedStart(v);
    ParsePrintedValue(v, []);
    assert PrintValue(v) + [] == PrintValue(v);
  }

  lemma NoByteOrderMark(v: Json)
    requires NoFloats(v)
    ensures !(BYTE_ORDER_MARK <= Encode(PrintValue(v)))
  {
    PrintedAscii(v);
    var s := PrintValue(v);
    assert Encode(s)[0] == s[0] as int;
  }

  lemma PrintedAscii(v: Json)
    requires NoFloats(v)
    ensures PrintValue(v) != [] && PrintValue(v)[0] as int < 0x80
  {
    match v
    case Int(n) => PrintedIntStart(n);
    case _ =>
  }

  /** Parsing what was printed gives the value back, with its keys sorted. */
  lemma ParseOfPrinted(v: Json, nfc: string -> bool)
    requires UniqueKeys(v) && CanonicalBytes(v, nfc).Ok? && |CanonicalBytes(v, nfc).value| <= MAX_JSON_BYTES
    ensures ParseCanonical(CanonicalBytes(v, nfc).value, nfc) == Ok(SortKeys(v))
  {
    var w := SortKeys(v);
    SortKeysKeepsProfile(v, 0, nfc);
    SortKeysKeepsUniqueKeys(v);
    SortKeysIdempotent(v);
    LoadsOfPrinted(w);
    DecodeEncode(PrintValue(w));
    NoByteOrderMark(w);
  }

  /** Two values print the same bytes exactly when they differ in key order at most. */
  lemma SameBytesSameValue(v: Json, w: Json, nfc: string -> bool)
    requires UniqueKeys(v) && UniqueKeys(w) && CanonicalBytes(v, nfc).Ok? && CanonicalBytes(w, nfc).Ok?
    ensures CanonicalBytes(v, nfc) == CanonicalBytes(w, nfc) <==> SortKeys(v) == SortKeys(w)
  {
    if CanonicalBytes(v, nfc) == CanonicalBytes(w, nfc) {
      SortKeysKeepsProfile(v, 0, nfc);
      SortKeysKeepsProfile(w, 0, nfc);
      SortKeysKeepsUniqueKeys(v);
      SortKeysKeepsUniqueKeys(w);
      EncodeInjective(PrintValue(SortKeys(v)), PrintValue(SortKeys(w)));
      LoadsOfPrinted(SortKeys(v));
      LoadsOfPrinted(SortKeys(w));
    }
  }

  /** What an accepted byte string says: it is the printing of the value returned. */
  lemma AcceptedIsPrinted(raw: seq<Byte>, nfc: string -> bool)
    requires ParseCanonical(raw, nfc).Ok?
    ensures var v := ParseCanonical(raw, nfc).value;
            UniqueKeys(v) && SortKeys(v) == v && CanonicalBytes(v, nfc) == Ok(raw)
  {
    var text := Decode(raw).value;
    ParsedKeysUnique(SkipSpace(text));
    ParseOfPrinted(ParseCanonical(raw, nfc).value, nfc);
  }

  /** The parser accepts exactly the printings of values of the profile, up to the size limit. */
  lemma AcceptedExactlyWhenPrinted(raw: seq<Byte>, nfc: string -> bool)
    ensures ParseCanonical(raw, nfc).Ok? <==>
            |raw| <= MAX_JSON_BYTES && exists v :: UniqueKeys(v) && CanonicalBytes(v, nfc) == Ok(raw)
  {
    if ParseCanonical(raw, nfc).Ok? {
      AcceptedIsPrinted(raw, nfc);
    }
    if |raw| <= MAX_JSON_BYTES {
      forall v | UniqueKeys(v) && CanonicalBytes(v, nfc) == Ok(raw)
        ensures ParseCanonical(raw, nfc).Ok?
      {
        ParseOfPrinted(v, nfc);
      }
    }
  }
}
