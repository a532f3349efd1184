/** JSON objects with an exact set of fields, lists of them, and what it means that a reader undoes a writer. */
module Records {
  import opened Wrappers
  import opened Text
  import opened Sorting
  import opened Paths
  import opened Json
  import opened JsonTheorems

  /** The values differ in the order of keys at most. */
  predicate Same(v: Json, w: Json) { SortKeys(v) == SortKeys(w) }

  function FieldOf(members: seq<Member>): string -> Json {
    (key: string) => match Lookup(members, key) case Some(v) => v case None => Null
  }

  /** `_require_fields`, and then the fields by name. */
  function ReadRecord(names: seq<string>, v: Json): Option<seq<Json>> {
    if v.Obj? && KeySet(v.members) == (set name | name in names) then Some(Map(FieldOf(v.members), names)) else None
  }

  function Pairs(names: seq<string>, values: seq<Json>): (r: seq<Member>)
    requires |names| == |values|
    ensures |r| == |names| && forall i | 0 <= i < |r| :: r[i] == Member(names[i], values[i])
  {
    seq(|names|, i requires 0 <= i < |names| => Member(names[i], values[i]))
  }

  function RecordJson(names: seq<string>, values: seq<Json>): Json
    requires |names| == |values|
  {
    Obj(Pairs(names, values))
  }

  // ---------- Lookup ----------

  lemma {:induction false} LookupAt(members: seq<Member>, i: nat)
    requires i < |members| && Distinct(Map(KeyOf, members))
    ensures Lookup(members, members[i].key) == Some(members[i].value)
  {
    var keys := Map(KeyOf, members);
    if i > 0 {
      assert keys[0] != keys[i];
      assert Map(KeyOf, members[1..]) == keys[1..];
      assert Distinct(keys[1..]) by {
        forall j, k | 0 <= j < k < |keys[1..]|
          ensures keys[1..][j] != keys[1..][k]
        {
          assert keys[j + 1] != keys[k + 1];
        }
      }
      LookupAt(members[1..], i - 1);
    }
  }

  lemma {:induction false} LookupMeans(members: seq<Member>, key: string)
    ensures Lookup(members, key).Some? <==> key in KeySet(members)
    ensures Lookup(members, key).Some? ==> Member(key, Lookup(members, key).value) in members
  {
    if members != [] {
      LookupMeans(members[1..], key);
      assert members == [members[0]] + members[1..];
      assert key in KeySet(members) <==> key == members[0].key || key in KeySet(members[1..]);
    }
  }

  lemma IndexOf(members: seq<Member>, m: Member) returns (i: nat)
    requires m in members
    ensures i < |members| && members[i] == m
  {
    i :| 0 <= i < |members| && members[i] == m;
  }

  lemma DistinctMembers(members: seq<Member>)
    requires Distinct(Map(KeyOf, members))
    ensures Distinct(members)
  {
    forall i, j | 0 <= i < j < |members|
      ensures members[i] != members[j]
    {
      assert Map(KeyOf, members)[i] != Map(KeyOf, members)[j];
    }
  }

  // ---------- Sorting the members ----------

  lemma KeySetOfSorted(members: seq<Member>)
    ensures KeySet(Sort(SortValues(members), MemberLe)) == KeySet(members)
  {
    var sorted := Sort(SortValues(members), MemberLe);
    forall key
      ensures key in KeySet(sorted) <==> key in KeySet(members)
    {
      if m :| m in sorted && m.key == key {
        var i := IndexOf(sorted, m);
        var k := SortedMemberOrigin(members, i);
        assert members[k] in members;
      }
      if m :| m in members && m.key == key {
        var i := IndexOf(members, m);
        var k := SortedMemberPlace(members, i);
        assert sorted[k] in sorted;
      }
    }
  }

  /** A field of a key-sorted object is the key-sorted field. */
  lemma SortedField(members: seq<Member>, key: string)
    requires Distinct(Map(KeyOf, members))
    ensures FieldOf(Sort(SortValues(members), MemberLe))(key) == SortKeys(FieldOf(members)(key))
  {
    var sorted := Sort(SortValues(members), MemberLe);
    SortedMembers(members);
    KeySetOfSorted(members);
    LookupMeans(members, key);
    LookupMeans(sorted, key);
    if key in KeySet(members) {
      var i := IndexOf(members, Member(key, Lookup(members, key).value));
      SortedLookup(members, i);
    }
  }

  lemma SortedLookup(members: seq<Member>, i: nat)
    requires Distinct(Map(KeyOf, members)) && i < |members|
    ensures Lookup(Sort(SortValues(members), MemberLe), members[i].key) == Some(SortKeys(members[i].value))
  {
    SortedMembers(members);
    var k := SortedMemberPlace(members, i);
    LookupAt(Sort(SortValues(members), MemberLe), k);
  }

  lemma SortedRecord(names: seq<string>, v: Json)
    requires UniqueKeys(v)
    ensures ReadRecord(names, SortKeys(v)).Some? <==> ReadRecord(names, v).Some?
    ensures ReadRecord(names, v).Some? ==>
              ReadRecord(names, SortKeys(v)) == Some(Map(SortKeys, ReadRecord(names, v).value))
  {
    if v.Obj? {
      KeySetOfSorted(v.members);
      var sorted := SortKeys(v).members;
      forall i | 0 <= i < |names|
        ensures FieldOf(sorted)(names[i]) == SortKeys(FieldOf(v.members)(names[i]))
      {
        SortedField(v.members, names[i]);
      }
      assert Map(FieldOf(sorted), names) == Map(SortKeys, Map(FieldOf(v.members), names));
    }
  }

  /** Members in key order are determined by their elements. */
  lemma SortedMembersUnique(a: seq<Member>, b: seq<Member>)
    requires IsSorted(a, MemberLe) && IsSorted(b, MemberLe) && multiset(a) == multiset(b)
    requires Distinct(Map(KeyOf, a))
    ensures a == b
  {
    var s, t := Map(KeyOf, a), Map(KeyOf, b);
    MapPermutes(KeyOf, a, b);
    TextLeIsTotalOrder();
    forall i, j | 0 <= i < j < |s|
      ensures TextLe(s[i], s[j])
    {
      assert MemberLe(a[i], a[j]);
    }
    forall i, j | 0 <= i < j < |t|
      ensures TextLe(t[i], t[j])
    {
      assert MemberLe(b[i], b[j]);
    }
    SortedUnique(s, t, TextLe);
    assert |a| == |s| == |t| == |b|;
    forall i | 0 <= i < |a|
      ensures a[i] == b[i]
    {
      assert a[i] in multiset(b);
      var k := IndexOf(b, a[i]);
      assert s[i] == t[k] == s[k];
    }
  }

  function SortMember(m: Member): Member { Member(m.key, SortKeys(m.value)) }

  /** Objects with the same members are the same up to key order. */
  lemma SamePermuted(a: seq<Member>, b: seq<Member>)
    requires multiset(a) == multiset(b) && Distinct(Map(KeyOf, a))
    ensures Same(Obj(a), Obj(b))
  {
    var s, t := SortValues(a), SortValues(b);
    assert s == Map(SortMember, a) && t == Map(SortMember, b);
    MapPermutes(SortMember, a, b);
    SortedMembers(a);
    SortedMembers(b);
    SortPermutes(s, MemberLe);
    SortPermutes(t, MemberLe);
    SortedMembersUnique(Sort(s, MemberLe), Sort(t, MemberLe));
  }

  // ---------- Records ----------

  lemma RecordReadsBack(names: seq<string>, values: seq<Json>)
    requires |names| == |values| && Distinct(names)
    ensures ReadRecord(names, RecordJson(names, values)) == Some(values)
    ensures (forall i | 0 <= i < |values| :: UniqueKeys(values[i])) ==> UniqueKeys(RecordJson(names, values))
  {
    var members := Pairs(names, values);
    assert Map(KeyOf, members) == names;
    PairKeys(names, values);
    forall i | 0 <= i < |names|
      ensures FieldOf(members)(names[i]) == values[i]
    {
      LookupAt(members, i);
    }
    assert Map(FieldOf(members), names) == values;
  }

  lemma PairKeys(names: seq<string>, values: seq<Json>)
    requires |names| == |values|
    ensures KeySet(Pairs(names, values)) == (set name | name in names)
  {
    var members := Pairs(names, values);
    forall key
      ensures key in KeySet(members) <==> key in names
    {
      if key in names {
        var i :| 0 <= i < |names| && names[i] == key;
        assert members[i] in members;
      }
    }
  }

  /** An object that was read as a record is the writing of its fields, up to key order. */
  lemma RecordIs(names: seq<string>, v: Json, values: seq<Json>)
    requires UniqueKeys(v) && Distinct(names) && ReadRecord(names, v) == Some(values)
    ensures |values| == |names| && Same(v, RecordJson(names, values))
    ensures forall i | 0 <= i < |values| :: UniqueKeys(values[i])
  {
    var a, b := v.members, Pairs(names, values);
    assert Map(KeyOf, b) == names;
    DistinctMembers(a);
    DistinctMembers(b);
    forall m
      ensures m in a <==> m in b
    {
      SameMember(names, a, b, values, m);
    }
    DistinctSameElements(a, b);
    SamePermuted(a, b);
    forall i | 0 <= i < |values|
      ensures UniqueKeys(values[i])
    {
      LookupMeans(a, names[i]);
      assert names[i] in KeySet(a);
      var k := IndexOf(a, Member(names[i], values[i]));
    }
  }

  lemma SameMember(names: seq<string>, a: seq<Member>, b: seq<Member>, values: seq<Json>, m: Member)
    requires Distinct(Map(KeyOf, a)) && KeySet(a) == (set name | name in names) && values == Map(FieldOf(a), names)
    requires b == Pairs(names, values)
    ensures m in a <==> m in b
  {
    if m in a {
      var i := IndexOf(a, m);
      LookupAt(a, i);
      assert m.key in KeySet(a);
      var j :| 0 <= j < |names| && names[j] == m.key;
      assert b[j] == m;
    }
    if m in b {
      var j := IndexOf(b, m);
      LookupMeans(a, names[j]);
      assert names[j] in names && names[j] in KeySet(a);
    }
  }

  lemma RecordUpToOrder(names: seq<string>, a: seq<Json>, b: seq<Json>)
    requires |names| == |a| == |b| && Map(SortKeys, a) == Map(SortKeys, b)
    ensures Same(RecordJson(names, a), RecordJson(names, b))
  {
    forall i | 0 <= i < |names|
      ensures SortKeys(a[i]) == SortKeys(b[i])
    {
      assert Map(SortKeys, a)[i] == Map(SortKeys, b)[i];
    }
    assert SortValues(Pairs(names, a)) == SortValues(Pairs(names, b));
  }

  // ---------- Readers and writers ----------

  /** The writing of `x` is read back. */
  ghost predicate ReadsBack<X>(write: X -> Json, read: Json -> Option<X>, x: X) {
    UniqueKeys(write(x)) && read(write(x)) == Some(x)
  }

  /** What is read from `v` does not depend on the order of keys, and `v` is its writing up to that order. */
  ghost predicate FaithfulAt<X>(write: X -> Json, read: Json -> Option<X>, v: Json) {
    UniqueKeys(v) ==> read(SortKeys(v)) == read(v) && (read(v).Some? ==> Same(v, write(read(v).value)))
  }

  /** The reader accepts exactly the writings, up to key order, and gives back what was written. */
  ghost predicate Faithful<X(!new)>(write: X -> Json, read: Json -> Option<X>) {
    (forall x :: ReadsBack(write, read, x)) && forall v :: FaithfulAt(write, read, v)
  }

  predicate IsScalar(v: Json) {
    v.Null? || v.Bool? || v.Int? || v.Str?
  }

  predicate AllScalars(values: seq<Json>) {
    forall i | 0 <= i < |values| :: IsScalar(values[i])
  }

  ghost predicate PutAt<X>(names: seq<string>, put: X -> seq<Json>, get: seq<Json> -> Option<X>, x: X) {
    |put(x)| == |names| && AllScalars(put(x)) && get(put(x)) == Some(x)
  }

  ghost predicate GetAt<X>(put: X -> seq<Json>, get: seq<Json> -> Option<X>, values: seq<Json>) {
    get(values).Some? ==> values == put(get(values).value)
  }

  /** `put` and `get` undo each other on lists of scalars. */
  ghost predicate ScalarFields<X(!new)>(names: seq<string>, put: X -> seq<Json>, get: seq<Json> -> Option<X>) {
    && Distinct(names)
    && (forall x :: PutAt(names, put, get, x))
    && forall values :: GetAt(put, get, values)
  }

  function RecordWriter<X>(names: seq<string>, put: X -> seq<Json>): X -> Json {
    x => if |put(x)| == |names| then RecordJson(names, put(x)) else Null
  }

  function RecordReader<X>(names: seq<string>, get: seq<Json> -> Option<X>): Json -> Option<X> {
    (v: Json) => match ReadRecord(names, v) case None => None case Some(values) => get(values)
  }

  lemma SortedScalars(values: seq<Json>)
    ensures AllScalars(values) ==> Map(SortKeys, values) == values
    ensures AllScalars(Map(SortKeys, values)) ==> AllScalars(values)
  {
    if AllScalars(values) {
      forall i | 0 <= i < |values|
        ensures SortKeys(values[i]) == values[i]
      {
      }
    }
    if AllScalars(Map(SortKeys, values)) {
      forall i | 0 <= i < |values|
        ensures IsScalar(values[i])
      {
        assert Map(SortKeys, values)[i] == SortKeys(values[i]);
      }
    }
  }

  /** Reading scalars does not depend on key order inside them. */
  lemma GetSorted<X(!new)>(names: seq<string>, put: X -> seq<Json>, get: seq<Json> -> Option<X>, values: seq<Json>)
    requires ScalarFields(names, put, get)
    ensures get(Map(SortKeys, values)) == get(values)
  {
    var sorted := Map(SortKeys, values);
    SortedScalars(values);
    assert GetAt(put, get, values) && GetAt(put, get, sorted);
    if get(values).Some? {
      assert PutAt(names, put, get, get(values).value);
    }
    if get(sorted).Some? {
      assert PutAt(names, put, get, get(sorted).value);
    }
  }

  lemma RecordFaithful<X(!new)>(names: seq<string>, put: X -> seq<Json>, get: seq<Json> -> Option<X>)
    requires ScalarFields(names, put, get)
    ensures Faithful(RecordWriter(names, put), RecordReader(names, get))
  {
    var write, read := RecordWriter(names, put), RecordReader(names, get);
    forall x
      ensures ReadsBack(write, read, x)
    {
      assert PutAt(names, put, get, x);
      RecordReadsBack(names, put(x));
    }
    forall v
      ensures FaithfulAt(write, read, v)
    {
      if UniqueKeys(v) {
        SortedRecord(names, v);
        if ReadRecord(names, v).Some? {
          var values := ReadRecord(names, v).value;
          GetSorted(names, put, get, values);
          RecordIs(names, v, values);
          assert GetAt(put, get, values);
        }
      }
    }
  }

  // ---------- Lists ----------

  function ReadEach<X>(items: seq<Json>, read: Json -> Option<X>): Option<seq<X>> {
    if items == [] then Some([])
    else
      match ReadEach(items[..|items| - 1], read)
      case None => None
      case Some(front) =>
        match read(items[|items| - 1])
        case None => None
        case Some(last) => Some(front + [last])
  }

  function ListReader<X>(read: Json -> Option<X>): Json -> Option<seq<X>> {
    (v: Json) => if v.Arr? then ReadEach(v.items, read) else None
  }

  function ListWriter<X>(write: X -> Json): seq<X> -> Json {
    xs => Arr(Map(write, xs))
  }

  lemma {:induction false} ReadEachMeans<X>(items: seq<Json>, read: Json -> Option<X>)
    ensures ReadEach(items, read).Some? <==> forall i | 0 <= i < |items| :: read(items[i]).Some?
    ensures ReadEach(items, read).Some? ==>
              && |ReadEach(items, read).value| == |items|
              && forall i | 0 <= i < |items| :: read(items[i]) == Some(ReadEach(items, read).value[i])
  {
    if items != [] {
      var n := |items| - 1;
      ReadEachMeans(items[..n], read);
      assert forall i | 0 <= i < n :: items[..n][i] == items[i];
    }
  }

  /** Item by item the same readings give the same list. */
  lemma {:induction false} ReadEachSame<X>(a: seq<Json>, b: seq<Json>, read: Json -> Option<X>)
    requires |a| == |b| && forall i | 0 <= i < |a| :: read(a[i]) == read(b[i])
    ensures ReadEach(a, read) == ReadEach(b, read)
  {
    if a != [] {
      var n := |a| - 1;
      ReadEachSame(a[..n], b[..n], read);
    }
  }

  lemma {:induction false} ReadEachWritten<X>(xs: seq<X>, write: X -> Json, read: Json -> Option<X>)
    requires forall i | 0 <= i < |xs| :: read(write(xs[i])) == Some(xs[i])
    ensures ReadEach(Map(write, xs), read) == Some(xs)
  {
    if xs != [] {
      var n := |xs| - 1;
      ReadEachWritten(xs[..n], write, read);
      assert Map(write, xs)[..n] == Map(write, xs[..n]) && xs == xs[..n] + [xs[n]];
    }
  }

  lemma ListFaithful<X(!new)>(write: X -> Json, read: Json -> Option<X>)
    requires Faithful(write, read)
    ensures Faithful(ListWriter(write), ListReader(read))
  {
    forall xs
      ensures ReadsBack(ListWriter(write), ListReader(read), xs)
    {
      forall i | 0 <= i < |xs|
        ensures UniqueKeys(write(xs[i])) && read(write(xs[i])) == Some(xs[i])
      {
        assert ReadsBack(write, read, xs[i]);
      }
      ReadEachWritten(xs, write, read);
    }
    forall v
      ensures FaithfulAt(ListWriter(write), ListReader(read), v)
    {
      if UniqueKeys(v) && v.Arr? {
        ListIs(write, read, v.items);
      }
    }
  }

  lemma ListIs<X(!new)>(write: X -> Json, read: Json -> Option<X>, items: seq<Json>)
    requires Faithful(write, read) && UniqueKeys(Arr(items))
    ensures ReadEach(SortKeys(Arr(items)).items, read) == ReadEach(items, read)
    ensures ReadEach(items, read).Some? ==> Same(Arr(items), Arr(Map(write, ReadEach(items, read).value)))
  {
    var sorted := SortKeys(Arr(items)).items;
    forall i | 0 <= i < |items|
      ensures sorted[i] == SortKeys(items[i]) && read(sorted[i]) == read(items[i])
      ensures read(items[i]).Some? ==> Same(items[i], write(read(items[i]).value))
    {
      assert FaithfulAt(write, read, items[i]);
    }
    ReadEachSame(sorted, items, read);
    ReadEachMeans(items, read);
    if ReadEach(items, read).Some? {
      var xs := ReadEach(items, read).value;
      assert SortKeys(Arr(Map(write, xs))).items == sorted;
    }
  }
}
