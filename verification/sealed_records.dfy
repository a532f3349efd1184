/** A JSON record sealed with something computed from it and with the hash of its canonical bytes. */
module SealedRecords {
  import opened Wrappers
  import opened Sorting
  import opened Utf8
  import opened Json
  import opened JsonTheorems
  import opened Records

  const EVALUATION := "evaluation"
  const HASH := "result_hash"

  predicate IsHexChar(c: char) { '0' <= c <= '9' || 'a' <= c <= 'f' }

  predicate IsHexDigest(s: string) {
    |s| == 64 && forall i | 0 <= i < 64 :: IsHexChar(s[i])
  }

  /** The fields of the base, the texts that may be written, the hash, and how the evaluation of a base is computed,
      written, and read where it is stored. */
  datatype Sealer<!E> = Sealer(
    names: seq<string>, text: string -> bool, sha: seq<Byte> -> string,
    evaluate: Json -> Result<E>, write: E -> Json, stored: Json -> Result<E>)
  {
    function Hashed(): seq<string> { names + [EVALUATION] }

    function All(): seq<string> { names + [EVALUATION] + [HASH] }

    /** The evaluation does not depend on the order of keys. */
    ghost predicate EvaluatesSame(v: Json, w: Json) {
      UniqueKeys(v) && UniqueKeys(w) && Same(v, w) ==> evaluate(v) == evaluate(w)
    }

    /** The computed evaluation is what is stored exactly when its writing is. */
    ghost predicate StoresWriting(base: Json, v: Json) {
      evaluate(base).Ok? ==>
        && UniqueKeys(write(evaluate(base).value))
        && (UniqueKeys(v) ==> (stored(v) == evaluate(base) <==> Same(v, write(evaluate(base).value))))
    }

    ghost predicate Digests(raw: seq<Byte>) {
      IsHexDigest(sha(raw)) && text(sha(raw))
    }

    /** The keys are different, and hashes can be written. */
    ghost predicate Hashes() {
      Distinct(All()) && IsClosedKey(HASH) && text(HASH) && forall raw :: Digests(raw)
    }

    ghost predicate Valid() {
      && Hashes()
      && (forall v, w :: EvaluatesSame(v, w))
      && (forall base, v :: StoresWriting(base, v))
    }
  }

  function With(v: Json, key: string, value: Json): Json
    requires v.Obj?
  {
    Obj(v.members + [Member(key, value)])
  }

  predicate HasKeys(v: Json, names: seq<string>) {
    v.Obj? && KeySet(v.members) == set name | name in names
  }

  /** `{key: v[key] for key in names}`. */
  function Restricted(v: Json, names: seq<string>): Json
    requires v.Obj?
  {
    RecordJson(names, Map(FieldOf(v.members), names))
  }

  /** `seal_result`. */
  function Seal<E>(s: Sealer<E>, base: Json): Result<Json> {
    if !HasKeys(base, s.names) then Fail
    else
      match s.evaluate(base)
      case Fail => Fail
      case Ok(e) =>
        match CanonicalBytes(With(base, EVALUATION, s.write(e)), s.text)
        case Fail => Fail
        case Ok(raw) => Ok(With(With(base, EVALUATION, s.write(e)), HASH, Str(s.sha(raw))))
  }

  /** The tests on a stored hash. */
  predicate HashOk<E>(s: Sealer<E>, v: Json)
    requires v.Obj?
  {
    match (FieldOf(v.members)(HASH), CanonicalBytes(Restricted(v, s.Hashed()), s.text))
    case (Str(digest), Ok(raw)) => IsHexDigest(digest) && digest == s.sha(raw)
    case _ => false
  }

  /** `canonical_result_bytes`, for a base, for one with an evaluation, and for a sealed result. */
  function AcceptedBytes<E(==)>(s: Sealer<E>, v: Json): Result<seq<Byte>> {
    if !HasKeys(v, s.names) && !HasKeys(v, s.Hashed()) && !HasKeys(v, s.All()) then Fail
    else
      match s.evaluate(Restricted(v, s.names))
      case Fail => Fail
      case Ok(e) =>
        if EVALUATION in KeySet(v.members) && s.stored(FieldOf(v.members)(EVALUATION)) != Ok(e) then Fail
        else if HASH in KeySet(v.members) && !HashOk(s, v) then Fail
        else CanonicalBytes(v, s.text)
  }

  // ---------- Objects with one more field ----------

  lemma MapLonger<T, U>(f: T -> U, s: seq<T>, x: T)
    ensures Map(f, s + [x]) == Map(f, s) + [f(x)]
  {
  }

  lemma {:induction false} LookupAppended(members: seq<Member>, m: Member, key: string)
    ensures Lookup(members + [m], key) ==
            if Lookup(members, key).Some? then Lookup(members, key) else if m.key == key then Some(m.value) else None
  {
    if members != [] {
      assert (members + [m])[1..] == members[1..] + [m];
      LookupAppended(members[1..], m, key);
    }
  }

  /** One more field, under a new key. */
  lemma WithRecord(names: seq<string>, v: Json, vs: seq<Json>, key: string, value: Json)
    requires UniqueKeys(v) && UniqueKeys(value) && ReadRecord(names, v) == Some(vs) && key !in names
    ensures UniqueKeys(With(v, key, value)) && ReadRecord(names + [key], With(v, key, value)) == Some(vs + [value])
  {
    var more := v.members + [Member(key, value)];
    MapLonger(KeyOf, v.members, Member(key, value));
    forall m | m in v.members
      ensures m.key != key
    {
      assert m.key in KeySet(v.members);
    }
    forall name
      ensures name in KeySet(more) <==> name in names + [key]
    {
      assert name in KeySet(v.members) <==> name in names;
      assert Member(key, value) in more;
      assert forall m | m in v.members :: m in more;
    }
    forall i | 0 <= i < |names + [key]|
      ensures FieldOf(more)((names + [key])[i]) == (vs + [value])[i]
    {
      var name := (names + [key])[i];
      LookupAppended(v.members, Member(key, value), name);
      LookupMeans(v.members, name);
      assert i < |names| ==> name in KeySet(v.members);
    }
    assert Map(FieldOf(more), names + [key]) == vs + [value];
  }

  /** The fields of the same object are the same. */
  lemma SameFields(names: seq<string>, v: Json, w: Json, vs: seq<Json>, ws: seq<Json>)
    requires UniqueKeys(v) && UniqueKeys(w) && ReadRecord(names, v) == Some(vs) && ReadRecord(names, w) == Some(ws)
    requires Distinct(names)
    ensures Same(v, w) <==> Map(SortKeys, vs) == Map(SortKeys, ws)
  {
    SortedRecord(names, v);
    SortedRecord(names, w);
    if Map(SortKeys, vs) == Map(SortKeys, ws) {
      RecordIs(names, v, vs);
      RecordIs(names, w, ws);
      RecordUpToOrder(names, vs, ws);
    }
  }

  // ---------- The meaning of acceptance ----------

  lemma NamesApart<E>(s: Sealer<E>)
    requires Distinct(s.All())
    ensures Distinct(s.names) && Distinct(s.Hashed()) && EVALUATION !in s.names && HASH !in s.Hashed()
    ensures EVALUATION != HASH
  {
    var n, all := |s.names|, s.All();
    assert all[..n] == s.names && all[..n + 1] == s.Hashed() && all[n] == EVALUATION && all[n + 1] == HASH;
  }

  lemma FieldsOf<E>(s: Sealer<E>, v: Json, vs: seq<Json>)
    requires ReadRecord(s.All(), v) == Some(vs)
    ensures v.Obj? && |vs| == |s.names| + 2
    ensures Restricted(v, s.names) == RecordJson(s.names, vs[..|s.names|])
    ensures Restricted(v, s.Hashed()) == RecordJson(s.Hashed(), vs[..|s.names| + 1])
    ensures FieldOf(v.members)(EVALUATION) == vs[|s.names|] && FieldOf(v.members)(HASH) == vs[|s.names| + 1]
    ensures EVALUATION in KeySet(v.members) && HASH in KeySet(v.members)
  {
    var n, f, all := |s.names|, FieldOf(v.members), s.All();
    assert vs == Map(f, all);
    assert Map(f, s.names) == vs[..n] && Map(f, s.Hashed()) == vs[..n + 1];
    assert all[n] == EVALUATION && all[n + 1] == HASH;
    assert EVALUATION in all && HASH in all;
  }

  /** What must hold of the values of a sealed record. */
  ghost predicate Bound<E(!new)>(s: Sealer<E>, vs: seq<Json>)
    requires |vs| == |s.names| + 2
  {
    var n := |s.names|;
    var computed := s.evaluate(RecordJson(s.names, vs[..n]));
    var hashed := CanonicalBytes(RecordJson(s.Hashed(), vs[..n + 1]), s.text);
    computed.Ok? && Same(vs[n], s.write(computed.value)) && hashed.Ok? && vs[n + 1] == Str(s.sha(hashed.value))
  }

  /** A record with all fields is accepted exactly when its evaluation is the computed one and its hash is that of the
      canonical bytes of everything else. */
  lemma AcceptedMeans<E(!new)>(s: Sealer<E>, v: Json, vs: seq<Json>)
    requires s.Hashes() && UniqueKeys(v) && ReadRecord(s.All(), v) == Some(vs) && |vs| == |s.names| + 2
    requires s.StoresWriting(RecordJson(s.names, vs[..|s.names|]), vs[|s.names|])
    ensures AcceptedBytes(s, v).Ok? <==> Bound(s, vs)
    ensures AcceptedBytes(s, v).Ok? ==> AcceptedBytes(s, v) == CanonicalBytes(v, s.text)
  {
    FieldsOf(s, v, vs);
    RecordIs(s.All(), v, vs);
    HashMeans(s, v, vs);
  }

  /** The hash is right, and then everything can be written. */
  lemma HashMeans<E(!new)>(s: Sealer<E>, v: Json, vs: seq<Json>)
    requires s.Hashes() && UniqueKeys(v) && ReadRecord(s.All(), v) == Some(vs)
    ensures v.Obj? && |vs| == |s.names| + 2
    ensures var hashed := CanonicalBytes(RecordJson(s.Hashed(), vs[..|s.names| + 1]), s.text);
            HashOk(s, v) <==> hashed.Ok? && vs[|s.names| + 1] == Str(s.sha(hashed.value))
    ensures HashOk(s, v) ==> CanonicalBytes(v, s.text).Ok?
  {
    FieldsOf(s, v, vs);
    var hashed := CanonicalBytes(RecordJson(s.Hashed(), vs[..|s.names| + 1]), s.text);
    if hashed.Ok? {
      assert s.Digests(hashed.value);
    }
    if HashOk(s, v) {
      HashedIsCanonical(s.Hashed(), v, vs, s.text);
    }
  }

  lemma HashedIsCanonical(names: seq<string>, v: Json, vs: seq<Json>, text: string -> bool)
    requires UniqueKeys(v) && Distinct(names + [HASH]) && ReadRecord(names + [HASH], v) == Some(vs)
    requires IsClosedKey(HASH) && text(HASH)
    requires |vs| == |names| + 1 && vs[|names|].Str? && text(vs[|names|].s)
    requires CanonicalBytes(RecordJson(names, vs[..|names|]), text).Ok?
    ensures CanonicalBytes(v, text).Ok?
  {
    var n := |names|;
    RecordIs(names + [HASH], v, vs);
    var all, front := Pairs(names + [HASH], vs), Pairs(names, vs[..n]);
    forall i | 0 <= i < |all|
      ensures text(all[i].key) && IsClosedKey(all[i].key) && Canonical(all[i].value, 1, text)
    {
      assert i < n ==> all[i] == front[i];
    }
    SameBytes(v, Obj(all), text);
  }

  // ---------- Sealing ----------

  /** What sealing adds to a base. */
  lemma SealIs<E(!new)>(s: Sealer<E>, base: Json, vs: seq<Json>)
    requires Distinct(s.All()) && s.StoresWriting(base, base)
    requires UniqueKeys(base) && ReadRecord(s.names, base) == Some(vs)
    ensures |s.names| == |vs|
    ensures Seal(s, base).Ok? <==>
            && s.evaluate(base).Ok?
            && CanonicalBytes(RecordJson(s.Hashed(), vs + [s.write(s.evaluate(base).value)]), s.text).Ok?
    ensures Seal(s, base).Ok? ==>
              var e := s.write(s.evaluate(base).value);
              var hash := Str(s.sha(CanonicalBytes(RecordJson(s.Hashed(), vs + [e]), s.text).value));
              UniqueKeys(Seal(s, base).value) && ReadRecord(s.All(), Seal(s, base).value) == Some(vs + [e] + [hash])
  {
    NamesApart(s);
    RecordIs(s.names, base, vs);
    if s.evaluate(base).Ok? {
      var e := s.write(s.evaluate(base).value);
      WithRecord(s.names, base, vs, EVALUATION, e);
      var hashed := With(base, EVALUATION, e);
      RecordIs(s.Hashed(), hashed, vs + [e]);
      SameBytes(hashed, RecordJson(s.Hashed(), vs + [e]), s.text);
      if CanonicalBytes(hashed, s.text).Ok? {
        WithRecord(s.Hashed(), hashed, vs + [e], HASH, Str(s.sha(CanonicalBytes(hashed, s.text).value)));
      }
    }
  }

  /** The values of a record are bound exactly when the record is the sealing of its base. */
  lemma BoundMeansSealed<E(!new)>(s: Sealer<E>, v: Json, vs: seq<Json>)
    requires Distinct(s.All()) && UniqueKeys(v) && ReadRecord(s.All(), v) == Some(vs) && |vs| == |s.names| + 2
    requires var base := RecordJson(s.names, vs[..|s.names|]); s.StoresWriting(base, base)
    ensures var base := RecordJson(s.names, vs[..|s.names|]);
            Bound(s, vs) <==> Seal(s, base).Ok? && Same(v, Seal(s, base).value)
  {
    NamesApart(s);
    RecordIs(s.All(), v, vs);
    var n := |s.names|;
    var base := RecordJson(s.names, vs[..n]);
    RecordReadsBack(s.names, vs[..n]);
    SealIs(s, base, vs[..n]);
    if s.evaluate(base).Ok? {
      var e := s.write(s.evaluate(base).value);
      if Same(vs[n], e) {
        SameHashed(s, vs, e);
      }
      if Seal(s, base).Ok? {
        var hash := Str(s.sha(CanonicalBytes(RecordJson(s.Hashed(), vs[..n] + [e]), s.text).value));
        SameAsItsSealing(s, v, vs, Seal(s, base).value, e, hash);
      }
    }
  }

  lemma SameAsItsSealing<E(!new)>(s: Sealer<E>, v: Json, vs: seq<Json>, d: Json, e: Json, hash: Json)
    requires Distinct(s.All()) && UniqueKeys(v) && UniqueKeys(d) && |vs| == |s.names| + 2 && hash.Str?
    requires ReadRecord(s.All(), v) == Some(vs) && ReadRecord(s.All(), d) == Some(vs[..|s.names|] + [e] + [hash])
    ensures Same(v, d) <==> Same(vs[|s.names|], e) && vs[|s.names| + 1] == hash
  {
    var n, ds := |s.names|, vs[..|s.names|] + [e] + [hash];
    assert ds[..n] == vs[..n] && ds[n] == e;
    SameAsSealed(s, v, vs, d, ds, e);
  }

  lemma SameAsSealed<E(!new)>(s: Sealer<E>, v: Json, vs: seq<Json>, d: Json, ds: seq<Json>, e: Json)
    requires Distinct(s.All()) && UniqueKeys(v) && UniqueKeys(d)
    requires ReadRecord(s.All(), v) == Some(vs) && ReadRecord(s.All(), d) == Some(ds) && |vs| == |ds| == |s.names| + 2
    requires ds[..|s.names|] == vs[..|s.names|] && ds[|s.names|] == e && ds[|s.names| + 1].Str?
    ensures Same(v, d) <==> Same(vs[|s.names|], e) && vs[|s.names| + 1] == ds[|s.names| + 1]
  {
    SameFields(s.All(), v, d, vs, ds);
    SameValues(|s.names|, vs, ds, e);
  }

  lemma SameHashed<E(!new)>(s: Sealer<E>, vs: seq<Json>, e: Json)
    requires |vs| == |s.names| + 2 && Same(vs[|s.names|], e)
    ensures CanonicalBytes(RecordJson(s.Hashed(), vs[..|s.names| + 1]), s.text) ==
            CanonicalBytes(RecordJson(s.Hashed(), vs[..|s.names|] + [e]), s.text)
  {
    var n := |s.names|;
    assert vs[..n + 1] == vs[..n] + [vs[n]];
    MapLonger(SortKeys, vs[..n], vs[n]);
    MapLonger(SortKeys, vs[..n], e);
    RecordUpToOrder(s.Hashed(), vs[..n + 1], vs[..n] + [e]);
    SameBytes(RecordJson(s.Hashed(), vs[..n + 1]), RecordJson(s.Hashed(), vs[..n] + [e]), s.text);
  }

  /** Values that agree up to the last two agree up to key order exactly when the last two do. */
  lemma SameValues(n: nat, vs: seq<Json>, ds: seq<Json>, e: Json)
    requires |vs| == |ds| == n + 2 && ds[..n] == vs[..n] && ds[n] == e && ds[n + 1].Str?
    ensures Map(SortKeys, vs) == Map(SortKeys, ds) <==> Same(vs[n], e) && vs[n + 1] == ds[n + 1]
  {
    assert forall i | 0 <= i < n :: vs[i] == vs[..n][i] && ds[i] == ds[..n][i];
    if Map(SortKeys, vs) == Map(SortKeys, ds) {
      assert Map(SortKeys, vs)[n] == Map(SortKeys, ds)[n] && Map(SortKeys, vs)[n + 1] == Map(SortKeys, ds)[n + 1];
    }
  }

  // ---------- Main results ----------

  /** A record with all fields is accepted exactly when it is, up to key order, what sealing its base gives. */
  lemma AcceptedExactlyWhenSealed<E(!new)>(s: Sealer<E>, v: Json)
    requires s.Valid() && UniqueKeys(v) && HasKeys(v, s.All())
    ensures var sealed := Seal(s, Restricted(v, s.names));
            AcceptedBytes(s, v).Ok? <==> sealed.Ok? && Same(v, sealed.value)
    ensures AcceptedBytes(s, v).Ok? ==> AcceptedBytes(s, v) == CanonicalBytes(v, s.text)
  {
    var vs := ReadRecord(s.All(), v).value;
    FieldsOf(s, v, vs);
    var base := RecordJson(s.names, vs[..|s.names|]);
    assert s.StoresWriting(base, base) && s.StoresWriting(base, vs[|s.names|]);
    AcceptedMeans(s, v, vs);
    BoundMeansSealed(s, v, vs);
  }

  /** Every sealed record is accepted, and its base is the one that was sealed. */
  lemma SealedIsAccepted<E(!new)>(s: Sealer<E>, base: Json)
    requires s.Valid() && UniqueKeys(base) && Seal(s, base).Ok?
    ensures var d := Seal(s, base).value;
            && UniqueKeys(d) && HasKeys(d, s.All()) && AcceptedBytes(s, d).Ok?
            && UniqueKeys(Restricted(d, s.names)) && Same(Restricted(d, s.names), base)
  {
    var d, vs := Seal(s, base).value, ReadRecord(s.names, base).value;
    NamesApart(s);
    assert s.StoresWriting(base, base);
    SealIs(s, base, vs);
    RecordIs(s.names, base, vs);
    RecordReadsBack(s.names, vs);
    assert s.EvaluatesSame(base, RecordJson(s.names, vs));
    assert s.StoresWriting(RecordJson(s.names, vs), s.write(s.evaluate(base).value));
    SealedMeans(s, base, vs, d, ReadRecord(s.All(), d).value);
  }

  lemma SealedMeans<E(!new)>(s: Sealer<E>, base: Json, vs: seq<Json>, d: Json, ds: seq<Json>)
    requires s.Hashes() && |vs| == |s.names| && s.evaluate(base).Ok?
    requires s.evaluate(RecordJson(s.names, vs)) == s.evaluate(base)
    requires s.StoresWriting(RecordJson(s.names, vs), s.write(s.evaluate(base).value))
    requires UniqueKeys(d) && ReadRecord(s.All(), d) == Some(ds)
    requires var e := s.write(s.evaluate(base).value);
             var raw := CanonicalBytes(RecordJson(s.Hashed(), vs + [e]), s.text);
             raw.Ok? && ds == vs + [e] + [Str(s.sha(raw.value))]
    ensures HasKeys(d, s.All()) && AcceptedBytes(s, d).Ok? && Restricted(d, s.names) == RecordJson(s.names, vs)
  {
    var n := |s.names|;
    assert ds[..n] == vs && ds[..n + 1] == vs + [ds[n]];
    FieldsOf(s, d, ds);
    AcceptedMeans(s, d, ds);
  }

  /** The base of a record with all fields. */
  lemma RestrictedIsBase<E>(s: Sealer<E>, v: Json)
    requires s.Valid() && UniqueKeys(v) && HasKeys(v, s.All())
    ensures UniqueKeys(Restricted(v, s.names)) && HasKeys(Restricted(v, s.names), s.names)
  {
    NamesApart(s);
    var vs := ReadRecord(s.All(), v).value;
    FieldsOf(s, v, vs);
    RecordIs(s.All(), v, vs);
    RecordReadsBack(s.names, vs[..|s.names|]);
  }

  /** Acceptance does not depend on the order of keys. */
  lemma AcceptedSame<E(!new)>(s: Sealer<E>, v: Json, w: Json)
    requires s.Valid() && UniqueKeys(v) && UniqueKeys(w) && Same(v, w) && HasKeys(v, s.All())
    ensures HasKeys(w, s.All()) && AcceptedBytes(s, v) == AcceptedBytes(s, w)
    ensures Same(Restricted(v, s.names), Restricted(w, s.names))
  {
    var vs, ws := SameRecords(s.All(), v, w);
    var n := |s.names|;
    SameFront(n, vs, ws);
    SameBase(s, vs[..n], ws[..n]);
    SameBound(s, vs, ws);
    AcceptedWhenBound(s, v, vs);
    AcceptedWhenBound(s, w, ws);
    SameBytes(v, w, s.text);
    RecordUpToOrder(s.names, vs[..n], ws[..n]);
  }

  /** Acceptance of a record, by the values it was read as. */
  lemma AcceptedWhenBound<E(!new)>(s: Sealer<E>, v: Json, vs: seq<Json>)
    requires s.Valid() && UniqueKeys(v) && ReadRecord(s.All(), v) == Some(vs) && |vs| == |s.names| + 2
    ensures AcceptedBytes(s, v) == if Bound(s, vs) then CanonicalBytes(v, s.text) else Fail
    ensures v.Obj? && Restricted(v, s.names) == RecordJson(s.names, vs[..|s.names|])
  {
    assert s.StoresWriting(RecordJson(s.names, vs[..|s.names|]), vs[|s.names|]);
    FieldsOf(s, v, vs);
    AcceptedMeans(s, v, vs);
  }

  /** Objects that differ in the order of keys have the same fields up to that order. */
  lemma SameRecords(names: seq<string>, v: Json, w: Json) returns (vs: seq<Json>, ws: seq<Json>)
    requires UniqueKeys(v) && UniqueKeys(w) && Same(v, w) && HasKeys(v, names) && Distinct(names)
    ensures HasKeys(w, names) && ReadRecord(names, v) == Some(vs) && ReadRecord(names, w) == Some(ws)
    ensures |vs| == |ws| == |names| && Map(SortKeys, vs) == Map(SortKeys, ws)
    ensures forall i | 0 <= i < |vs| :: UniqueKeys(vs[i]) && UniqueKeys(ws[i])
  {
    KeySetOfSorted(v.members);
    KeySetOfSorted(w.members);
    vs, ws := ReadRecord(names, v).value, ReadRecord(names, w).value;
    SameFields(names, v, w, vs, ws);
    RecordIs(names, v, vs);
    RecordIs(names, w, ws);
  }

  /** Sealing does not depend on the order of keys. */
  lemma SealSame<E(!new)>(s: Sealer<E>, a: Json, b: Json)
    requires s.Valid() && UniqueKeys(a) && UniqueKeys(b) && Same(a, b) && Seal(s, a).Ok?
    ensures Seal(s, b).Ok? && Same(Seal(s, a).value, Seal(s, b).value)
  {
    NamesApart(s);
    var vs, ws := SameRecords(s.names, a, b);
    assert s.EvaluatesSame(a, b) && s.StoresWriting(a, a) && s.StoresWriting(b, b);
    SealIs(s, a, vs);
    SealIs(s, b, ws);
    var e := s.write(s.evaluate(a).value);
    MapLonger(SortKeys, vs, e);
    MapLonger(SortKeys, ws, e);
    SameHashedBytes(s.Hashed(), vs + [e], ws + [e], s.text);
    var d := Seal(s, a).value;
    var hash := Str(s.sha(CanonicalBytes(RecordJson(s.Hashed(), vs + [e]), s.text).value));
    SameSealed(s.All(), d, Seal(s, b).value, vs + [e], ws + [e], hash);
  }

  lemma SameSealed(names: seq<string>, v: Json, w: Json, vs: seq<Json>, ws: seq<Json>, hash: Json)
    requires UniqueKeys(v) && UniqueKeys(w) && Distinct(names) && Map(SortKeys, vs) == Map(SortKeys, ws)
    requires ReadRecord(names, v) == Some(vs + [hash]) && ReadRecord(names, w) == Some(ws + [hash])
    ensures Same(v, w)
  {
    MapLonger(SortKeys, vs, hash);
    MapLonger(SortKeys, ws, hash);
    SameFields(names, v, w, vs + [hash], ws + [hash]);
  }

  lemma SameFront(n: nat, vs: seq<Json>, ws: seq<Json>)
    requires |vs| == |ws| == n + 2 && Map(SortKeys, vs) == Map(SortKeys, ws)
    ensures Map(SortKeys, vs[..n]) == Map(SortKeys, ws[..n]) && Map(SortKeys, vs[..n + 1]) == Map(SortKeys, ws[..n + 1])
    ensures Same(vs[n], ws[n]) && Same(vs[n + 1], ws[n + 1])
  {
    assert Map(SortKeys, vs[..n]) == Map(SortKeys, vs)[..n] && Map(SortKeys, ws[..n]) == Map(SortKeys, ws)[..n];
    assert Map(SortKeys, vs[..n + 1]) == Map(SortKeys, vs)[..n + 1];
    assert Map(SortKeys, ws[..n + 1]) == Map(SortKeys, ws)[..n + 1];
    assert Map(SortKeys, vs)[n] == SortKeys(vs[n]) && Map(SortKeys, vs)[n + 1] == SortKeys(vs[n + 1]);
    assert Map(SortKeys, ws)[n] == SortKeys(ws[n]) && Map(SortKeys, ws)[n + 1] == SortKeys(ws[n + 1]);
  }

  lemma SameBound<E(!new)>(s: Sealer<E>, vs: seq<Json>, ws: seq<Json>)
    requires |vs| == |ws| == |s.names| + 2 && Map(SortKeys, vs) == Map(SortKeys, ws)
    requires s.evaluate(RecordJson(s.names, vs[..|s.names|])) == s.evaluate(RecordJson(s.names, ws[..|s.names|]))
    ensures Bound(s, vs) <==> Bound(s, ws)
  {
    var n := |s.names|;
    SameFront(n, vs, ws);
    SameHashedBytes(s.Hashed(), vs[..n + 1], ws[..n + 1], s.text);
  }

  lemma SameHashedBytes(names: seq<string>, vs: seq<Json>, ws: seq<Json>, text: string -> bool)
    requires |vs| == |ws| == |names| && Map(SortKeys, vs) == Map(SortKeys, ws)
    ensures CanonicalBytes(RecordJson(names, vs), text) == CanonicalBytes(RecordJson(names, ws), text)
  {
    RecordUpToOrder(names, vs, ws);
    SameBytes(RecordJson(names, vs), RecordJson(names, ws), text);
  }

  lemma SameBase<E(!new)>(s: Sealer<E>, vs: seq<Json>, ws: seq<Json>)
    requires s.Valid() && |vs| == |ws| == |s.names| && Map(SortKeys, vs) == Map(SortKeys, ws)
    requires forall i | 0 <= i < |vs| :: UniqueKeys(vs[i]) && UniqueKeys(ws[i])
    ensures s.evaluate(RecordJson(s.names, vs)) == s.evaluate(RecordJson(s.names, ws))
  {
    NamesApart(s);
    RecordReadsBack(s.names, vs);
    RecordReadsBack(s.names, ws);
    RecordUpToOrder(s.names, vs, ws);
    assert s.EvaluatesSame(RecordJson(s.names, vs), RecordJson(s.names, ws));
  }
}
