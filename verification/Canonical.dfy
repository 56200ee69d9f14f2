/** JSON values, their canonical form, and the serialization the dashboard compares them by. */
module Canonical {

  datatype Json =
    | JNull
    | JBool(flag: bool)
    | JNum(number: int)
    | JStr(text: string)
    | JArr(items: seq<Json>)
    | JObj(fields: seq<Field>) // in the order the engine lists the keys

  datatype Field = Field(key: string, value: Json)

  /** Assigning to this key sets the prototype of a plain object and adds no property. */
  const PROTO := "__proto__"

  /** No key twice, at any depth. */
  predicate WellFormed(v: Json) {
    match v
    case JArr(items) => forall i :: 0 <= i < |items| ==> WellFormed(items[i])
    case JObj(fields) => DistinctKeys(fields) && forall i :: 0 <= i < |fields| ==> WellFormed(fields[i].value)
    case _ => true
  }

  predicate DistinctKeys(fields: seq<Field>) {
    forall i, j :: 0 <= i < j < |fields| ==> fields[i].key != fields[j].key
  }

  // ----- Key order -----

  /** The order of `Array.prototype.sort` on strings: by code units. */
  predicate Less(a: string, b: string) {
    if b == "" then false
    else if a == "" then true
    else a[0] < b[0] || (a[0] == b[0] && Less(a[1..], b[1..]))
  }

  lemma {:induction false} LessIsTotal(a: string, b: string)
    ensures Less(a, b) || a == b || Less(b, a)
    ensures !(Less(a, b) && Less(b, a)) && !Less(a, a)
  {
    if a != "" {
      LessIsTotal(a[1..], a[1..]);
      if b != "" {
        LessIsTotal(a[1..], b[1..]);
        assert a == [a[0]] + a[1..] && b == [b[0]] + b[1..];
      }
    }
  }

  lemma {:induction false} LessIsTransitive(a: string, b: string, c: string)
    requires Less(a, b) && Less(b, c)
    ensures Less(a, c)
  {
    if a != "" && a[0] == b[0] == c[0] { LessIsTransitive(a[1..], b[1..], c[1..]); }
  }

  /** Keys that are array indices, from 0 to 2^32 - 2: objects list these first, in numeric order. */
  predicate IsIndex(k: string) {
    && k != ""
    && (forall i :: 0 <= i < |k| ==> '0' <= k[i] <= '9')
    && (k[0] == '0' ==> |k| == 1)
    && (|k| < 10 || (|k| == 10 && Less(k, "4294967295")))
  }

  /** Numeric order of two indices. */
  predicate IndexLess(a: string, b: string) { |a| < |b| || (|a| == |b| && Less(a, b)) }

  // ----- The canonical form -----

  function Place(fields: seq<Field>, f: Field): (r: seq<Field>)
    ensures forall g {:trigger g in r} :: g in r <==> g == f || g in fields
  {
    if fields == [] || Less(f.key, fields[0].key) then [f] + fields else [fields[0]] + Place(fields[1..], f)
  }

  /** `Object.keys(value).sort()`, with each key's value. */
  function SortByKey(fields: seq<Field>): (r: seq<Field>)
    ensures forall g {:trigger g in r} :: g in r <==> g in fields
  {
    if fields == [] then [] else Place(SortByKey(fields[1..]), fields[0])
  }

  function InsertIndex(obj: seq<Field>, f: Field): (r: seq<Field>)
    ensures forall g {:trigger g in r} :: g in r <==> g == f || g in obj
  {
    if obj == [] || !IsIndex(obj[0].key) || IndexLess(f.key, obj[0].key) then [f] + obj else [obj[0]] + InsertIndex(obj[1..], f)
  }

  /** `result[key] = value` on a plain object without that key. */
  function Assign(obj: seq<Field>, f: Field): (r: seq<Field>)
    ensures forall g {:trigger g in r} :: g in r <==> g in obj || (g == f && f.key != PROTO)
  {
    if f.key == PROTO then obj
    else if IsIndex(f.key) then InsertIndex(obj, f)
    else obj + [f]
  }

  /** The `reduce` over the sorted keys. */
  function Rebuild(obj: seq<Field>, fields: seq<Field>): (r: seq<Field>)
    ensures forall g {:trigger g in r} :: g in r <==> g in obj || (g in fields && g.key != PROTO)
    decreases fields
  {
    if fields == [] then obj else Rebuild(Assign(obj, fields[0]), fields[1..])
  }

  function SortValue(v: Json): Json {
    match v
    case JArr(items) => JArr(seq(|items|, i requires 0 <= i < |items| => SortValue(items[i])))
    case JObj(fields) => JObj(Rebuild([], SortByKey(SortedFields(fields))))
    case _ => v
  }

  function SortedFields(fields: seq<Field>): (r: seq<Field>)
    ensures |r| == |fields| && forall i :: 0 <= i < |fields| ==> r[i] == Field(fields[i].key, SortValue(fields[i].value))
  {
    seq(|fields|, i requires 0 <= i < |fields| => Field(fields[i].key, SortValue(fields[i].value)))
  }

  // ----- What it identifies -----

  /** Equal but for the order of object keys, and for what objects hold under `__proto__`. */
  ghost predicate Same(a: Json, b: Json) {
    match (a, b)
    case (JArr(xs), JArr(ys)) => |xs| == |ys| && forall i :: 0 <= i < |xs| ==> Same(xs[i], ys[i])
    case (JObj(xs), JObj(ys)) =>
      && (forall i :: 0 <= i < |xs| && xs[i].key != PROTO ==> LeftMatched(xs[i], ys))
      && (forall j :: 0 <= j < |ys| && ys[j].key != PROTO ==> RightMatched(xs, ys[j]))
    case _ => a == b
  }

  /** A field of the left object has its counterpart on the right; and the other way round. */
  ghost predicate LeftMatched(f: Field, ys: seq<Field>)
    decreases f
  {
    exists j :: 0 <= j < |ys| && ys[j].key == f.key && Same(f.value, ys[j].value)
  }

  ghost predicate RightMatched(xs: seq<Field>, g: Field)
    decreases xs
  {
    exists i :: 0 <= i < |xs| && xs[i].key == g.key && Same(xs[i].value, g.value)
  }

  // ----- Sorting is canonical -----

  predicate StrictlySorted(fields: seq<Field>) {
    forall i, j :: 0 <= i < j < |fields| ==> Less(fields[i].key, fields[j].key)
  }

  lemma {:induction false} PlaceSorted(fields: seq<Field>, f: Field)
    requires StrictlySorted(fields) && forall i :: 0 <= i < |fields| ==> fields[i].key != f.key
    ensures StrictlySorted(Place(fields, f))
  {
    if fields != [] {
      if Less(f.key, fields[0].key) {
        forall j | 0 <= j < |fields| ensures Less(f.key, fields[j].key) {
          if j > 0 { LessIsTransitive(f.key, fields[0].key, fields[j].key); }
        }
      } else {
        LessIsTotal(f.key, fields[0].key);
        PlaceSorted(fields[1..], f);
        var r := Place(fields[1..], f);
        forall j | 0 <= j < |r| ensures Less(fields[0].key, r[j].key) {
          assert r[j] in r;
        }
      }
    }
  }

  lemma {:induction false} SortByKeySorts(fields: seq<Field>)
    requires DistinctKeys(fields)
    ensures StrictlySorted(SortByKey(fields))
  {
    if fields != [] {
      SortByKeySorts(fields[1..]);
      var r := SortByKey(fields[1..]);
      forall i | 0 <= i < |r| ensures r[i].key != fields[0].key {
        assert r[i] in r;
      }
      PlaceSorted(r, fields[0]);
    }
  }

  function Kept(fields: seq<Field>): (r: seq<Field>)
    ensures forall g {:trigger g in r} :: g in r <==> g in fields && g.key != PROTO
  {
    if fields == [] then []
    else if fields[0].key == PROTO then Kept(fields[1..])
    else [fields[0]] + Kept(fields[1..])
  }

  lemma {:induction false} KeptSorted(fields: seq<Field>)
    requires StrictlySorted(fields)
    ensures StrictlySorted(Kept(fields))
  {
    if fields != [] {
      KeptSorted(fields[1..]);
      var r := Kept(fields[1..]);
      forall j | 0 <= j < |r| ensures Less(fields[0].key, r[j].key) {
        assert r[j] in r;
        assert r[j] in fields[1..];
      }
    }
  }

  lemma {:induction false} RebuildKept(obj: seq<Field>, fields: seq<Field>)
    ensures Rebuild(obj, fields) == Rebuild(obj, Kept(fields))
    decreases fields
  {
    if fields != [] { RebuildKept(Assign(obj, fields[0]), fields[1..]); }
  }

  /** The order of a strictly sorted list follows from its members. */
  lemma {:induction false} SortedDetermined(a: seq<Field>, b: seq<Field>)
    requires StrictlySorted(a) && StrictlySorted(b) && forall g :: g in a <==> g in b
    ensures a == b
  {
    if b != [] { assert b[0] in a; }
    if a != [] {
      assert a[0] in b;
      assert b[0] in a;
      LessIsTotal(a[0].key, b[0].key);
      assert a[0] == b[0];
      LessIsTotal(a[0].key, a[0].key);
      forall g ensures g in a[1..] <==> g in b[1..] {
        if g in a[1..] { assert g in b && g != a[0]; }
        if g in b[1..] { assert g in a && g != b[0]; }
      }
      SortedDetermined(a[1..], b[1..]);
    }
  }

  /** The rebuilt object depends on the fields present, not on their order. */
  lemma RebuildDetermined(a: seq<Field>, b: seq<Field>)
    requires DistinctKeys(a) && DistinctKeys(b)
    ensures Rebuild([], SortByKey(a)) == Rebuild([], SortByKey(b)) <==> (forall g: Field :: g.key != PROTO ==> (g in a <==> g in b))
  {
    var x, y := SortByKey(a), SortByKey(b);
    if forall g: Field :: g.key != PROTO ==> (g in a <==> g in b) {
      SortByKeySorts(a);
      SortByKeySorts(b);
      KeptSorted(x);
      KeptSorted(y);
      SortedDetermined(Kept(x), Kept(y));
      RebuildKept([], x);
      RebuildKept([], y);
    }
    if Rebuild([], x) == Rebuild([], y) {
      forall g: Field | g.key != PROTO ensures g in a <==> g in b {
        assert g in a <==> g in Rebuild([], x);
      }
    }
  }

  // ----- Main results -----

  /** Two values have the same canonical form exactly if they are equal up to key order (and `__proto__`). */
  lemma {:induction false} CanonicalExact(a: Json, b: Json)
    requires WellFormed(a) && WellFormed(b)
    ensures SortValue(a) == SortValue(b) <==> Same(a, b)
    decreases a
  {
    match (a, b) {
      case (JArr(xs), JArr(ys)) =>
        if |xs| == |ys| {
          forall i | 0 <= i < |xs| ensures SortValue(xs[i]) == SortValue(ys[i]) <==> Same(xs[i], ys[i]) {
            CanonicalExact(xs[i], ys[i]);
          }
        }
        ItemsExact(a, b);
      case (JObj(xs), JObj(ys)) =>
        forall i, j | 0 <= i < |xs| && 0 <= j < |ys| ensures SortValue(xs[i].value) == SortValue(ys[j].value) <==> Same(xs[i].value, ys[j].value) {
          CanonicalExact(xs[i].value, ys[j].value);
        }
        FieldsExact(a, b);
      case _ =>
    }
  }

  lemma ItemsExact(a: Json, b: Json)
    requires a.JArr? && b.JArr?
    requires |a.items| == |b.items| ==> forall i :: 0 <= i < |a.items| ==> (SortValue(a.items[i]) == SortValue(b.items[i]) <==> Same(a.items[i], b.items[i]))
    ensures SortValue(a) == SortValue(b) <==> Same(a, b)
  {
    var xs, ys := SortValue(a).items, SortValue(b).items;
    assert |xs| == |a.items| && |ys| == |b.items|;
    if xs == ys {
      forall i | 0 <= i < |xs| ensures Same(a.items[i], b.items[i]) {
        assert xs[i] == ys[i];
      }
    }
  }

  /** Every field of `xs` but the dropped one has a counterpart in `ys`, after canonicalizing. */
  ghost predicate Covered(xs: seq<Field>, ys: seq<Field>) {
    forall i :: 0 <= i < |xs| && xs[i].key != PROTO ==> SortedMatched(xs[i], ys)
  }

  ghost predicate SortedMatched(f: Field, ys: seq<Field>) {
    exists j :: 0 <= j < |ys| && ys[j].key == f.key && SortValue(ys[j].value) == SortValue(f.value)
  }

  lemma CoveredExact(xs: seq<Field>, ys: seq<Field>)
    ensures Covered(xs, ys) <==> (forall g: Field :: g.key != PROTO && g in SortedFields(xs) ==> g in SortedFields(ys))
  {
    var us, vs := SortedFields(xs), SortedFields(ys);
    if Covered(xs, ys) {
      forall g: Field | g.key != PROTO && g in us ensures g in vs {
        var i :| 0 <= i < |us| && us[i] == g;
        assert SortedMatched(xs[i], ys);
        var j :| 0 <= j < |ys| && ys[j].key == xs[i].key && SortValue(ys[j].value) == SortValue(xs[i].value);
        assert vs[j] == g;
      }
    }
    if forall g: Field :: g.key != PROTO && g in us ==> g in vs {
      forall i | 0 <= i < |xs| && xs[i].key != PROTO ensures SortedMatched(xs[i], ys) {
        assert us[i] in vs;
        var j :| 0 <= j < |vs| && vs[j] == us[i];
        assert ys[j].key == xs[i].key;
      }
    }
  }

  lemma LeftMatchedExact(f: Field, ys: seq<Field>)
    requires forall j :: 0 <= j < |ys| ==> (SortValue(f.value) == SortValue(ys[j].value) <==> Same(f.value, ys[j].value))
    ensures LeftMatched(f, ys) <==> SortedMatched(f, ys)
  {}

  lemma RightMatchedExact(xs: seq<Field>, g: Field)
    requires forall i :: 0 <= i < |xs| ==> (SortValue(xs[i].value) == SortValue(g.value) <==> Same(xs[i].value, g.value))
    ensures RightMatched(xs, g) <==> SortedMatched(g, xs)
  {}

  /** Canonicalizing tells the values of these fields apart exactly as `Same` does. */
  ghost predicate PairsExact(xs: seq<Field>, ys: seq<Field>) {
    forall i, j :: 0 <= i < |xs| && 0 <= j < |ys| ==> (SortValue(xs[i].value) == SortValue(ys[j].value) <==> Same(xs[i].value, ys[j].value))
  }

  lemma MatchedIsCovered(xs: seq<Field>, ys: seq<Field>)
    requires PairsExact(xs, ys)
    ensures (forall i :: 0 <= i < |xs| && xs[i].key != PROTO ==> LeftMatched(xs[i], ys)) <==> Covered(xs, ys)
    ensures (forall j :: 0 <= j < |ys| && ys[j].key != PROTO ==> RightMatched(xs, ys[j])) <==> Covered(ys, xs)
  {
    forall i | 0 <= i < |xs| ensures LeftMatched(xs[i], ys) <==> SortedMatched(xs[i], ys) { LeftMatchedExact(xs[i], ys); }
    forall j | 0 <= j < |ys| ensures RightMatched(xs, ys[j]) <==> SortedMatched(ys[j], xs) { RightMatchedExact(xs, ys[j]); }
  }

  lemma FieldsExact(a: Json, b: Json)
    requires a.JObj? && b.JObj? && WellFormed(a) && WellFormed(b) && PairsExact(a.fields, b.fields)
    ensures SortValue(a) == SortValue(b) <==> Same(a, b)
  {
    var xs, ys := a.fields, b.fields;
    MatchedIsCovered(xs, ys);
    SortedExact(xs, ys);
  }

  lemma SortedExact(xs: seq<Field>, ys: seq<Field>)
    requires DistinctKeys(xs) && DistinctKeys(ys)
    ensures SortValue(JObj(xs)) == SortValue(JObj(ys)) <==> Covered(xs, ys) && Covered(ys, xs)
  {
    RebuildDetermined(SortedFields(xs), SortedFields(ys));
    CoveredExact(xs, ys);
    CoveredExact(ys, xs);
  }

  lemma {:induction false} InsertIndexDistinct(obj: seq<Field>, f: Field)
    requires DistinctKeys(obj) && forall g :: g in obj ==> g.key != f.key
    ensures DistinctKeys(InsertIndex(obj, f))
  {
    if obj != [] {
      InsertIndexDistinct(obj[1..], f);
      var r := InsertIndex(obj[1..], f);
      forall j | 0 <= j < |r| ensures r[j].key != obj[0].key { assert r[j] in r; }
    }
  }

  lemma {:induction false} RebuildDistinct(obj: seq<Field>, fields: seq<Field>)
    requires DistinctKeys(obj) && DistinctKeys(fields) && forall g, h :: g in obj && h in fields ==> g.key != h.key
    ensures DistinctKeys(Rebuild(obj, fields))
    decreases fields
  {
    if fields != [] {
      var f := fields[0];
      if f.key != PROTO && IsIndex(f.key) { InsertIndexDistinct(obj, f); }
      var next := Assign(obj, f);
      assert DistinctKeys(next);
      forall g, h | g in next && h in fields[1..] ensures g.key != h.key {
        var j :| 0 <= j < |fields[1..]| && fields[1..][j] == h;
        assert fields[j + 1] == h;
        assert h in fields;
      }
      RebuildDistinct(next, fields[1..]);
    }
  }

  /** The canonical form is a well-formed value, equal up to key order to the value it was made from. */
  lemma {:induction false} CanonicalIsSame(v: Json)
    requires WellFormed(v)
    ensures WellFormed(SortValue(v)) && Same(v, SortValue(v))
  {
    match v {
      case JArr(items) =>
        forall i | 0 <= i < |items| ensures WellFormed(SortValue(items[i])) && Same(items[i], SortValue(items[i])) {
          CanonicalIsSame(items[i]);
        }
      case JObj(fields) =>
        forall i | 0 <= i < |fields| ensures WellFormed(SortValue(fields[i].value)) && Same(fields[i].value, SortValue(fields[i].value)) {
          CanonicalIsSame(fields[i].value);
        }
        ObjectIsSame(v);
      case _ =>
    }
  }

  lemma ObjectIsSame(v: Json)
    requires v.JObj? && WellFormed(v)
    requires forall i :: 0 <= i < |v.fields| ==> WellFormed(SortValue(v.fields[i].value)) && Same(v.fields[i].value, SortValue(v.fields[i].value))
    ensures WellFormed(SortValue(v)) && Same(v, SortValue(v))
  {
    var xs := SortedFields(v.fields);
    var sorted := SortByKey(xs);
    SortByKeySorts(xs);
    forall i, j | 0 <= i < j < |sorted| ensures sorted[i].key != sorted[j].key {
      LessIsTotal(sorted[i].key, sorted[j].key);
    }
    RebuildDistinct([], sorted);
    var r := SortValue(v).fields;
    forall j | 0 <= j < |r|
      ensures WellFormed(r[j].value) && RightMatched(v.fields, r[j])
    {
      assert r[j] in r;
      assert r[j] in xs;
      var i :| 0 <= i < |xs| && xs[i] == r[j];
      assert v.fields[i].key == r[j].key;
    }
    forall i | 0 <= i < |v.fields| && v.fields[i].key != PROTO
      ensures LeftMatched(v.fields[i], r)
    {
      assert xs[i] in xs;
      assert xs[i] in r;
      var j :| 0 <= j < |r| && r[j] == xs[i];
      assert r[j].key == v.fields[i].key;
    }
  }

  /** Canonicalizing twice changes nothing. */
  lemma CanonicalIsIdempotent(v: Json)
    requires WellFormed(v)
    ensures SortValue(SortValue(v)) == SortValue(v)
  {
    CanonicalIsSame(v);
    CanonicalExact(v, SortValue(v));
  }

  /** Different values that the canonical form confuses: a `__proto__` key of its own, as `JSON.parse` makes it, is dropped. */
  lemma ProtoIsForgotten()
    ensures var a := JObj([Field(PROTO, JNum(1))]);
            WellFormed(a) && SortValue(a) == SortValue(JObj([]))
  {
    CanonicalExact(JObj([Field(PROTO, JNum(1))]), JObj([]));
  }

  // ----- Serialization -----

  datatype Text = TNull | TBool(flag: bool) | TNum(number: int) | TStr(text: string) | Open | Close | OpenBrace | CloseBrace | Comma | Colon

  /** `JSON.stringify`, as lexical tokens. */
  function Stringify(v: Json): (r: seq<Text>)
    ensures r != [] && !r[0].Close? && !r[0].CloseBrace? && !r[0].Comma? && !r[0].Colon?
  {
    match v
    case JNull => [TNull]
    case JBool(flag) => [TBool(flag)]
    case JNum(number) => [TNum(number)]
    case JStr(text) => [TStr(text)]
    case JArr(items) => [Open] + StringifyItems(items)
    case JObj(fields) => [OpenBrace] + StringifyFields(fields)
  }

  function StringifyItems(items: seq<Json>): seq<Text> {
    if items == [] then [Close]
    else Stringify(items[0]) + ((if |items| == 1 then [] else [Comma]) + StringifyItems(items[1..]))
  }

  function StringifyFields(fields: seq<Field>): seq<Text> {
    if fields == [] then [CloseBrace]
    else
      [TStr(fields[0].key), Colon]
      + (Stringify(fields[0].value) + ((if |fields| == 1 then [] else [Comma]) + StringifyFields(fields[1..])))
  }

  /** No text of one value continues as the text of another: the text determines the value. */
  lemma {:induction false} StringifyReads(a: Json, b: Json, x: seq<Text>, y: seq<Text>)
    requires Stringify(a) + x == Stringify(b) + y
    ensures a == b && x == y
    decreases a, 0
  {
    assert (Stringify(a) + x)[0] == (Stringify(b) + y)[0];
    assert Stringify(a)[0] == Stringify(b)[0];
    match a {
      case JArr(items) =>
        assert b.JArr?;
        assert StringifyItems(items) + x == (Stringify(a) + x)[1..];
        assert StringifyItems(b.items) + y == (Stringify(b) + y)[1..];
        ItemsRead(items, b.items, x, y);
      case JObj(fields) =>
        assert b.JObj?;
        assert StringifyFields(fields) + x == (Stringify(a) + x)[1..];
        assert StringifyFields(b.fields) + y == (Stringify(b) + y)[1..];
        FieldsRead(fields, b.fields, x, y);
      case _ => LeafReads(a, b, x, y);
    }
  }

  lemma LeafReads(a: Json, b: Json, x: seq<Text>, y: seq<Text>)
    requires !a.JArr? && !a.JObj? && Stringify(a) + x == Stringify(b) + y && Stringify(a)[0] == Stringify(b)[0]
    ensures a == b && x == y
  {
    assert x == (Stringify(a) + x)[1..];
    assert y == (Stringify(b) + y)[1..];
  }

  lemma {:induction false} ItemsRead(a: seq<Json>, b: seq<Json>, x: seq<Text>, y: seq<Text>)
    requires StringifyItems(a) + x == StringifyItems(b) + y
    ensures a == b && x == y
    decreases a, 1
  {
    assert (StringifyItems(a) + x)[0] == (StringifyItems(b) + y)[0];
    if a == [] || b == [] {
      assert x == (StringifyItems(a) + x)[1..];
      assert y == (StringifyItems(b) + y)[1..];
    } else {
      ItemPeels(a, x);
      ItemPeels(b, y);
      StringifyReads(a[0], b[0], AfterItem(a, x), AfterItem(b, y));
      ItemsRead(a[1..], b[1..], x, y);
      assert a == [a[0]] + a[1..] && b == [b[0]] + b[1..];
    }
  }

  /** What follows the first item. */
  function AfterItem(items: seq<Json>, x: seq<Text>): (r: seq<Text>)
    requires items != []
    ensures r != [] && (r[0].Comma? <==> |items| > 1)
    ensures StringifyItems(items[1..]) + x == if |items| == 1 then r else r[1..]
  {
    var tail := StringifyItems(items[1..]) + x;
    if |items| == 1 then tail else [Comma] + tail
  }

  lemma ItemPeels(items: seq<Json>, x: seq<Text>)
    requires items != []
    ensures StringifyItems(items) + x == Stringify(items[0]) + AfterItem(items, x)
  {
    var sep := if |items| == 1 then [] else [Comma];
    Regroup(Stringify(items[0]), sep, StringifyItems(items[1..]), x);
    assert sep + (StringifyItems(items[1..]) + x) == AfterItem(items, x);
  }

  lemma {:induction false} FieldsRead(a: seq<Field>, b: seq<Field>, x: seq<Text>, y: seq<Text>)
    requires StringifyFields(a) + x == StringifyFields(b) + y
    ensures a == b && x == y
    decreases a, 1
  {
    assert (StringifyFields(a) + x)[0] == (StringifyFields(b) + y)[0];
    if a == [] || b == [] {
      assert x == (StringifyFields(a) + x)[1..];
      assert y == (StringifyFields(b) + y)[1..];
    } else {
      var p, q := AfterField(a, x), AfterField(b, y);
      FieldPeels(a, x);
      FieldPeels(b, y);
      assert (StringifyFields(a) + x)[0] == TStr(a[0].key);
      assert (StringifyFields(b) + y)[0] == TStr(b[0].key);
      StringifyReads(a[0].value, b[0].value, p, q);
      FieldsRead(a[1..], b[1..], x, y);
      assert a == [a[0]] + a[1..] && b == [b[0]] + b[1..];
    }
  }

  /** What follows the first field's value. */
  function AfterField(fields: seq<Field>, x: seq<Text>): (r: seq<Text>)
    requires fields != []
    ensures r != [] && (r[0].Comma? <==> |fields| > 1)
    ensures StringifyFields(fields[1..]) + x == if |fields| == 1 then r else r[1..]
  {
    var tail := StringifyFields(fields[1..]) + x;
    if |fields| == 1 then tail else [Comma] + tail
  }

  lemma Regroup<T>(a: seq<T>, b: seq<T>, c: seq<T>, d: seq<T>)
    ensures (a + (b + c)) + d == a + (b + (c + d)) && ((a + (b + c)) + d)[|a|..] == b + (c + d)
  {
    var l, r := (a + (b + c)) + d, a + (b + (c + d));
    assert l == r;
  }

  lemma FieldPeels(fields: seq<Field>, x: seq<Text>)
    requires fields != []
    ensures (StringifyFields(fields) + x)[2..] == Stringify(fields[0].value) + AfterField(fields, x)
    ensures |StringifyFields(fields) + x| > 2
  {
    var head, v := [TStr(fields[0].key), Colon], Stringify(fields[0].value);
    var rest := (if |fields| == 1 then [] else [Comma]) + StringifyFields(fields[1..]);
    Regroup(head, v, rest, x);
    var sep := if |fields| == 1 then [] else [Comma];
    Regroup([], sep, StringifyFields(fields[1..]), x);
    assert [] + (sep + StringifyFields(fields[1..])) == rest;
  }

  function StableSerialize(v: Json): seq<Text> { Stringify(SortValue(v)) }

  /** Stable serializations are equal exactly for values equal up to key order (and `__proto__`). */
  lemma SerializesAlikeExact(a: Json, b: Json)
    requires WellFormed(a) && WellFormed(b)
    ensures StableSerialize(a) == StableSerialize(b) <==> Same(a, b)
  {
    CanonicalExact(a, b);
    if StableSerialize(a) == StableSerialize(b) { StringifyReads(SortValue(a), SortValue(b), [], []); }
  }
}
