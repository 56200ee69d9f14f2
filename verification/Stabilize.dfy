/** Reusing the previous lists and values of the console data across refreshes. */
module Stabilize {
  import opened Canonical

  predicate SameValue(a: Json, b: Json) { StableSerialize(a) == StableSerialize(b) }

  /** JavaScript's truth value of a found item. */
  predicate Truthy(v: Json) {
    match v
    case JNull => false
    case JBool(flag) => flag
    case JNum(number) => number != 0
    case JStr(text) => text != ""
    case _ => true
  }

  function ReuseValue(previous: Json, next: Json): Json {
    if SameValue(previous, next) then previous else next
  }

  /** Whichever value is kept, it is the new one up to key order. */
  lemma ReusedValueIsFaithful(previous: Json, next: Json)
    requires WellFormed(previous) && WellFormed(next)
    ensures Same(ReuseValue(previous, next), next)
    ensures ReuseValue(previous, next) == previous <==> Same(previous, next)
  {
    SerializesAlikeExact(previous, next);
    SerializesAlikeExact(next, next);
  }

  // ----- Lists -----

  type Key = (Json, nat) -> string

  /** The first `n` items by key; a later item wins. */
  function ByKey(items: seq<Json>, getKey: Key, n: nat): map<string, Json>
    requires n <= |items|
  {
    if n == 0 then map[] else ByKey(items, getKey, n - 1)[getKey(items[n - 1], n - 1) := items[n - 1]]
  }

  /** The i-th new item has an equal predecessor under its key. */
  predicate Kept(previous: seq<Json>, next: seq<Json>, getKey: Key, i: nat)
    requires i < |next|
  {
    var m, k := ByKey(previous, getKey, |previous|), getKey(next[i], i);
    k in m && Truthy(m[k]) && SameValue(m[k], next[i])
  }

  predicate Changed(previous: seq<Json>, next: seq<Json>, getKey: Key) {
    |previous| != |next| || exists i :: 0 <= i < |next| && !Kept(previous, next, getKey, i)
  }

  function Choice(previous: seq<Json>, next: seq<Json>, getKey: Key, i: nat): Json
    requires i < |next|
  {
    if Kept(previous, next, getKey, i) then ByKey(previous, getKey, |previous|)[getKey(next[i], i)] else next[i]
  }

  function Resolved(previous: seq<Json>, next: seq<Json>, getKey: Key): seq<Json> {
    seq(|next|, i requires 0 <= i < |next| => Choice(previous, next, getKey, i))
  }

  function Reused(previous: seq<Json>, next: seq<Json>, getKey: Key): seq<Json> {
    if Changed(previous, next, getKey) then Resolved(previous, next, getKey) else previous
  }

  /** `reused` says that the previous list itself is returned. */
  method ReuseList(previous: seq<Json>, next: seq<Json>, getKey: Key) returns (result: seq<Json>, reused: bool)
    ensures reused <==> !Changed(previous, next, getKey)
    ensures result == Reused(previous, next, getKey)
  {
    var previousByKey: map<string, Json> := map[];
    for i := 0 to |previous|
      invariant previousByKey == ByKey(previous, getKey, i)
    {
      previousByKey := previousByKey[getKey(previous[i], i) := previous[i]];
    }
    var changed := |previous| != |next|;
    var resolved: seq<Json> := [];
    for i := 0 to |next|
      invariant |resolved| == i && forall j :: 0 <= j < i ==> resolved[j] == Choice(previous, next, getKey, j)
      invariant !changed <==> |previous| == |next| && forall j :: 0 <= j < i ==> Kept(previous, next, getKey, j)
    {
      var key := getKey(next[i], i);
      assert Kept(previous, next, getKey, i) <==> key in previousByKey && Truthy(previousByKey[key]) && SameValue(previousByKey[key], next[i]);
      if key in previousByKey && Truthy(previousByKey[key]) && SameValue(previousByKey[key], next[i]) {
        resolved := resolved + [previousByKey[key]];
      } else {
        changed := true;
        resolved := resolved + [next[i]];
      }
    }
    assert resolved == Resolved(previous, next, getKey);
    result := if changed then resolved else previous;
    reused := !changed;
  }

  predicate DistinctItems(items: seq<Json>, getKey: Key) {
    forall i, j :: 0 <= i < j < |items| ==> getKey(items[i], i) != getKey(items[j], j)
  }

  /** The key is read off the item alone, and off what serialization keeps of it. */
  ghost predicate ByContent(getKey: Key) {
    forall a, b, i, j :: SameValue(a, b) ==> getKey(a, i) == getKey(b, j)
  }

  lemma {:induction false} ByKeyFinds(items: seq<Json>, getKey: Key, n: nat)
    requires DistinctItems(items, getKey) && n <= |items|
    ensures forall i :: 0 <= i < n ==> getKey(items[i], i) in ByKey(items, getKey, n) && ByKey(items, getKey, n)[getKey(items[i], i)] == items[i]
    ensures forall k :: k in ByKey(items, getKey, n) ==> exists i :: 0 <= i < n && getKey(items[i], i) == k
  {
    if n > 0 {
      ByKeyFinds(items, getKey, n - 1);
      var last := getKey(items[n - 1], n - 1);
      forall k | k in ByKey(items, getKey, n) ensures exists i :: 0 <= i < n && getKey(items[i], i) == k {
        if k != last { assert k in ByKey(items, getKey, n - 1); }
      }
    }
  }

  /** The new item is kept exactly if an equal item stood anywhere in the previous list. */
  lemma KeptExact(previous: seq<Json>, next: seq<Json>, getKey: Key, i: nat)
    requires DistinctItems(previous, getKey) && ByContent(getKey) && i < |next|
    ensures Kept(previous, next, getKey, i) <==> exists j :: 0 <= j < |previous| && SameValue(previous[j], next[i]) && Truthy(previous[j])
    ensures Kept(previous, next, getKey, i) ==>
              var k := getKey(next[i], i);
              k in ByKey(previous, getKey, |previous|) && SameValue(ByKey(previous, getKey, |previous|)[k], next[i])
  {
    ByKeyFinds(previous, getKey, |previous|);
    var m, k := ByKey(previous, getKey, |previous|), getKey(next[i], i);
    if Kept(previous, next, getKey, i) {
      var j :| 0 <= j < |previous| && getKey(previous[j], j) == k;
      assert m[k] == previous[j];
    }
    if j :| 0 <= j < |previous| && SameValue(previous[j], next[i]) && Truthy(previous[j]) {
      assert getKey(previous[j], j) == k;
    }
  }

  /** The list shows the new items, position by position and up to key order. */
  predicate Faithful(result: seq<Json>, next: seq<Json>) {
    |result| == |next| && forall i :: 0 <= i < |result| ==> SameValue(result[i], next[i])
  }

  predicate KeysAgree(previous: seq<Json>, next: seq<Json>, getKey: Key) {
    |previous| == |next| && forall i :: 0 <= i < |next| ==> getKey(previous[i], i) == getKey(next[i], i)
  }

  predicate AllTruthy(items: seq<Json>) { forall i :: 0 <= i < |items| ==> Truthy(items[i]) }

  /** A flagged change gives the new items; without one, the old order is kept. */
  lemma FaithfulIfChanged(previous: seq<Json>, next: seq<Json>, getKey: Key)
    requires DistinctItems(previous, getKey) && ByContent(getKey)
    ensures Faithful(Reused(previous, next, getKey), next) <==> Changed(previous, next, getKey) || KeysAgree(previous, next, getKey)
  {
    ByKeyFinds(previous, getKey, |previous|);
    if !Changed(previous, next, getKey) && KeysAgree(previous, next, getKey) {
      forall i | 0 <= i < |next| ensures SameValue(previous[i], next[i]) {
        assert Kept(previous, next, getKey, i);
      }
    }
  }

  function Forms(items: seq<Json>): (r: seq<seq<Text>>)
    ensures |r| == |items| && forall i :: 0 <= i < |items| ==> r[i] == StableSerialize(items[i])
  {
    seq(|items|, i requires 0 <= i < |items| => StableSerialize(items[i]))
  }

  predicate NoRepeat<T(==)>(s: seq<T>) { forall i, j :: 0 <= i < j < |s| ==> s[i] != s[j] }

  lemma {:induction false} NoRepeatCounts<T>(s: seq<T>)
    requires NoRepeat(s)
    ensures forall x :: multiset(s)[x] == if x in s then 1 else 0
    ensures |(set x | x in s)| == |s|
  {
    if s != [] {
      NoRepeatCounts(s[1..]);
      assert s == [s[0]] + s[1..];
      assert s[0] !in s[1..];
      assert (set x | x in s) == (set x | x in s[1..]) + {s[0]};
    }
  }

  lemma FullSubset<T>(a: set<T>, b: set<T>)
    requires a <= b && |a| == |b|
    ensures a == b
  {
    assert b == a + (b - a);
  }

  /** Between lists without repetition, equally many items and inclusion make a permutation. */
  lemma PermutationExact<T>(a: seq<T>, b: seq<T>)
    requires NoRepeat(a) && NoRepeat(b)
    ensures multiset(a) == multiset(b) <==> |a| == |b| && forall i :: 0 <= i < |b| ==> b[i] in a
  {
    NoRepeatCounts(a);
    NoRepeatCounts(b);
    if |a| == |b| && forall i :: 0 <= i < |b| ==> b[i] in a {
      var sa, sb := set x | x in a, set x | x in b;
      FullSubset(sb, sa);
      forall x ensures multiset(a)[x] == multiset(b)[x] {
        assert (x in a <==> x in sa) && (x in b <==> x in sb);
      }
    }
    if multiset(a) == multiset(b) {
      forall i | 0 <= i < |b| ensures b[i] in a { assert multiset(b)[b[i]] == 1; }
      assert |multiset(a)| == |multiset(b)|;
    }
  }

  lemma FormsNoRepeat(items: seq<Json>, getKey: Key)
    requires DistinctItems(items, getKey) && ByContent(getKey)
    ensures NoRepeat(Forms(items))
  {
    var f := Forms(items);
    forall i, j | 0 <= i < j < |f| ensures f[i] != f[j] {
      assert getKey(items[i], i) != getKey(items[j], j);
      assert f[i] == f[j] <==> SameValue(items[i], items[j]);
    }
  }

  // ----- Main results -----

  lemma KeptIsThere(previous: seq<Json>, next: seq<Json>, getKey: Key, i: nat)
    requires DistinctItems(previous, getKey) && ByContent(getKey) && i < |next|
    ensures Kept(previous, next, getKey, i) <==> exists j :: 0 <= j < |previous| && Forms(previous)[j] == Forms(next)[i] && Truthy(previous[j])
  {
    KeptExact(previous, next, getKey, i);
    var p, n := Forms(previous), Forms(next);
    assert forall j :: 0 <= j < |previous| ==> (p[j] == n[i] <==> SameValue(previous[j], next[i]));
  }

  lemma SameMembers<T>(a: seq<T>, b: seq<T>, j: nat)
    requires multiset(a) == multiset(b) && j < |a|
    ensures a[j] in b
  {
    assert a[j] in multiset(a);
  }

  /** Without a change, every previous item stands, as a true value, for one of the new ones. */
  lemma UnchangedIsTruthy(previous: seq<Json>, next: seq<Json>, getKey: Key)
    requires DistinctItems(previous, getKey) && ByContent(getKey) && !Changed(previous, next, getKey)
    requires multiset(Forms(previous)) == multiset(Forms(next))
    ensures AllTruthy(previous)
  {
    FormsNoRepeat(previous, getKey);
    var p, n := Forms(previous), Forms(next);
    forall j | 0 <= j < |previous| ensures Truthy(previous[j]) {
      SameMembers(p, n, j);
      var i :| 0 <= i < |n| && n[i] == p[j];
      assert Kept(previous, next, getKey, i);
      KeptIsThere(previous, next, getKey, i);
    }
  }

  /** The previous list is returned exactly if its items are true values and the new list is a reordering of it, up to key order. */
  lemma ReusedExact(previous: seq<Json>, next: seq<Json>, getKey: Key)
    requires DistinctItems(previous, getKey) && DistinctItems(next, getKey) && ByContent(getKey)
    ensures !Changed(previous, next, getKey) <==> AllTruthy(previous) && multiset(Forms(previous)) == multiset(Forms(next))
  {
    FormsNoRepeat(previous, getKey);
    FormsNoRepeat(next, getKey);
    var p, n := Forms(previous), Forms(next);
    PermutationExact(p, n);
    forall i | 0 <= i < |next| ensures Kept(previous, next, getKey, i) ==> n[i] in p
      ensures AllTruthy(previous) && n[i] in p ==> Kept(previous, next, getKey, i)
    {
      KeptIsThere(previous, next, getKey, i);
    }
    if !Changed(previous, next, getKey) { UnchangedIsTruthy(previous, next, getKey); }
  }

  /**
   * The result is `next`, position by position and up to key order, exactly if `next` is not a reordering of the
   * previous list, or has the same keys position by position: a mere reordering is not noticed.
   */
  lemma FaithfulExact(previous: seq<Json>, next: seq<Json>, getKey: Key)
    requires DistinctItems(previous, getKey) && DistinctItems(next, getKey) && ByContent(getKey)
    ensures Faithful(Reused(previous, next, getKey), next)
       <==> multiset(Forms(previous)) != multiset(Forms(next)) || !AllTruthy(previous) || KeysAgree(previous, next, getKey)
  {
    FaithfulIfChanged(previous, next, getKey);
    ReusedExact(previous, next, getKey);
  }

  /** Whatever is reused, the result holds the new items, each as often as `next` does. */
  lemma ResultIsPermutation(previous: seq<Json>, next: seq<Json>, getKey: Key)
    requires DistinctItems(previous, getKey) && DistinctItems(next, getKey) && ByContent(getKey)
    ensures multiset(Forms(Reused(previous, next, getKey))) == multiset(Forms(next))
  {
    var r := Reused(previous, next, getKey);
    if Changed(previous, next, getKey) {
      FaithfulIfChanged(previous, next, getKey);
      assert Forms(r) == Forms(next);
    } else {
      FormsNoRepeat(previous, getKey);
      FormsNoRepeat(next, getKey);
      var p, n := Forms(previous), Forms(next);
      PermutationExact(p, n);
      forall i | 0 <= i < |n| ensures n[i] in p {
        assert Kept(previous, next, getKey, i);
        KeptExact(previous, next, getKey, i);
        var j :| 0 <= j < |previous| && SameValue(previous[j], next[i]);
        assert p[j] == n[i];
      }
    }
  }

  /** The keys, as fields without a value. */
  function Keys(items: seq<Json>, getKey: Key): (r: seq<Field>)
    ensures |r| == |items| && forall i :: 0 <= i < |items| ==> r[i] == Field(getKey(items[i], i), JNull)
  {
    seq(|items|, i requires 0 <= i < |items| => Field(getKey(items[i], i), JNull))
  }

  /** Lists strictly sorted by key, such as the trend's points by timestamp, come out as `next`, position by position. */
  lemma SortedListsAreFaithful(previous: seq<Json>, next: seq<Json>, getKey: Key)
    requires ByContent(getKey) && StrictlySorted(Keys(previous, getKey)) && StrictlySorted(Keys(next, getKey))
    ensures Faithful(Reused(previous, next, getKey), next)
  {
    SortedIsDistinct(previous, getKey);
    SortedIsDistinct(next, getKey);
    FaithfulIfChanged(previous, next, getKey);
    if !Changed(previous, next, getKey) {
      ResultIsPermutation(previous, next, getKey);
      SameKeys(previous, next, getKey);
      SameKeys(next, previous, getKey);
      SortedDetermined(Keys(previous, getKey), Keys(next, getKey));
      assert forall i :: 0 <= i < |next| ==> Keys(previous, getKey)[i] == Keys(next, getKey)[i];
    }
  }

  lemma SortedIsDistinct(items: seq<Json>, getKey: Key)
    requires StrictlySorted(Keys(items, getKey))
    ensures DistinctItems(items, getKey)
  {
    var ks := Keys(items, getKey);
    forall i, j | 0 <= i < j < |items| ensures getKey(items[i], i) != getKey(items[j], j) {
      assert Less(ks[i].key, ks[j].key);
      LessIsTotal(ks[i].key, ks[j].key);
    }
  }

  lemma SameKeys(xs: seq<Json>, ys: seq<Json>, getKey: Key)
    requires ByContent(getKey) && multiset(Forms(xs)) == multiset(Forms(ys))
    ensures forall g :: g in Keys(xs, getKey) ==> g in Keys(ys, getKey)
  {
    var fx, fy := Forms(xs), Forms(ys);
    forall g | g in Keys(xs, getKey) ensures g in Keys(ys, getKey) {
      var i :| 0 <= i < |xs| && Keys(xs, getKey)[i] == g;
      assert fx[i] in multiset(fx);
      assert fx[i] in fy;
      var j :| 0 <= j < |fy| && fy[j] == fx[i];
      assert SameValue(xs[i], ys[j]);
      assert Keys(ys, getKey)[j] == g;
    }
  }

  /** For lists of objects, as all the console's lists are, the previous list is returned exactly if the new one is a reordering of it. */
  lemma ObjectListsReused(previous: seq<Json>, next: seq<Json>, getKey: Key)
    requires DistinctItems(previous, getKey) && DistinctItems(next, getKey) && ByContent(getKey)
    requires forall v :: v in previous ==> v.JObj?
    ensures (Reused(previous, next, getKey) == previous && !Changed(previous, next, getKey)) <==> multiset(Forms(previous)) == multiset(Forms(next))
  {
    ReusedExact(previous, next, getKey);
    assert forall i :: 0 <= i < |previous| ==> previous[i] in previous;
  }

  /** Two items that swap places on a refresh stay in the old order. */
  lemma ReorderingIsDropped()
    ensures var a, b := JStr("a"), JStr("b");
            var getKey: Key := (v: Json, i: nat) => if v.JStr? then v.text else "";
            Reused([a, b], [b, a], getKey) == [a, b] && !SameValue(a, b)
  {
    var a, b := JStr("a"), JStr("b");
    var getKey: Key := (v: Json, i: nat) => if v.JStr? then v.text else "";
    assert ByKey([a, b], getKey, 1) == ByKey([a, b], getKey, 0)["a" := a];
    assert ByKey([a, b], getKey, 2) == map["a" := a, "b" := b];
    assert StableSerialize(a)[0] == TStr("a") && StableSerialize(b)[0] == TStr("b");
    assert Kept([a, b], [b, a], getKey, 0) && Kept([a, b], [b, a], getKey, 1);
  }
}
