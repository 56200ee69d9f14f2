/** The Redis data structures the broker's scripts work on: lists, and sorted sets read in score order. */
module Redis {

  datatype Option<+T> = None | Some(value: T)

  /** A job id, represented by its rank in the byte order Redis uses to break ties between equal scores. */
  type Id = nat

  /** A sorted set: each member once, with its score. */
  type ZSet = map<Id, int>

  /** LREM with count 0: every occurrence of `x` goes. */
  function RemoveAll(l: seq<Id>, x: Id): (r: seq<Id>)
    ensures forall y :: y in r <==> y in l && y != x
  {
    if l == [] then []
    else if l[0] == x then RemoveAll(l[1..], x)
    else [l[0]] + RemoveAll(l[1..], x)
  }

  /** ZREM of one member. */
  function ZRem(z: ZSet, id: Id): ZSet {
    map k | k in z && k != id :: z[k]
  }

  /** Score order, ties broken by member: the order of every sorted-set range. */
  predicate Before(z: ZSet, a: Id, b: Id)
    requires a in z && b in z
  {
    z[a] < z[b] || (z[a] == z[b] && a < b)
  }

  lemma {:induction false} FirstExists(z: ZSet) returns (m: Id)
    requires z != map[]
    ensures m in z && forall k :: k in z && k != m ==> Before(z, m, k)
    decreases |z|
  {
    m :| m in z;
    var rest := ZRem(z, m);
    assert z.Keys == rest.Keys + {m};
    if rest != map[] {
      var n := FirstExists(rest);
      assert forall k :: k in rest && k != n ==> Before(rest, n, k);
      if Before(z, n, m) { m := n; }
    }
  }

  lemma FirstIsThere(z: ZSet)
    requires z != map[]
    ensures exists m :: m in z && forall k :: k in z && k != m ==> Before(z, m, k)
  {
    var m := FirstExists(z);
  }

  function First(z: ZSet): (m: Id)
    requires z != map[]
    ensures m in z && forall k :: k in z && k != m ==> Before(z, m, k)
  {
    FirstIsThere(z);
    var m :| m in z && forall k :: k in z && k != m ==> Before(z, m, k);
    m
  }

  /** All members in score order. */
  function Ordered(z: ZSet): (r: seq<Id>)
    ensures forall id {:trigger id in r} :: id in r <==> id in z
    ensures |r| == |z|
    decreases |z|
  {
    if z == map[] then []
    else
      var m := First(z);
      var rest := ZRem(z, m);
      assert z.Keys == rest.Keys + {m};
      [m] + Ordered(rest)
  }

  /** In score order, hence without repetition. */
  ghost predicate InOrder(z: ZSet, s: seq<Id>) {
    && (forall id :: id in s ==> id in z)
    && (forall i, j :: 0 <= i < j < |s| ==> Before(z, s[i], s[j]))
  }

  lemma {:induction false} OrderedInOrder(z: ZSet)
    ensures InOrder(z, Ordered(z))
    decreases |z|
  {
    if z != map[] {
      var m := First(z);
      var rest := ZRem(z, m);
      assert z.Keys == rest.Keys + {m};
      OrderedInOrder(rest);
      var r := Ordered(rest);
      forall i, j | 0 <= i < j < |[m] + r| ensures Before(z, ([m] + r)[i], ([m] + r)[j]) {
        assert r[j - 1] in rest;
        if i > 0 { assert Before(rest, r[i - 1], r[j - 1]); }
      }
    }
  }

  function DueSet(z: ZSet, now: int): ZSet {
    map k | k in z && z[k] <= now :: z[k]
  }

  /** ZRANGEBYSCORE -inf now LIMIT 0 limit; a negative limit means no limit. */
  function DueIds(z: ZSet, now: int, limit: int): seq<Id> {
    var due := Ordered(DueSet(z, now));
    if limit < 0 || |due| <= limit then due else due[..limit]
  }

  predicate Distinct<T(==)>(s: seq<T>) {
    forall i, j :: 0 <= i < j < |s| ==> s[i] != s[j]
  }

  lemma DueInOrder(z: ZSet, now: int)
    ensures InOrder(z, Ordered(DueSet(z, now)))
  {
    var d := DueSet(z, now);
    OrderedInOrder(d);
    var due := Ordered(d);
    forall i, j | 0 <= i < j < |due| ensures Before(z, due[i], due[j]) {
      assert Before(d, due[i], due[j]);
    }
  }

  lemma InOrderDistinct(z: ZSet, s: seq<Id>)
    requires InOrder(z, s)
    ensures Distinct(s)
  {
    forall i, j | 0 <= i < j < |s| ensures s[i] != s[j] { assert Before(z, s[i], s[j]); }
  }

  /**
   * A batch holds due members only, earliest first, ties in member order, and each once; it is as long as the limit
   * allows; and a due member it leaves out comes after every member it takes.
   */
  lemma DueIdsExact(z: ZSet, now: int, limit: int)
    ensures var ids := DueIds(z, now, limit);
            && InOrder(z, ids) && Distinct(ids)
            && (forall id :: id in ids ==> id in z && z[id] <= now)
            && |ids| == (if limit < 0 || |DueSet(z, now)| <= limit then |DueSet(z, now)| else limit)
    ensures var ids := DueIds(z, now, limit);
            forall i, j :: 0 <= i < j < |ids| ==> ids[i] in z && ids[j] in z && (z[ids[i]] < z[ids[j]] || (z[ids[i]] == z[ids[j]] && ids[i] < ids[j]))
    ensures limit < 0 || |DueSet(z, now)| <= limit ==>
              forall id :: id in z && z[id] <= now ==> id in DueIds(z, now, limit)
    ensures forall a, b :: a in DueIds(z, now, limit) && b in z && z[b] <= now && b !in DueIds(z, now, limit) ==>
              a in z && (z[a] < z[b] || (z[a] == z[b] && a < b))
  {
    var due := Ordered(DueSet(z, now));
    DueInOrder(z, now);
    var ids := DueIds(z, now, limit);
    assert forall id :: id in ids ==> id in due;
    assert forall n :: 0 <= n < |ids| ==> ids[n] == due[n];
    assert InOrder(z, ids);
    InOrderDistinct(z, ids);
    forall a, b | a in ids && b in due && b !in ids ensures a in z && b in z && Before(z, a, b) {
      var i :| 0 <= i < |ids| && ids[i] == a;
      var j :| 0 <= j < |due| && due[j] == b;
      assert Before(z, due[i], due[j]);
    }
  }
}
