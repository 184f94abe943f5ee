/**
 * The top-5 / bottom-5 cards: a stable sort of a copy of the records by
 * descending readiness (a missing score counts as 0), its first five
 * records, and its last five records in reverse order.
 */
module TopBottom {
  import opened Wrappers
  import opened Records

  /** The sort key: readiness, with a missing score read as 0. */
  function Key(c: CountrySummary): real {
    c.readiness.GetOr(0.0)
  }

  predicate Descending(s: seq<CountrySummary>) {
    forall i, j :: 0 <= i < j < |s| ==> Key(s[i]) >= Key(s[j])
  }

  predicate Ascending(s: seq<CountrySummary>) {
    forall i, j :: 0 <= i < j < |s| ==> Key(s[i]) <= Key(s[j])
  }

  /**
   * Places `x` after every record of `t` whose key is at least `x`'s: in a
   * descending `t`, where a stable sort puts a record that came after them.
   */
  function Insert(t: seq<CountrySummary>, x: CountrySummary): (r: seq<CountrySummary>)
    ensures |r| == |t| + 1
  {
    if t == [] then [x]
    else if Key(t[0]) >= Key(x) then [t[0]] + Insert(t[1..], x)
    else [x] + t
  }

  lemma {:induction false} InsertAddsRecord(t: seq<CountrySummary>, x: CountrySummary)
    ensures multiset(Insert(t, x)) == multiset(t) + multiset{x}
    decreases |t|
  {
    if t != [] && Key(t[0]) >= Key(x) {
      InsertAddsRecord(t[1..], x);
      assert t == [t[0]] + t[1..];
    }
  }

  lemma {:induction false} InsertDrawsFrom(t: seq<CountrySummary>, x: CountrySummary)
    ensures forall c | c in Insert(t, x) :: c == x || c in t
    decreases |t|
  {
    if t != [] && Key(t[0]) >= Key(x) {
      InsertDrawsFrom(t[1..], x);
    }
  }

  lemma {:induction false} InsertKeepsDescending(t: seq<CountrySummary>, x: CountrySummary)
    requires Descending(t)
    ensures Descending(Insert(t, x))
    decreases |t|
  {
    if t != [] && Key(t[0]) >= Key(x) {
      var rest := Insert(t[1..], x);
      InsertKeepsDescending(t[1..], x);
      InsertDrawsFrom(t[1..], x);
      forall j | 0 <= j < |rest| ensures Key(t[0]) >= Key(rest[j]) {
        assert rest[j] in rest;
        if rest[j] != x {
          var k :| 0 <= k < |t[1..]| && t[1..][k] == rest[j];
          assert t[k + 1] == rest[j];
        }
      }
      assert Insert(t, x) == [t[0]] + rest;
    }
  }

  /** `[...data].sort((a, b) => key(b) - key(a))`: the stable descending sort of a copy. */
  function Sort(data: seq<CountrySummary>): (r: seq<CountrySummary>)
    ensures |r| == |data|
  {
    if data == [] then []
    else
      var n := |data| - 1;
      Insert(Sort(data[..n]), data[n])
  }

  /** The sorted copy is in descending order of readiness. */
  lemma {:induction false} SortIsDescending(data: seq<CountrySummary>)
    ensures Descending(Sort(data))
    decreases |data|
  {
    if data != [] {
      var n := |data| - 1;
      SortIsDescending(data[..n]);
      InsertKeepsDescending(Sort(data[..n]), data[n]);
    }
  }

  /** The sorted copy holds exactly the records of `data`. */
  lemma {:induction false} SortIsPermutation(data: seq<CountrySummary>)
    ensures multiset(Sort(data)) == multiset(data)
    decreases |data|
  {
    if data != [] {
      var n := |data| - 1;
      var prefix, last := data[..n], data[n];
      calc {
        multiset(Sort(data));
        multiset(Insert(Sort(prefix), last));
        { InsertAddsRecord(Sort(prefix), last); }
        multiset(Sort(prefix)) + multiset{last};
        { SortIsPermutation(prefix); }
        multiset(prefix) + multiset{last};
        { MultisetSnoc(prefix, last); assert data == prefix + [last]; }
        multiset(data);
      }
    }
  }

  lemma MultisetSnoc(s: seq<CountrySummary>, x: CountrySummary)
    ensures multiset(s + [x]) == multiset(s) + multiset{x}
  {
  }

  /** The records with key `v`, in their order. */
  function WithKey(s: seq<CountrySummary>, v: real): seq<CountrySummary> {
    if s == [] then []
    else (if Key(s[0]) == v then [s[0]] else []) + WithKey(s[1..], v)
  }

  lemma {:induction false} WithKeyConcat(a: seq<CountrySummary>, b: seq<CountrySummary>, v: real)
    ensures WithKey(a + b, v) == WithKey(a, v) + WithKey(b, v)
    decreases |a|
  {
    if a == [] {
      assert a + b == b;
    } else {
      var h := if Key(a[0]) == v then [a[0]] else [];
      assert (a + b)[0] == a[0] && (a + b)[1..] == a[1..] + b;
      assert WithKey(a + b, v) == h + WithKey(a[1..] + b, v);
      WithKeyConcat(a[1..], b, v);
      assert WithKey(a, v) == h + WithKey(a[1..], v);
    }
  }

  /** When every key in `s` is below `v`, no record of `s` has key `v`. */
  lemma {:induction false} NoneWithKey(s: seq<CountrySummary>, v: real)
    requires forall c | c in s :: Key(c) < v
    ensures WithKey(s, v) == []
    decreases |s|
  {
    if s != [] {
      assert s[0] in s;
      NoneWithKey(s[1..], v);
    }
  }

  lemma WithKeyCons(a: CountrySummary, s: seq<CountrySummary>, v: real)
    ensures WithKey([a] + s, v) == (if Key(a) == v then [a] else []) + WithKey(s, v)
  {
    assert ([a] + s)[1..] == s;
  }

  /** The head of a non-empty descending sequence has the largest key. */
  lemma HeadIsLargest(t: seq<CountrySummary>)
    requires Descending(t) && t != []
    ensures forall c | c in t :: Key(c) <= Key(t[0])
  {
    forall c | c in t ensures Key(c) <= Key(t[0]) {
      var i :| 0 <= i < |t| && t[i] == c;
      assert i == 0 || Key(t[0]) >= Key(t[i]);
    }
  }

  lemma InsertBeforeHead(t: seq<CountrySummary>, x: CountrySummary, v: real)
    requires Descending(t) && t != [] && Key(t[0]) < Key(x)
    ensures WithKey(Insert(t, x), v) == WithKey(t, v) + (if Key(x) == v then [x] else [])
  {
    assert Insert(t, x) == [x] + t;
    WithKeyCons(x, t, v);
    if Key(x) == v {
      HeadIsLargest(t);
      NoneWithKey(t, v);
    }
  }

  /** Inserting `x` appends it to the records with its key and leaves the other keys' records alone. */
  lemma {:induction false} InsertKeepsKeyOrder(t: seq<CountrySummary>, x: CountrySummary, v: real)
    requires Descending(t)
    ensures WithKey(Insert(t, x), v) == WithKey(t, v) + (if Key(x) == v then [x] else [])
    decreases |t|
  {
    if t == [] {
      WithKeyCons(x, [], v);
      assert [x] + [] == [x];
    } else if Key(t[0]) >= Key(x) {
      assert Descending(t[1..]);
      InsertKeepsKeyOrder(t[1..], x, v);
      InsertAfterHead(t, x, v);
    } else {
      InsertBeforeHead(t, x, v);
    }
  }

  /** When `x` goes past the head, the head stays first and the claim reduces to the tail. */
  lemma InsertAfterHead(t: seq<CountrySummary>, x: CountrySummary, v: real)
    requires t != [] && Key(t[0]) >= Key(x)
    requires WithKey(Insert(t[1..], x), v) == WithKey(t[1..], v) + (if Key(x) == v then [x] else [])
    ensures WithKey(Insert(t, x), v) == WithKey(t, v) + (if Key(x) == v then [x] else [])
  {
    var tail := t[1..];
    var h, e := (if Key(t[0]) == v then [t[0]] else []), (if Key(x) == v then [x] else []);
    calc {
      WithKey(Insert(t, x), v);
      WithKey([t[0]] + Insert(tail, x), v);
      { WithKeyCons(t[0], Insert(tail, x), v); }
      h + WithKey(Insert(tail, x), v);
      h + (WithKey(tail, v) + e);
      (h + WithKey(tail, v)) + e;
      { WithKeyCons(t[0], tail, v); assert [t[0]] + tail == t; }
      WithKey(t, v) + e;
    }
  }

  /** The sort is stable: records with equal readiness keep the order they had in `data`. */
  lemma {:induction false} SortIsStable(data: seq<CountrySummary>, v: real)
    ensures WithKey(Sort(data), v) == WithKey(data, v)
    decreases |data|
  {
    if data != [] {
      var n := |data| - 1;
      var prefix, last := data[..n], data[n];
      var e := if Key(last) == v then [last] else [];
      calc {
        WithKey(Sort(data), v);
        WithKey(Insert(Sort(prefix), last), v);
        { SortIsDescending(prefix); InsertKeepsKeyOrder(Sort(prefix), last, v); }
        WithKey(Sort(prefix), v) + e;
        { SortIsStable(prefix, v); }
        WithKey(prefix, v) + e;
        { WithKeyCons(last, [], v); assert [last] + [] == [last]; }
        WithKey(prefix, v) + WithKey([last], v);
        { WithKeyConcat(prefix, [last], v); }
        WithKey(prefix + [last], v);
        { assert data == prefix + [last]; }
        WithKey(data, v);
      }
    }
  }

  function Min(a: nat, b: nat): nat {
    if a <= b then a else b
  }

  function Reverse<T>(s: seq<T>): (r: seq<T>)
    ensures |r| == |s|
    ensures forall i :: 0 <= i < |s| ==> r[i] == s[|s| - 1 - i]
  {
    if s == [] then [] else Reverse(s[1..]) + [s[0]]
  }

  lemma {:induction false} ReverseIsPermutation<T>(s: seq<T>)
    ensures multiset(Reverse(s)) == multiset(s)
    decreases |s|
  {
    if s != [] {
      ReverseIsPermutation(s[1..]);
      assert s == [s[0]] + s[1..];
    }
  }

  /** `sorted.slice(0, 5)` */
  function Top5(sorted: seq<CountrySummary>): (r: seq<CountrySummary>)
    ensures |r| == Min(5, |sorted|)
  {
    sorted[..Min(5, |sorted|)]
  }

  /** `sorted.slice(-5).reverse()` */
  function Bottom5(sorted: seq<CountrySummary>): (r: seq<CountrySummary>)
    ensures |r| == Min(5, |sorted|)
  {
    Reverse(sorted[|sorted| - Min(5, |sorted|)..])
  }

  datatype Cards = Cards(top: seq<CountrySummary>, bottom: seq<CountrySummary>)

  /** The two card lists derived from the data: each holds `min(5, n)` records. */
  function TopBottomCards(data: seq<CountrySummary>): (r: Cards)
    ensures |r.top| == |r.bottom| == Min(5, |data|)
  {
    var sorted := Sort(data);
    Cards(Top5(sorted), Bottom5(sorted))
  }

  /**
   * The top card is the first `min(5, n)` records of the descending order,
   * each scoring at least as high as every record left off it.
   */
  lemma TopCardHoldsHighest(data: seq<CountrySummary>)
    ensures var sorted := Sort(data);
            var top := TopBottomCards(data).top;
            && top == sorted[..Min(5, |sorted|)]
            && Descending(top)
            && forall i, j :: 0 <= i < |top| <= j < |sorted| ==> Key(top[i]) >= Key(sorted[j])
  {
    SortIsDescending(data);
  }

  /**
   * The bottom card is the last `min(5, n)` records of the descending order,
   * lowest first, so it is non-decreasing, and each of its records scores at
   * most as high as every record before them.
   */
  lemma BottomCardHoldsLowest(data: seq<CountrySummary>)
    ensures var sorted := Sort(data);
            var bottom := TopBottomCards(data).bottom;
            var k := Min(5, |sorted|);
            && |bottom| == k
            && (forall i :: 0 <= i < k ==> bottom[i] == sorted[|sorted| - 1 - i])
            && Ascending(bottom)
            && forall i, j :: 0 <= i < k && 0 <= j < |sorted| - k ==> Key(bottom[i]) <= Key(sorted[j])
  {
    SortIsDescending(data);
    Bottom5Ascends(Sort(data));
  }

  /** The bottom five of a descending sequence, lowest first, ascend and sit below the rest. */
  lemma Bottom5Ascends(sorted: seq<CountrySummary>)
    requires Descending(sorted)
    ensures var bottom := Bottom5(sorted);
            var k := Min(5, |sorted|);
            && |bottom| == k
            && (forall i :: 0 <= i < k ==> bottom[i] == sorted[|sorted| - 1 - i])
            && Ascending(bottom)
            && forall i, j :: 0 <= i < k && 0 <= j < |sorted| - k ==> Key(bottom[i]) <= Key(sorted[j])
  {
    var bottom := Bottom5(sorted);
    assert forall i :: 0 <= i < Min(5, |sorted|) ==> bottom[i] == sorted[|sorted| - 1 - i];
  }

  /** With at most five records both cards list every record. */
  lemma SmallDataOnBothCards(data: seq<CountrySummary>)
    requires |data| <= 5
    ensures multiset(TopBottomCards(data).top) == multiset(data)
    ensures multiset(TopBottomCards(data).bottom) == multiset(data)
  {
    var sorted := Sort(data);
    SortIsPermutation(data);
    assert sorted[..|sorted|] == sorted;
    assert sorted[0..] == sorted;
    ReverseIsPermutation(sorted);
  }
}
