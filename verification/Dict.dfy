/** Dictionaries that keep the order in which their keys came in. */
module Dict {

  datatype Entry<K, V> = Entry(key: K, value: V)

  type Dict<K, V> = seq<Entry<K, V>>

  /** Where a key is, or the end. */
  function Find<K(==), V>(d: Dict<K, V>, k: K): (i: nat)
    ensures i <= |d|
    ensures i < |d| ==> d[i].key == k
    ensures forall j | 0 <= j < i :: d[j].key != k
  {
    if d == [] then 0 else if d[0].key == k then 0 else Find(d[1..], k) + 1
  }

  predicate Has<K(==), V>(d: Dict<K, V>, k: K) { Find(d, k) < |d| }

  function Get<K(==), V>(d: Dict<K, V>, k: K, default: V): V {
    if Has(d, k) then d[Find(d, k)].value else default
  }

  /** A known key keeps its place, a new one goes to the end. */
  function Put<K(==), V>(d: Dict<K, V>, k: K, v: V): Dict<K, V> {
    var i := Find(d, k);
    if i < |d| then d[i := Entry(k, v)] else d + [Entry(k, v)]
  }

  predicate Unique<K(==), V>(d: Dict<K, V>) {
    forall i, j | 0 <= i < j < |d| :: d[i].key != d[j].key
  }

  lemma PutUnique<K, V>(d: Dict<K, V>, k: K, v: V)
    requires Unique(d)
    ensures Unique(Put(d, k, v))
  {
  }

  lemma FindIs<K, V>(d: Dict<K, V>, k: K, i: nat)
    requires i <= |d| && (i < |d| ==> d[i].key == k) && forall j | 0 <= j < i :: d[j].key != k
    ensures Find(d, k) == i
  {
    assert Find(d, k) < |d| ==> d[Find(d, k)].key == k;
  }

  lemma GetPut<K, V>(d: Dict<K, V>, k: K, v: V, x: K, default: V)
    ensures Get(Put(d, k, v), x, default) == if x == k then v else Get(d, x, default)
    ensures Has(Put(d, k, v), x) <==> x == k || Has(d, x)
  {
    var i := Find(d, k);
    if x == k {
      FindIs(Put(d, k, v), x, i);
    } else if Has(d, x) {
      FindIs(Put(d, k, v), x, Find(d, x));
    } else {
      FindIs(Put(d, k, v), x, |Put(d, k, v)|);
    }
  }

  /** Add up something over all entries. */
  function Sum<K, V>(d: Dict<K, V>, f: (K, V) -> int): int {
    if d == [] then 0 else f(d[0].key, d[0].value) + Sum(d[1..], f)
  }

  lemma {:induction false} SumConcat<K, V>(a: Dict<K, V>, b: Dict<K, V>, f: (K, V) -> int)
    ensures Sum(a + b, f) == Sum(a, f) + Sum(b, f)
  {
    if a == [] {
      assert a + b == b;
    } else {
      assert (a + b)[1..] == a[1..] + b;
      SumConcat(a[1..], b, f);
    }
  }

  /** A write changes a sum by the new entry less the one it replaces. */
  lemma SumPut<K, V>(d: Dict<K, V>, k: K, v: V, f: (K, V) -> int)
    ensures Sum(Put(d, k, v), f) == Sum(d, f) + f(k, v) - if Has(d, k) then f(k, d[Find(d, k)].value) else 0
  {
    var i := Find(d, k);
    if i < |d| {
      assert d == d[..i] + ([d[i]] + d[i + 1..]);
      assert d[i := Entry(k, v)] == d[..i] + ([Entry(k, v)] + d[i + 1..]);
      SumConcat(d[..i], [d[i]] + d[i + 1..], f);
      SumConcat(d[..i], [Entry(k, v)] + d[i + 1..], f);
      SumOne(d[i], d[i + 1..], f);
      SumOne(Entry(k, v), d[i + 1..], f);
    } else {
      SumConcat(d, [Entry(k, v)], f);
      SumOne(Entry(k, v), [], f);
      assert [Entry(k, v)] + [] == [Entry(k, v)];
    }
  }

  lemma SumOne<K, V>(e: Entry<K, V>, d: Dict<K, V>, f: (K, V) -> int)
    ensures Sum([e] + d, f) == f(e.key, e.value) + Sum(d, f)
  {
    assert ([e] + d)[1..] == d;
  }

  lemma SumSnoc<K, V>(d: Dict<K, V>, i: nat, f: (K, V) -> int)
    requires i < |d|
    ensures Sum(d[..i + 1], f) == Sum(d[..i], f) + f(d[i].key, d[i].value)
  {
    assert d[..i + 1] == d[..i] + ([d[i]] + []);
    SumConcat(d[..i], [d[i]] + [], f);
    SumOne(d[i], [], f);
  }

  // ---- counters ----------------------------------------------------------------------

  /** `d[k] = d.get(k, 0) + n` */
  function Bump<K(==)>(d: Dict<K, int>, k: K, n: int): Dict<K, int> {
    Put(d, k, Get(d, k, 0) + n)
  }

  function All<K>(): (K, int) -> int { (k: K, n: int) => n }

  lemma SumBump<K>(d: Dict<K, int>, k: K, n: int)
    ensures Sum(Bump(d, k, n), All()) == Sum(d, All()) + n
  {
    SumPut(d, k, Get(d, k, 0) + n, All());
  }

  predicate Counters<K>(d: Dict<K, int>) {
    forall i | 0 <= i < |d| :: d[i].value >= 0
  }

  lemma {:induction false} PartOfSum<K>(d: Dict<K, int>, n: nat)
    requires Counters(d) && n <= |d|
    ensures 0 <= Sum(d[..n], All()) <= Sum(d, All())
  {
    assert d == d[..n] + d[n..];
    SumConcat(d[..n], d[n..], All());
    SumPositive(d[..n]);
    SumPositive(d[n..]);
  }

  lemma {:induction false} SumPositive<K>(d: Dict<K, int>)
    requires Counters(d)
    ensures Sum(d, All()) >= 0
  {
    if d != [] { SumPositive(d[1..]); }
  }

  // ---- the largest first ------------------------------------------------------------------

  /** Stable: behind everything at least as large. */
  function Insert<K>(e: Entry<K, int>, d: Dict<K, int>): Dict<K, int> {
    if d == [] then [e]
    else if d[0].value >= e.value then [d[0]] + Insert(e, d[1..])
    else [e] + d
  }

  function Sorted<K>(d: Dict<K, int>): (r: Dict<K, int>)
    ensures |r| == |d|
  {
    if d == [] then []
    else
      var r := Sorted(d[..|d| - 1]);
      InsertGrows(d[|d| - 1], r);
      Insert(d[|d| - 1], r)
  }

  lemma {:induction false} InsertGrows<K>(e: Entry<K, int>, d: Dict<K, int>)
    ensures |Insert(e, d)| == |d| + 1
  {
    if d != [] { InsertGrows(e, d[1..]); }
  }

  predicate Falling<K>(d: Dict<K, int>) {
    forall i, j | 0 <= i < j < |d| :: d[i].value >= d[j].value
  }

  lemma {:induction false} InsertSums<K>(e: Entry<K, int>, d: Dict<K, int>, f: (K, int) -> int)
    ensures multiset(Insert(e, d)) == multiset(d) + multiset{e}
    ensures Sum(Insert(e, d), f) == Sum(d, f) + f(e.key, e.value)
  {
    if d != [] && d[0].value >= e.value {
      InsertSums(e, d[1..], f);
      assert d == [d[0]] + d[1..];
      SumOne(d[0], Insert(e, d[1..]), f);
    } else {
      SumOne(e, d, f);
      assert d == [] ==> [e] + d == [e];
    }
  }

  lemma {:induction false} InsertFalls<K>(e: Entry<K, int>, d: Dict<K, int>)
    requires Falling(d)
    ensures Falling(Insert(e, d))
    ensures forall x | x in Insert(e, d) :: x == e || x in d
  {
    if d != [] && d[0].value >= e.value {
      var rest := Insert(e, d[1..]);
      InsertFalls(e, d[1..]);
      forall j | 0 <= j < |rest| ensures d[0].value >= rest[j].value {
        assert rest[j] in rest;
      }
    }
  }

  /** Sorting permutes, and puts the largest first. */
  lemma {:induction false} SortedKeeps<K>(d: Dict<K, int>, f: (K, int) -> int)
    ensures Falling(Sorted(d)) && multiset(Sorted(d)) == multiset(d) && Sum(Sorted(d), f) == Sum(d, f)
  {
    hide Insert, Falling, Sum;
    if d == [] {
      Nothing<K>();
    } else {
      var n := |d| - 1;
      SortedKeeps(d[..n], f);
      InsertSums(d[n], Sorted(d[..n]), f);
      InsertFalls(d[n], Sorted(d[..n]));
      SumSnoc(d, n, f);
      assert d == d[..n + 1] && d == d[..n] + [d[n]];
    }
  }

  lemma Nothing<K>()
    ensures Falling<K>([])
  {
  }

  /** The n largest. */
  function Top<K>(d: Dict<K, int>, n: nat): Dict<K, int> {
    var s := Sorted(d);
    if |s| > n then s[..n] else s
  }

  /** What is cut off is never more than what is kept, and never negative in
      sum. */
  lemma TopPart<K>(d: Dict<K, int>, n: nat)
    requires Counters(d)
    ensures 0 <= Sum(Top(d, n), All()) <= Sum(d, All())
    ensures |Top(d, n)| <= n && (|d| <= n ==> Sum(Top(d, n), All()) == Sum(d, All()))
    ensures Counters(Top(d, n))
    ensures forall i, j | 0 <= i < |Top(d, n)| && n <= j < |d| :: Top(d, n)[i].value >= Sorted(d)[j].value
  {
    SortedKeeps(d, All());
    var s := Sorted(d);
    forall i | 0 <= i < |s| ensures s[i].value >= 0 {
      assert s[i] in multiset(s);
      assert s[i] in d;
    }
    PartOfSum(s, if |s| > n then n else |s|);
    assert s[..|s|] == s;
  }

  /** At most n entries are listed; whoever is listed has its value, and whoever
      has a value and is not listed is no larger than the n that are. */
  predicate Lists<K(==)>(top: Dict<K, int>, n: nat, k: K, value: int) {
    && |top| <= n
    && (forall i | 0 <= i < |top| && top[i].key == k :: top[i].value == value)
    && ((forall i | 0 <= i < |top| :: top[i].key != k) ==>
          value == 0 || (|top| == n && forall i | 0 <= i < |top| :: top[i].value >= value))
  }

  lemma TopLists<K>(d: Dict<K, int>, n: nat, k: K)
    requires Unique(d)
    ensures Lists(Top(d, n), n, k, Get(d, k, 0))
  {
    hide Sorted, Find;
    SortedKeeps(d, All());
    var s, top := Sorted(d), Top(d, n);
    forall i | 0 <= i < |top| && top[i].key == k ensures top[i].value == Get(d, k, 0) {
      assert s[i] in multiset(s);
      assert s[i] in d;
      var j :| 0 <= j < |d| && d[j] == s[i];
      FindIs(d, k, j);
    }
    var j := Find(d, k);
    if j < |d| && forall i | 0 <= i < |top| :: top[i].key != k {
      assert d[j] in multiset(d);
      assert d[j] in s;
      var m :| 0 <= m < |s| && s[m] == d[j];
      assert m < |top| ==> top[m] == s[m];
    }
  }

  /** Of two with the same value the one that came in first stands first. */
  predicate Stable<K(==)>(s: Dict<K, int>, d: Dict<K, int>) {
    forall i, j | 0 <= i < j < |s| && s[i].value == s[j].value :: Find(d, s[i].key) < Find(d, s[j].key)
  }

  lemma {:induction false} InsertAt<K>(e: Entry<K, int>, s: Dict<K, int>) returns (p: nat)
    requires Falling(s)
    ensures p <= |s| && Insert(e, s) == s[..p] + [e] + s[p..]
    ensures (forall i | 0 <= i < p :: s[i].value >= e.value) && forall i | p <= i < |s| :: s[i].value < e.value
  {
    p := 0;
    if s != [] && s[0].value >= e.value {
      var q := InsertAt(e, s[1..]);
      p := q + 1;
    }
  }

  lemma FindBefore<K>(d: Dict<K, int>, n: nat, k: K)
    requires n <= |d| && Has(d[..n], k)
    ensures Find(d, k) == Find(d[..n], k) < n
  {
    FindIs(d, k, Find(d[..n], k));
  }

  lemma SortedHas<K>(d: Dict<K, int>)
    ensures forall e | e in Sorted(d) :: Has(d, e.key)
    ensures Falling(Sorted(d))
  {
    hide Sorted;
    SortedKeeps(d, All());
    forall e | e in Sorted(d) ensures Has(d, e.key) {
      assert e in multiset(Sorted(d));
      var j :| 0 <= j < |d| && d[j] == e;
    }
  }

  lemma {:induction false} SortedStable<K>(d: Dict<K, int>)
    requires Unique(d)
    ensures Stable(Sorted(d), d)
  {
    hide Find, Insert, Falling, Unique;
    if d != [] {
      var n := |d| - 1;
      var s, e := Sorted(d[..n]), d[n];
      assert Unique(d[..n]) by { UniquePrefix(d, n); }
      SortedStable(d[..n]);
      SortedHas(d[..n]);
      LastFound(d);
      forall i | 0 <= i < |s| ensures Find(d, s[i].key) == Find(d[..n], s[i].key) < n {
        assert s[i] in s;
        FindBefore(d, n, s[i].key);
      }
      var p := InsertAt(e, s);
      StableInsert(s, e, p, d);
    }
  }

  lemma UniquePrefix<K>(d: Dict<K, int>, n: nat)
    requires Unique(d) && n <= |d|
    ensures Unique(d[..n])
  {
  }

  lemma LastFound<K>(d: Dict<K, int>)
    requires Unique(d) && d != []
    ensures Find(d, d[|d| - 1].key) == |d| - 1
  {
    FindIs(d, d[|d| - 1].key, |d| - 1);
  }

  lemma StableInsert<K>(s: Dict<K, int>, e: Entry<K, int>, p: nat, d: Dict<K, int>)
    requires p <= |s| && (forall i | p <= i < |s| :: s[i].value < e.value) && Stable(s, d)
    requires forall i | 0 <= i < |s| :: Find(d, s[i].key) < Find(d, e.key)
    ensures Stable(s[..p] + [e] + s[p..], d)
  {
    hide Find;
  }

  /** Every entry stands somewhere in the sorted list. */
  lemma SortedAt<K>(d: Dict<K, int>, j: nat) returns (m: nat)
    requires j < |d|
    ensures m < |d| && Sorted(d)[m] == d[j]
  {
    hide Sorted;
    SortedKeeps(d, All());
    var s := Sorted(d);
    assert d[j] in multiset(d);
    assert d[j] in s;
    m :| 0 <= m < |s| && s[m] == d[j];
  }

  lemma CutLater<K>(d: Dict<K, int>, n: nat, i: nat, j: nat)
    requires Unique(d) && i < |Top(d, n)| && j < |d| && d[j].value == Top(d, n)[i].value
    requires forall m | 0 <= m < |Top(d, n)| :: Top(d, n)[m].key != d[j].key
    ensures Find(d, Top(d, n)[i].key) < j
  {
    hide Sorted, Find;
    SortedStable(d);
    var m := SortedAt(d, j);
    FindIs(d, d[j].key, j);
  }

  /** What is listed is in falling order, first come first, and who is cut off
      with the value of one that is listed came in later. */
  lemma TopOrder<K>(d: Dict<K, int>, n: nat)
    requires Unique(d)
    ensures Falling(Top(d, n)) && Stable(Top(d, n), d)
    ensures forall i, j | 0 <= i < |Top(d, n)| && 0 <= j < |d| && d[j].value == Top(d, n)[i].value
                          && (forall m | 0 <= m < |Top(d, n)| :: Top(d, n)[m].key != d[j].key) ::
              Find(d, Top(d, n)[i].key) < j
  {
    hide Sorted, Find, Unique;
    SortedKeeps(d, All());
    SortedStable(d);
    hide Top;
    forall i, j | 0 <= i < |Top(d, n)| && 0 <= j < |d| && d[j].value == Top(d, n)[i].value
                  && (forall m | 0 <= m < |Top(d, n)| :: Top(d, n)[m].key != d[j].key)
      ensures Find(d, Top(d, n)[i].key) < j
    {
      CutLater(d, n, i, j);
    }
  }
}
