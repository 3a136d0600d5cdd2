/** Bounded least-recently-used tables: the value-level specification, its meaning
    in terms of the history of uses, and the list-plus-map structure shared by
    core/agentgraph/doomloop.go and core/advice/cache.go. */
module Lru {
  import opened Wrappers

  // ---- sequences without duplicates ----

  function Remove<T(==)>(s: seq<T>, x: T): seq<T> {
    if |s| == 0 then []
    else if s[0] == x then s[1..]
    else [s[0]] + Remove(s[1..], x)
  }

  predicate NoDup<T(==)>(s: seq<T>) {
    forall i, j :: 0 <= i < j < |s| ==> s[i] != s[j]
  }

  function Take<T>(s: seq<T>, n: nat): seq<T> {
    if |s| <= n then s else s[..n]
  }

  lemma {:induction false} RemoveAt<T>(s: seq<T>, x: T, i: nat)
    requires NoDup(s) && i < |s| && s[i] == x
    ensures Remove(s, x) == s[..i] + s[i + 1..]
  {
    if s[0] == x {
      assert i == 0;
    } else {
      RemoveAt(s[1..], x, i - 1);
      assert s[..i] == [s[0]] + s[1..][..i - 1];
    }
  }

  lemma {:induction false} RemoveAbsent<T>(s: seq<T>, x: T)
    requires x !in s
    ensures Remove(s, x) == s
  {
    if |s| > 0 {
      RemoveAbsent(s[1..], x);
    }
  }

  lemma RemoveNoDup<T>(s: seq<T>, x: T)
    requires NoDup(s)
    ensures NoDup(Remove(s, x)) && x !in Remove(s, x)
    ensures forall y :: y in Remove(s, x) <==> y in s && y != x
  {
    if x in s {
      var i :| 0 <= i < |s| && s[i] == x;
      RemoveAt(s, x, i);
      forall y | y in s && y != x
        ensures y in Remove(s, x)
      {
        var j :| 0 <= j < |s| && s[j] == y;
        assert Remove(s, x)[if j < i then j else j - 1] == y;
      }
    } else {
      RemoveAbsent(s, x);
    }
  }

  function SetOf<T>(s: seq<T>): set<T> {
    set x | x in s
  }

  function Occurrences<T(==)>(s: seq<T>, x: T): nat {
    if |s| == 0 then 0
    else Occurrences(s[..|s| - 1], x) + if s[|s| - 1] == x then 1 else 0
  }

  lemma {:induction false} OccurrencesSplit<T>(a: seq<T>, b: seq<T>, x: T)
    ensures Occurrences(a + b, x) == Occurrences(a, x) + Occurrences(b, x)
  {
    if |b| == 0 {
      assert a + b == a;
    } else {
      assert (a + b)[..|a + b| - 1] == a + b[..|b| - 1];
      OccurrencesSplit(a, b[..|b| - 1], x);
    }
  }

  lemma {:induction false} OccurrencesPositive<T>(s: seq<T>, x: T)
    ensures Occurrences(s, x) > 0 <==> x in s
  {
    if |s| > 0 {
      OccurrencesPositive(s[..|s| - 1], x);
      assert s == s[..|s| - 1] + [s[|s| - 1]];
    }
  }

  // ---- the table as a value: most recently used first ----

  type Table<K, V> = seq<(K, V)>

  function Keys<K, V>(xs: Table<K, V>): (ks: seq<K>)
    ensures |ks| == |xs| && forall i :: 0 <= i < |xs| ==> ks[i] == xs[i].0
  {
    seq(|xs|, i requires 0 <= i < |xs| => xs[i].0)
  }

  function Find<K(==), V>(xs: Table<K, V>, k: K): Option<V> {
    if |xs| == 0 then None
    else if xs[0].0 == k then Some(xs[0].1)
    else Find(xs[1..], k)
  }

  function Drop<K(==), V>(xs: Table<K, V>, k: K): Table<K, V> {
    if |xs| == 0 then []
    else if xs[0].0 == k then xs[1..]
    else [xs[0]] + Drop(xs[1..], k)
  }

  /** Make `k` the most recent key with value `v`; a new key entering a full table
      pushes out the least recent one. */
  function Upsert<K(==), V>(xs: Table<K, V>, k: K, v: V, cap: nat): Table<K, V> {
    if Find(xs, k).Some? then [(k, v)] + Drop(xs, k)
    else if |xs| >= cap && |xs| > 0 then [(k, v)] + xs[..|xs| - 1]
    else [(k, v)] + xs
  }

  lemma {:induction false} FindIffKey<K, V>(xs: Table<K, V>, k: K)
    ensures Find(xs, k).Some? <==> k in Keys(xs)
  {
    if |xs| > 0 {
      FindIffKey(xs[1..], k);
      assert Keys(xs) == [xs[0].0] + Keys(xs[1..]);
    }
  }

  lemma {:induction false} FindAt<K, V>(xs: Table<K, V>, i: nat)
    requires i < |xs| && NoDup(Keys(xs))
    ensures Find(xs, xs[i].0) == Some(xs[i].1)
  {
    if i > 0 {
      assert Keys(xs)[0] != Keys(xs)[i];
      assert Keys(xs) == [xs[0].0] + Keys(xs[1..]);
      FindAt(xs[1..], i - 1);
    }
  }

  lemma KeysCons<K, V>(x: (K, V), xs: Table<K, V>)
    ensures Keys([x] + xs) == [x.0] + Keys(xs)
  {
  }

  lemma {:induction false} DropKeys<K, V>(xs: Table<K, V>, k: K)
    ensures Keys(Drop(xs, k)) == Remove(Keys(xs), k)
    ensures forall j :: j != k ==> Find(Drop(xs, k), j) == Find(xs, j)
  {
    if |xs| > 0 {
      var x, rest := xs[0], xs[1..];
      assert xs == [x] + rest;
      KeysCons(x, rest);
      assert Keys(xs)[1..] == Keys(rest);
      if x.0 != k {
        DropKeys(rest, k);
        KeysCons(x, Drop(rest, k));
        assert ([x] + Drop(rest, k))[1..] == Drop(rest, k);
      }
    }
  }

  /** Dropping a key forgets its value. */
  lemma {:induction false} DropForgets<K, V>(xs: Table<K, V>, ys: Table<K, V>, k: K)
    requires |xs| == |ys|
    requires forall i :: 0 <= i < |xs| ==> xs[i].0 == ys[i].0 && (xs[i].0 != k ==> xs[i] == ys[i])
    requires NoDup(Keys(xs))
    ensures Drop(xs, k) == Drop(ys, k)
  {
    if |xs| > 0 {
      assert Keys(xs) == [xs[0].0] + Keys(xs[1..]);
      if xs[0].0 == k {
        assert forall i :: 0 < i < |xs| ==> Keys(xs)[0] != Keys(xs)[i];
        assert xs[1..] == ys[1..];
      } else {
        DropForgets(xs[1..], ys[1..], k);
      }
    }
  }

  lemma {:induction false} FindInit<K, V>(xs: Table<K, V>, n: nat, k: K)
    requires n <= |xs|
    ensures Find(xs[..n], k) == if k in Keys(xs)[..n] then Find(xs, k) else None
  {
    if n > 0 {
      FindInit(xs[1..], n - 1, k);
      assert xs[..n] == [xs[0]] + xs[1..][..n - 1];
      assert Keys(xs)[..n] == [xs[0].0] + Keys(xs[1..])[..n - 1];
    }
  }

  /** The keys alone evolve independently of the values. */
  function Promote<K(==)>(ks: seq<K>, k: K, cap: nat): seq<K> {
    if k in ks then [k] + Remove(ks, k)
    else if |ks| >= cap && |ks| > 0 then [k] + ks[..|ks| - 1]
    else [k] + ks
  }

  lemma UpsertKeys<K, V>(xs: Table<K, V>, k: K, v: V, cap: nat)
    ensures Keys(Upsert(xs, k, v, cap)) == Promote(Keys(xs), k, cap)
    ensures Find(Upsert(xs, k, v, cap), k) == Some(v)
  {
    FindIffKey(xs, k);
    DropKeys(xs, k);
  }

  /** Other keys keep their value unless they are the one pushed out. */
  lemma UpsertOthers<K, V>(xs: Table<K, V>, k: K, v: V, cap: nat, j: K)
    requires j != k && NoDup(Keys(xs))
    ensures Find(Upsert(xs, k, v, cap), j) == if j in Promote(Keys(xs), k, cap) then Find(xs, j) else None
  {
    var ys := Upsert(xs, k, v, cap);
    UpsertKeys(xs, k, v, cap);
    FindIffKey(xs, k);
    FindIffKey(ys, j);
    DropKeys(xs, k);
    assert ys[0].0 == k && Find(ys, j) == Find(ys[1..], j);
    if Find(xs, k).None? && |xs| >= cap && |xs| > 0 {
      assert ys[1..] == xs[..|xs| - 1];
      FindInit(xs, |xs| - 1, j);
    } else {
      assert ys[1..] == if Find(xs, k).Some? then Drop(xs, k) else xs;
    }
  }

  // ---- the history of uses ----

  /** The distinct keys of a history (oldest use first), most recent first. */
  function Recent<K(==)>(h: seq<K>): (r: seq<K>)
    ensures SetOf(r) == SetOf(h) && NoDup(r)
  {
    if |h| == 0 then []
    else
      var k := h[|h| - 1];
      var r := Recent(h[..|h| - 1]);
      RecentStep(h, r);
      [k] + Remove(r, k)
  }

  lemma RecentStep<K>(h: seq<K>, r: seq<K>)
    requires |h| > 0 && NoDup(r) && SetOf(r) == SetOf(h[..|h| - 1])
    ensures NoDup([h[|h| - 1]] + Remove(r, h[|h| - 1]))
    ensures SetOf([h[|h| - 1]] + Remove(r, h[|h| - 1])) == SetOf(h)
  {
    var k := h[|h| - 1];
    RemoveNoDup(r, k);
    assert h == h[..|h| - 1] + [k];
    forall y
      ensures y in [k] + Remove(r, k) <==> y in h
    {
      assert y in r <==> y in SetOf(r);
      assert y in h[..|h| - 1] <==> y in SetOf(h[..|h| - 1]);
    }
    var t := [k] + Remove(r, k);
    assert SetOf(t) <= SetOf(h) && SetOf(h) <= SetOf(t) by {
      assert forall y :: y in SetOf(t) <==> y in t;
    }
  }

  function Tracked<K(==)>(h: seq<K>, cap: nat): seq<K> {
    Take(Recent(h), cap)
  }

  /** Removing a key that is kept by the cut, and one that is not. */
  lemma {:induction false} RemoveTake<K>(r: seq<K>, k: K, cap: nat)
    requires cap >= 1
    ensures k in Take(r, cap) ==> Take(Remove(r, k), cap - 1) == Remove(Take(r, cap), k)
    ensures k !in Take(r, cap) ==> Take(Remove(r, k), cap - 1) == Take(r, cap - 1)
    decreases |r|
  {
    if |r| > 0 {
      var t := Take(r, cap);
      assert t[1..] == Take(r[1..], cap - 1);
      assert t[0] == r[0] && t == [r[0]] + t[1..];
      if r[0] != k && cap > 1 {
        RemoveTake(r[1..], k, cap - 1);
        TakeCons(r[0], Remove(r[1..], k), cap - 1);
        TakeCons(r[0], r[1..], cap - 1);
        assert r == [r[0]] + r[1..];
      }
    }
  }

  lemma TakeCons<K>(x: K, s: seq<K>, n: nat)
    requires n >= 1
    ensures Take([x] + s, n) == [x] + Take(s, n - 1)
  {
  }

  /** Promoting in the bounded list is promoting in the unbounded one, cut off. */
  lemma PromoteTake<K>(r: seq<K>, k: K, cap: nat)
    requires cap >= 1
    ensures Promote(Take(r, cap), k, cap) == Take([k] + Remove(r, k), cap)
  {
    RemoveTake(r, k, cap);
    TakeCons(k, Remove(r, k), cap);
    if k !in Take(r, cap) && |r| < cap {
      RemoveAbsent(r, k);
    }
  }

  lemma TrackedStep<K>(h: seq<K>, k: K, cap: nat)
    requires cap >= 1
    ensures Tracked(h + [k], cap) == Promote(Tracked(h, cap), k, cap)
  {
    assert (h + [k])[..|h|] == h;
    PromoteTake(Recent(h), k, cap);
  }

  /** `s` is the set of the first keys of `r`, and `k` comes right after them. */
  ghost predicate Behind<K>(r: seq<K>, s: set<K>, k: K) {
    |s| < |r| && r[|s|] == k && SetOf(r[..|s|]) == s
  }

  /** Moving the element at `j < d` to the front permutes the first `d` elements. */
  lemma RotatedPrefix<K>(r: seq<K>, x: K, j: nat, d: nat)
    requires NoDup(r) && j < d < |r| && r[j] == x
    ensures var t := [x] + Remove(r, x);
      |t| == |r| && t[d] == r[d] && SetOf(t[..d]) == SetOf(r[..d])
  {
    var a, b, rest := r[..j], r[j + 1..d], r[d..];
    RemoveAt(r, x, j);
    ThreeWay(r, j, d);
    var front := [x] + a + b;
    assert [x] + (a + (b + rest)) == front + rest;
    CutAt(front, rest);
    SetOfRotated(x, a, b);
  }

  lemma ThreeWay<K>(r: seq<K>, j: nat, d: nat)
    requires j < d <= |r|
    ensures r[..d] == r[..j] + [r[j]] + r[j + 1..d]
    ensures r[j + 1..] == r[j + 1..d] + r[d..]
  {
  }

  lemma CutAt<K>(front: seq<K>, back: seq<K>)
    ensures (front + back)[..|front|] == front
    ensures |back| > 0 ==> (front + back)[|front|] == back[0]
  {
  }

  lemma SetOfRotated<K>(x: K, a: seq<K>, b: seq<K>)
    ensures SetOf([x] + a + b) == SetOf(a + [x] + b)
  {
  }

  lemma BehindKnown<K>(r: seq<K>, s: set<K>, k: K, x: K)
    requires NoDup(r) && Behind(r, s, k) && x in s
    ensures Behind([x] + Remove(r, x), s, k)
  {
    var d := |s|;
    assert x in r[..d];
    var j :| 0 <= j < d && r[j] == x;
    RotatedPrefix(r, x, j, d);
  }

  lemma BehindNew<K>(r: seq<K>, s: set<K>, k: K, x: K)
    requires NoDup(r) && Behind(r, s, k) && x !in s && x != k
    ensures Behind([x] + Remove(r, x), s + {x}, k)
  {
    var d := |s|;
    assert x !in r[..d];
    assert r[..d + 1] == r[..d] + [k];
    RemoveKeepsPrefix(r, x, d + 1);
    var t := [x] + Remove(r, x);
    assert t[d + 1] == Remove(r, x)[..d + 1][d] == k;
    assert t[..d + 1] == [x] + Remove(r, x)[..d + 1][..d];
    assert SetOf(t[..d + 1]) == s + {x};
  }

  /** A key last used at `i` stands behind exactly the distinct keys used since. */
  lemma {:induction false} RecentPosition<K>(h: seq<K>, i: nat)
    requires i < |h| && h[i] !in h[i + 1..]
    ensures Behind(Recent(h), SetOf(h[i + 1..]), h[i])
    decreases |h|
  {
    var n := |h| - 1;
    var x, g := h[n], h[..n];
    if i == n {
      assert SetOf(h[i + 1..]) == {};
    } else {
      assert g[i + 1..] == h[i + 1..n];
      assert h[i + 1..] == g[i + 1..] + [x];
      RecentPosition(g, i);
      var s := SetOf(g[i + 1..]);
      assert SetOf(h[i + 1..]) == s + {x};
      if x in s {
        assert s + {x} == s;
        BehindKnown(Recent(g), s, h[i], x);
      } else {
        BehindNew(Recent(g), s, h[i], x);
      }
    }
  }

  lemma RemoveKeepsPrefix<T>(r: seq<T>, x: T, n: nat)
    requires NoDup(r) && n <= |r| && x !in r[..n]
    ensures |Remove(r, x)| >= n && Remove(r, x)[..n] == r[..n]
  {
    if x in r {
      var j :| 0 <= j < |r| && r[j] == x;
      RemoveAt(r, x, j);
    } else {
      RemoveAbsent(r, x);
    }
  }

  /** `i` is the last use of `k`, with fewer than `cap` distinct keys used since. */
  ghost predicate FreshUse<K>(h: seq<K>, k: K, cap: nat, i: nat) {
    i < |h| && h[i] == k && k !in h[i + 1..] && |SetOf(h[i + 1..])| < cap
  }

  /** A key is tracked exactly when fewer than `cap` distinct other keys have been
      used since its last use. */
  lemma TrackedIff<K>(h: seq<K>, k: K, cap: nat)
    ensures k in Tracked(h, cap) <==> exists i :: FreshUse(h, k, cap, i)
  {
    var r := Recent(h);
    assert k in SetOf(r) <==> k in SetOf(h);
    if k in h {
      var i := LastUse(h, k);
      RecentPosition(h, i);
      var d := |SetOf(h[i + 1..])|;
      assert r[d] == k;
      if d < cap {
        assert Take(r, cap)[d] == k;
        assert FreshUse(h, k, cap, i);
      } else {
        assert k !in Take(r, cap);
        forall j | FreshUse(h, k, cap, j)
          ensures j == i
        {
          LastUseUnique(h, k, i, j);
        }
      }
    }
  }

  lemma LastUseUnique<K>(h: seq<K>, k: K, i: nat, j: nat)
    requires i < |h| && h[i] == k && k !in h[i + 1..]
    requires j < |h| && h[j] == k && k !in h[j + 1..]
    ensures i == j
  {
  }

  /** Still tracked after `j` uses, having last been used at `i`. */
  lemma TrackedGap<K>(g: seq<K>, k: K, cap: nat, i: nat, j: nat)
    requires i < j <= |g| && g[i] == k && k !in g[i + 1..j] && k in Tracked(g[..j], cap)
    ensures |SetOf(g[i + 1..j])| < cap
  {
    TrackedIff(g[..j], k, cap);
    var m :| FreshUse(g[..j], k, cap, m);
    assert g[..j][i + 1..] == g[i + 1..j];
    LastUseUnique(g[..j], k, m, i);
  }

  lemma {:induction false} LastUse<K>(h: seq<K>, k: K) returns (i: nat)
    requires k in h
    ensures i < |h| && h[i] == k && k !in h[i + 1..]
    decreases |h|
  {
    var n := |h| - 1;
    if h[n] == k {
      i := n;
    } else {
      assert h == h[..n] + [h[n]];
      i := LastUse(h[..n], k);
      assert h[i + 1..] == h[..n][i + 1..] + [h[n]];
    }
  }

  lemma {:induction false} SubsetSize<T>(a: set<T>, b: set<T>)
    requires a <= b
    ensures |a| <= |b|
  {
    if a != {} {
      var x :| x in a;
      SubsetSize(a - {x}, b - {x});
    }
  }

  // ---- the list-plus-map structure ----

  /** One list element's payload; the map and the list share it by reference. */
  class Cell<K, V> {
    const key: K
    var val: V

    constructor (k: K, v: V)
      ensures key == k && val == v
    {
      key, val := k, v;
    }
  }

  ghost function Pairs<K, V>(cells: seq<Cell<K, V>>): (ps: Table<K, V>)
    reads cells
    ensures |ps| == |cells|
    ensures forall i :: 0 <= i < |cells| ==> ps[i] == (cells[i].key, cells[i].val)
  {
    if |cells| == 0 then [] else [(cells[0].key, cells[0].val)] + Pairs(cells[1..])
  }

  /** container/list's list with the map into it that both caches keep. */
  class LinkedTable<K(==), V> {
    const capacity: nat
    var order: seq<Cell<K, V>>
    var elems: map<K, Cell<K, V>>

    /** A non-positive capacity falls back to the default. */
    constructor (cap: int, defaultCap: nat)
      requires defaultCap >= 1
      ensures Valid() && Contents() == [] && order == []
      ensures capacity == if cap <= 0 then defaultCap else cap
    {
      capacity := if cap <= 0 then defaultCap else cap;
      order := [];
      elems := map[];
    }

    /** Map and list agree: the map's cells are the list's, each under its key. */
    ghost predicate Valid()
      reads this
    {
      1 <= capacity && |order| <= capacity && Linked(order, elems)
    }

    ghost function Contents(): (t: Table<K, V>)
      reads this, order
      ensures |t| == |order|
    {
      Pairs(order)
    }

    lemma ValidFacts()
      requires Valid()
      ensures NoDup(order) && NoDup(Keys(Contents())) && |Contents()| <= capacity
      ensures forall k :: k in elems <==> Find(Contents(), k).Some?
      ensures forall k :: k in elems ==> Find(Contents(), k) == Some(elems[k].val)
    {
      var t := Contents();
      LinkedKeys(order, elems);
      forall k
        ensures k in elems <==> Find(t, k).Some?
        ensures k in elems ==> Find(t, k) == Some(elems[k].val)
      {
        FindIffKey(t, k);
        if k in elems {
          var i :| 0 <= i < |order| && order[i] == elems[k];
          FindAt(t, i);
          assert Keys(t)[i] == k;
        }
      }
    }

    /** The same for one key. */
    lemma EntryFacts(k: K)
      requires Valid()
      ensures k in elems <==> Find(Contents(), k).Some?
      ensures k in elems ==> elems[k] in order && elems[k].key == k && Find(Contents(), k) == Some(elems[k].val)
    {
      ValidFacts();
    }

    /** list.MoveToFront. */
    method MoveToFront(c: Cell<K, V>)
      requires Valid() && c in order
      modifies this`order
      ensures Valid() && elems == old(elems)
      ensures order == [c] + Remove(old(order), c)
      ensures Contents() == [(c.key, c.val)] + Drop(old(Contents()), c.key)
    {
      LinkedMove(order, elems, c);
      PairsMove(order, elems, c);
      ghost var after := [(c.key, c.val)] + Drop(Contents(), c.key);
      var moved := [c] + Remove(order, c);
      assert Pairs(moved) == after;
      order := moved;
      assert Contents() == after;
    }

    /** list.Back, list.Remove and the map deletion that goes with it. */
    method EvictOldest()
      requires Valid()
      modifies this
      ensures Valid()
      ensures Contents() == if |old(Contents())| == 0 then [] else old(Contents())[..|old(Contents())| - 1]
      ensures |order| == if |old(order)| > 0 then |old(order)| - 1 else 0
      ensures order <= old(order) && (forall k :: k in elems ==> k in old(elems))
    {
      if |order| > 0 {
        LinkedEvict(order, elems);
        var oldest := order[|order| - 1];
        order := order[..|order| - 1];
        elems := elems - {oldest.key};
      }
    }

    /** list.PushFront and the map insertion that goes with it. */
    method PushFront(k: K, v: V)
      requires Valid() && k !in elems && |order| < capacity
      modifies this
      ensures Valid() && Contents() == [(k, v)] + old(Contents())
      ensures forall c :: c in order ==> c in old(order) || fresh(c)
    {
      ghost var was := order;
      var c := new Cell(k, v);
      LinkedPush(order, elems, c);
      order := [c] + order;
      elems := elems[k := c];
      PairsCons(c, was);
    }

    /** A hit that rewrites the entry's payload and moves it to the front. */
    method Refresh(c: Cell<K, V>, v: V)
      requires Valid() && c in order
      modifies this`order, c
      ensures Valid() && elems == old(elems) && (forall d :: d in order <==> d in old(order))
      ensures Contents() == [(c.key, v)] + Drop(old(Contents()), c.key)
    {
      ghost var before := Contents();
      ValidFacts();
      c.val := v;
      DropForgets(before, Contents(), c.key);
      ghost var was := order;
      MoveToFront(c);
      SameElements(was, c);
    }

    /** A miss: make room if the table is full, then insert at the front. */
    method Insert(k: K, v: V)
      requires Valid() && k !in elems
      modifies this
      ensures Valid() && Contents() == Upsert(old(Contents()), k, v, capacity)
      ensures forall c :: c in order ==> c in old(order) || fresh(c)
    {
      EntryFacts(k);
      ghost var was := Contents();
      if |order| >= capacity {
        EvictOldest();
      }
      assert Contents() == if |was| >= capacity then was[..|was| - 1] else was;
      PushFront(k, v);
    }
  }

  // The agreement of map and list; keys never change, so it needs no heap.
  ghost predicate Linked<K, V>(order: seq<Cell<K, V>>, elems: map<K, Cell<K, V>>) {
    && NoDup(order)
    && (forall c :: c in order ==> c.key in elems && elems[c.key] == c)
    && (forall k :: k in elems ==> elems[k] in order && elems[k].key == k)
  }

  /** Distinct cells have distinct keys. */
  lemma LinkedKeys<K, V>(order: seq<Cell<K, V>>, elems: map<K, Cell<K, V>>)
    requires Linked(order, elems)
    ensures forall i, j :: 0 <= i < j < |order| ==> order[i].key != order[j].key
  {
    forall i, j | 0 <= i < j < |order|
      ensures order[i].key != order[j].key
    {
      assert order[i] in order && order[j] in order;
    }
  }

  /** Where the element now at `i` was before the one at `n` moved to the front. */
  function MovedFrom(i: nat, n: nat): (j: nat)
    ensures i <= n ==> j <= n
    ensures i > n ==> j == i
  {
    if i == 0 then n else if i <= n then i - 1 else i
  }

  lemma MovedAt<T>(s: seq<T>, x: T, n: nat) returns (t: seq<T>)
    requires NoDup(s) && n < |s| && s[n] == x
    ensures t == [x] + Remove(s, x) && |t| == |s|
    ensures forall i :: 0 <= i < |t| ==> t[i] == s[MovedFrom(i, n)]
  {
    RemoveAt(s, x, n);
    var front, back := s[..n], s[n + 1..];
    t := [x] + (front + back);
    forall i | 0 <= i < |t|
      ensures t[i] == s[MovedFrom(i, n)]
    {
      if 0 < i <= n {
        assert t[i] == front[i - 1];
      } else if i > n {
        assert t[i] == back[i - 1 - n];
      }
    }
  }

  /** Moving an element to the front, by position. */
  lemma MovedElements<T>(s: seq<T>, x: T)
    requires NoDup(s) && x in s
    ensures var t := [x] + Remove(s, x);
      && NoDup(t) && |t| == |s|
      && (forall i :: 0 <= i < |t| ==> t[i] in s)
      && (forall i :: 0 <= i < |s| ==> s[i] in t)
  {
    var n :| 0 <= n < |s| && s[n] == x;
    var t := MovedAt(s, x, n);
    forall i, j | 0 <= i < j < |t|
      ensures t[i] != t[j]
    {
      assert t[i] == s[MovedFrom(i, n)] && t[j] == s[MovedFrom(j, n)];
    }
    forall i | 0 <= i < |s|
      ensures s[i] in t
    {
      assert s[i] == t[if i < n then i + 1 else if i == n then 0 else i];
    }
  }

  lemma SameElements<T>(s: seq<T>, x: T)
    requires NoDup(s) && x in s
    ensures forall y :: y in [x] + Remove(s, x) <==> y in s
  {
    RemoveNoDup(s, x);
  }

  lemma LinkedMove<K, V>(order: seq<Cell<K, V>>, elems: map<K, Cell<K, V>>, c: Cell<K, V>)
    requires Linked(order, elems) && c in order
    ensures Linked([c] + Remove(order, c), elems) && |[c] + Remove(order, c)| == |order|
  {
    MovedElements(order, c);
    var t := [c] + Remove(order, c);
    forall k | k in elems
      ensures elems[k] in t
    {
      var i :| 0 <= i < |order| && order[i] == elems[k];
    }
  }

  lemma LinkedEvict<K, V>(order: seq<Cell<K, V>>, elems: map<K, Cell<K, V>>)
    requires Linked(order, elems) && |order| > 0
    ensures Linked(order[..|order| - 1], elems - {order[|order| - 1].key})
  {
    var n := |order| - 1;
    var kept := elems - {order[n].key};
    forall k | k in kept
      ensures kept[k] in order[..n]
    {
      var j :| 0 <= j < |order| && order[j] == elems[k];
      assert j < n;
      assert order[..n][j] == kept[k];
    }
  }

  lemma LinkedPush<K, V>(order: seq<Cell<K, V>>, elems: map<K, Cell<K, V>>, c: Cell<K, V>)
    requires Linked(order, elems) && c.key !in elems
    ensures Linked([c] + order, elems[c.key := c])
  {
    var t, e := [c] + order, elems[c.key := c];
    forall k | k in e
      ensures e[k] in t && e[k].key == k
    {
      if k != c.key {
        assert elems[k] in order;
      }
    }
  }

  lemma PairsCons<K, V>(c: Cell<K, V>, cells: seq<Cell<K, V>>)
    ensures Pairs([c] + cells) == [(c.key, c.val)] + Pairs(cells)
  {
    assert ([c] + cells)[1..] == cells;
  }

  lemma PairsMove<K, V>(order: seq<Cell<K, V>>, elems: map<K, Cell<K, V>>, c: Cell<K, V>)
    requires Linked(order, elems) && c in order
    ensures Pairs([c] + Remove(order, c)) == [(c.key, c.val)] + Drop(Pairs(order), c.key)
  {
    LinkedKeys(order, elems);
    PairsRemove(order, c);
    PairsCons(c, Remove(order, c));
  }

  lemma {:induction false} PairsRemove<K, V>(cells: seq<Cell<K, V>>, c: Cell<K, V>)
    requires c in cells
    requires forall i, j :: 0 <= i < j < |cells| ==> cells[i].key != cells[j].key
    ensures Pairs(Remove(cells, c)) == Drop(Pairs(cells), c.key)
  {
    if cells[0] == c {
      assert Pairs(cells)[1..] == Pairs(cells[1..]);
    } else {
      assert c in cells[1..];
      PairsRemove(cells[1..], c);
      var j :| 0 <= j < |cells[1..]| && cells[1..][j] == c;
      assert cells[0].key != cells[j + 1].key;
      assert Pairs(cells)[1..] == Pairs(cells[1..]);
      assert Remove(cells, c) == [cells[0]] + Remove(cells[1..], c);
      assert Remove(cells, c)[1..] == Remove(cells[1..], c);
    }
  }
}
