/** Value-level specification of NSCache: the cost-ordered list seen as a sequence of slots,
    and what one setObject, removeObject or removeAllObjects does to it.  The imperative
    model in module NSCache is proved against these functions. */
module CacheSpec {

  datatype Option<T> = None | Some(value: T)

  /** One cache entry as the cost list sees it: the key's identity token, the value, the cost. */
  datatype Slot<K, V> = Slot(key: K, value: V, cost: nat)

  /** What one setObject leaves behind: the cost list afterwards and the evicted entries,
      in the order they were taken off the list (the order of `toRemove`). */
  datatype Outcome<K, V> = Outcome(order: seq<Slot<K, V>>, evicted: seq<Slot<K, V>>)

  // ---------------------------------------------------------------------------------------
  // Basic views of a cost list

  /** Total of the costs in s. */
  function Sum<K, V>(s: seq<Slot<K, V>>): nat
  {
    if s == [] then 0 else s[0].cost + Sum(s[1..])
  }

  /** The values of s, in list order. */
  function ValuesOf<K, V>(s: seq<Slot<K, V>>): seq<V>
  {
    seq(|s|, i requires 0 <= i < |s| => s[i].value)
  }

  ghost predicate SortedByCost<K, V>(s: seq<Slot<K, V>>)
  {
    forall i, j :: 0 <= i < j < |s| ==> s[i].cost <= s[j].cost
  }

  ghost predicate DistinctKeys<K, V>(s: seq<Slot<K, V>>)
  {
    forall i, j :: 0 <= i < j < |s| ==> s[i].key != s[j].key
  }

  /** A well-formed cost list: ascending cost, one slot per key. */
  ghost predicate WellFormed<K, V>(s: seq<Slot<K, V>>)
  {
    SortedByCost(s) && DistinctKeys(s)
  }

  lemma {:induction false} SumAppend<K, V>(a: seq<Slot<K, V>>, b: seq<Slot<K, V>>)
    ensures Sum(a + b) == Sum(a) + Sum(b)
  {
    if a == [] {
      assert a + b == b;
    } else {
      assert (a + b)[1..] == a[1..] + b;
      SumAppend(a[1..], b);
    }
  }

  lemma SumSplit<K, V>(s: seq<Slot<K, V>>, n: nat)
    requires n <= |s|
    ensures Sum(s) == Sum(s[..n]) + Sum(s[n..])
  {
    assert s == s[..n] + s[n..];
    SumAppend(s[..n], s[n..]);
  }

  /** Removing one slot lowers the total by exactly its cost. */
  lemma SumRemoveAt<K, V>(s: seq<Slot<K, V>>, i: nat)
    requires i < |s|
    ensures Sum(RemoveAt(s, i)) == Sum(s) - s[i].cost
  {
    SumAppend(s[..i], s[i + 1..]);
    SumSplit(s, i);
    assert s[i..] == [s[i]] + s[i + 1..];
    SumAppend([s[i]], s[i + 1..]);
  }

  // ---------------------------------------------------------------------------------------
  // Lookup by key identity (the `_entries` dictionary seen through the list)

  /** Position of the slot with key k, if any. */
  function IndexOf<K(==), V>(s: seq<Slot<K, V>>, k: K): (r: Option<nat>)
    ensures r.Some? ==> r.value < |s| && s[r.value].key == k
    ensures r.Some? ==> forall i :: 0 <= i < r.value ==> s[i].key != k
    ensures r.None? ==> forall i :: 0 <= i < |s| ==> s[i].key != k
  {
    if s == [] then None
    else if s[0].key == k then Some(0)
    else match IndexOf(s[1..], k)
      case Some(i) => Some(i + 1)
      case None => None
  }

  /** object(forKey:): the value stored under k, if any. */
  function Lookup<K(==), V>(s: seq<Slot<K, V>>, k: K): (r: Option<V>)
    ensures r.Some? <==> exists i :: 0 <= i < |s| && s[i].key == k
  {
    match IndexOf(s, k)
    case Some(i) => Some(s[i].value)
    case None => None
  }

  lemma IndexOfAt<K, V>(s: seq<Slot<K, V>>, k: K, i: nat)
    requires DistinctKeys(s) && i < |s| && s[i].key == k
    ensures IndexOf(s, k) == Some(i)
  {
  }

  /** With one slot per key, the lookup of k depends only on which slots carry k. */
  lemma LookupBySlots<K, V>(s: seq<Slot<K, V>>, t: seq<Slot<K, V>>, k: K)
    requires DistinctKeys(s) && DistinctKeys(t)
    requires forall x: Slot<K, V> :: x.key == k ==> (x in s <==> x in t)
    ensures Lookup(s, k) == Lookup(t, k)
  {
    match IndexOf(s, k)
    case Some(i) =>
      assert s[i] in t;
      var j :| 0 <= j < |t| && t[j] == s[i];
      IndexOfAt(t, k, j);
    case None =>
  }

  // ---------------------------------------------------------------------------------------
  // The cost list's insert (Foundation/NSCache.swift:66-81, with the splice completed)

  /** Index of the first slot whose cost is strictly greater than c, or |s| if there is none. */
  function InsertPos<K, V>(s: seq<Slot<K, V>>, c: nat): (p: nat)
    ensures p <= |s|
    ensures forall i :: 0 <= i < p ==> s[i].cost <= c
    ensures p < |s| ==> s[p].cost > c
  {
    if s == [] || s[0].cost > c then 0 else 1 + InsertPos(s[1..], c)
  }

  /** s with x placed before the first costlier slot, i.e. after all slots of equal cost. */
  function SortedInsert<K, V>(s: seq<Slot<K, V>>, x: Slot<K, V>): (r: seq<Slot<K, V>>)
    ensures |r| == |s| + 1 && r[InsertPos(s, x.cost)] == x
  {
    var p := InsertPos(s, x.cost);
    s[..p] + [x] + s[p..]
  }

  /** Where every slot of s ends up in SortedInsert(s, x). */
  lemma SortedInsertShifts<K, V>(s: seq<Slot<K, V>>, x: Slot<K, V>)
    ensures var r := SortedInsert(s, x); var p := InsertPos(s, x.cost);
      && |r| == |s| + 1 && r[p] == x
      && (forall j :: 0 <= j < p ==> r[j] == s[j])
      && (forall j :: p < j < |r| ==> r[j] == s[j - 1])
  {
    var p := InsertPos(s, x.cost);
    var r := SortedInsert(s, x);
    assert r == s[..p] + ([x] + s[p..]);
    forall j | 0 <= j < p ensures r[j] == s[j] {
      assert r[j] == s[..p][j];
    }
    forall j | p < j < |r| ensures r[j] == s[j - 1] {
      assert r[j] == ([x] + s[p..])[j - p] == s[p..][j - p - 1];
    }
  }

  /** insert keeps the list ascending and puts x after every slot of equal cost and before
      every costlier one (first in, first out within one cost). */
  lemma SortedInsertOrdered<K, V>(s: seq<Slot<K, V>>, x: Slot<K, V>)
    requires SortedByCost(s)
    ensures var r := SortedInsert(s, x); var p := InsertPos(s, x.cost);
      && SortedByCost(r)
      && (forall i :: 0 <= i < p ==> r[i].cost <= x.cost)
      && (forall i :: p < i < |r| ==> r[i].cost > x.cost)
  {
    var r := SortedInsert(s, x);
    var p := InsertPos(s, x.cost);
    SortedInsertShifts(s, x);
    forall i | p < i < |r| ensures r[i].cost > x.cost {
      assert r[i] == s[i - 1] && s[p].cost > x.cost;
    }
    forall a, b | 0 <= a < b < |r| ensures r[a].cost <= r[b].cost {
      if b < p {
        assert r[a] == s[a] && r[b] == s[b];
      } else if a > p {
        assert r[a] == s[a - 1] && r[b] == s[b - 1];
      } else if a < p && b > p {
        assert r[a] == s[a] && r[b] == s[b - 1];
      }
    }
  }

  lemma SortedInsertDistinct<K, V>(s: seq<Slot<K, V>>, x: Slot<K, V>)
    requires DistinctKeys(s) && forall i :: 0 <= i < |s| ==> s[i].key != x.key
    ensures DistinctKeys(SortedInsert(s, x))
  {
    var r := SortedInsert(s, x);
    var p := InsertPos(s, x.cost);
    SortedInsertShifts(s, x);
    forall a, b | 0 <= a < b < |r| ensures r[a].key != r[b].key {
      if b < p {
        assert r[a] == s[a] && r[b] == s[b];
      } else if a > p {
        assert r[a] == s[a - 1] && r[b] == s[b - 1];
      } else if a < p && b > p {
        assert r[a] == s[a] && r[b] == s[b - 1];
      } else if a == p {
        assert r[b] == s[b - 1];
      } else {
        assert r[a] == s[a];
      }
    }
  }

  lemma SumInsert<K, V>(s: seq<Slot<K, V>>, x: Slot<K, V>)
    ensures Sum(SortedInsert(s, x)) == Sum(s) + x.cost
  {
    var p := InsertPos(s, x.cost);
    SumAppend(s[..p] + [x], s[p..]);
    SumAppend(s[..p], [x]);
    SumSplit(s, p);
  }

  // ---------------------------------------------------------------------------------------
  // The update step of setObject (Foundation/NSCache.swift:99-108, new keys listed)

  /** The cost list after setObject's update step: an existing key keeps its slot and gets the
      new value, and moves to its new sorted place if its cost changed; a new key is inserted. */
  function Update<K(==), V>(s: seq<Slot<K, V>>, k: K, v: V, g: nat): (r: seq<Slot<K, V>>)
    ensures |r| == (if IndexOf(s, k).Some? then |s| else |s| + 1)
  {
    match IndexOf(s, k)
    case Some(i) =>
      if s[i].cost == g then s[i := Slot(k, v, g)]
      else SortedInsert(RemoveAt(s, i), Slot(k, v, g))
    case None => SortedInsert(s, Slot(k, v, g))
  }

  /** The cost the list held for k before an update (0 for a new key). */
  function OldCost<K(==), V>(s: seq<Slot<K, V>>, k: K): nat
  {
    match IndexOf(s, k)
    case Some(i) => s[i].cost
    case None => 0
  }

  /** s with the slot at index i unlinked. */
  function RemoveAt<K, V>(s: seq<Slot<K, V>>, i: nat): seq<Slot<K, V>>
    requires i < |s|
  {
    s[..i] + s[i + 1..]
  }

  /** Unlinking index i keeps the other slots in their relative order and removes exactly s[i]. */
  lemma RemoveAtShifts<K, V>(s: seq<Slot<K, V>>, i: nat)
    requires i < |s|
    ensures var t := RemoveAt(s, i);
      && |t| == |s| - 1
      && (forall j :: 0 <= j < |t| ==> t[j] == s[if j < i then j else j + 1])
  {
    var t := RemoveAt(s, i);
    forall j | 0 <= j < |t| ensures t[j] == s[if j < i then j else j + 1] {
      if j < i {
        assert t[j] == s[..i][j];
      } else {
        assert t[j] == s[i + 1..][j - i];
      }
    }
  }

  lemma RemoveAtFacts<K, V>(s: seq<Slot<K, V>>, i: nat)
    requires i < |s|
    ensures SortedByCost(s) ==> SortedByCost(RemoveAt(s, i))
    ensures DistinctKeys(s) ==> DistinctKeys(RemoveAt(s, i))
    ensures DistinctKeys(s) ==> forall j :: 0 <= j < |RemoveAt(s, i)| ==> RemoveAt(s, i)[j].key != s[i].key
  {
    RemoveAtShifts(s, i);
  }

  /** Inserting a slot whose key is new: the list stays well formed, the key maps to the
      slot's value, every other key is untouched, and the total grows by the slot's cost. */
  lemma InsertFresh<K, V>(t: seq<Slot<K, V>>, x: Slot<K, V>)
    requires WellFormed(t) && forall i :: 0 <= i < |t| ==> t[i].key != x.key
    ensures var u := SortedInsert(t, x);
      && WellFormed(u)
      && |u| == |t| + 1
      && Lookup(u, x.key) == Some(x.value)
      && (forall k' :: k' != x.key ==> Lookup(u, k') == Lookup(t, k'))
      && Sum(u) == Sum(t) + x.cost
  {
    var u := SortedInsert(t, x);
    SortedInsertShifts(t, x);
    SpliceElements(t, InsertPos(t, x.cost), x);
    SortedInsertOrdered(t, x);
    SortedInsertDistinct(t, x);
    SumInsert(t, x);
    IndexOfAt(u, x.key, InsertPos(t, x.cost));
    forall k' | k' != x.key ensures Lookup(u, k') == Lookup(t, k') {
      forall y: Slot<K, V> | y.key == k' ensures y in u <==> y in t {
        assert y in multiset(u) <==> y in multiset(t);
      }
      LookupBySlots(u, t, k');
    }
  }

  /** Unlinking the slot at index i: the list stays well formed, its key is gone, every other
      key is untouched, and the total falls by its cost. */
  lemma RemoveAtLookup<K, V>(s: seq<Slot<K, V>>, i: nat)
    requires WellFormed(s) && i < |s|
    ensures var t := RemoveAt(s, i);
      && WellFormed(t)
      && |t| == |s| - 1
      && (forall j :: 0 <= j < |t| ==> t[j].key != s[i].key)
      && Lookup(t, s[i].key) == None
      && (forall k' :: k' != s[i].key ==> Lookup(t, k') == Lookup(s, k'))
      && Sum(t) == Sum(s) - s[i].cost
  {
    var t := RemoveAt(s, i);
    RemoveAtShifts(s, i);
    UnlinkElements(s, i);
    RemoveAtFacts(s, i);
    SumRemoveAt(s, i);
    forall k' | k' != s[i].key ensures Lookup(t, k') == Lookup(s, k') {
      forall y: Slot<K, V> | y.key == k' ensures y in t <==> y in s {
        assert y in multiset(t) <==> y in multiset(s);
      }
      LookupBySlots(t, s, k');
    }
  }

  /** Giving the slot at index i a new value, at the same cost: the list stays well formed, its
      key maps to the new value, every other key is untouched, and the total is unchanged. */
  lemma ReplaceValue<K, V>(s: seq<Slot<K, V>>, i: nat, v: V, u: seq<Slot<K, V>>)
    requires WellFormed(s) && i < |s| && u == s[i := Slot(s[i].key, v, s[i].cost)]
    ensures WellFormed(u) && |u| == |s| && Lookup(u, s[i].key) == Some(v)
    ensures forall k' :: k' != s[i].key ==> Lookup(u, k') == Lookup(s, k')
    ensures Sum(u) == Sum(s)
  {
    var k := s[i].key;
    assert forall j :: 0 <= j < |u| ==> u[j].cost == s[j].cost && u[j].key == s[j].key;
    assert RemoveAt(u, i) == RemoveAt(s, i);
    SumRemoveAt(u, i);
    SumRemoveAt(s, i);
    IndexOfAt(u, k, i);
    forall k' | k' != k ensures Lookup(u, k') == Lookup(s, k') {
      forall y: Slot<K, V> | y.key == k' ensures y in u <==> y in s {
        if y in u {
          var j :| 0 <= j < |u| && u[j] == y;
          assert j != i && s[j] == y;
        }
        if y in s {
          var j :| 0 <= j < |s| && s[j] == y;
          assert j != i && u[j] == y;
        }
      }
      LookupBySlots(u, s, k');
    }
  }

  /** The update step: afterwards k maps to v, every other key is untouched, the list stays
      ascending with one slot per key, it grows by one exactly when k was new, and the total
      moves by the cost delta. */
  lemma UpdateFacts<K, V>(s: seq<Slot<K, V>>, k: K, v: V, g: nat)
    requires WellFormed(s)
    ensures var u := Update(s, k, v, g);
      && WellFormed(u)
      && Lookup(u, k) == Some(v)
      && (forall k' :: k' != k ==> Lookup(u, k') == Lookup(s, k'))
      && |u| == (if IndexOf(s, k).Some? then |s| else |s| + 1)
      && Sum(u) == Sum(s) - OldCost(s, k) + g
  {
    match IndexOf(s, k)
    case Some(i) =>
      if s[i].cost == g {
        ReplaceValue(s, i, v, Update(s, k, v, g));
      } else {
        RemoveAtLookup(s, i);
        InsertFresh(RemoveAt(s, i), Slot(k, v, g));
      }
    case None =>
      InsertFresh(s, Slot(k, v, g));
  }

  // ---------------------------------------------------------------------------------------
  // removeObject(forKey:) (Foundation/NSCache.swift:157-166)

  /** The cost list after removeObject: the slot of k unlinked, or s itself if k is absent. */
  function RemoveKey<K(==), V>(s: seq<Slot<K, V>>, k: K): (r: seq<Slot<K, V>>)
    ensures |r| == (if IndexOf(s, k).Some? then |s| - 1 else |s|)
  {
    match IndexOf(s, k)
    case Some(i) => RemoveAt(s, i)
    case None => s
  }

  /** removeObject deletes k, leaves every other key as it was, and lowers the total by the
      removed cost; for an absent key it changes nothing. */
  lemma RemoveKeyFacts<K, V>(s: seq<Slot<K, V>>, k: K)
    requires WellFormed(s)
    ensures var r := RemoveKey(s, k);
      && WellFormed(r)
      && Lookup(r, k) == None
      && (forall k' :: k' != k ==> Lookup(r, k') == Lookup(s, k'))
      && Sum(r) == Sum(s) - OldCost(s, k)
      && |r| == (if IndexOf(s, k).Some? then |s| - 1 else |s|)
      && (IndexOf(s, k).None? ==> r == s)
  {
    match IndexOf(s, k)
    case Some(i) =>
      RemoveAtLookup(s, i);
    case None =>
  }

  // ---------------------------------------------------------------------------------------
  // The two purge passes (Foundation/NSCache.swift:113-142)

  /** Number of entries the cost pass takes off the head of s: it keeps going while the total
      of what is left exceeds the limit and the list is not empty. */
  function CostPurge<K, V>(s: seq<Slot<K, V>>, limit: int): (n: nat)
    ensures n <= |s|
  {
    if Sum(s) - limit > 0 && s != [] then 1 + CostPurge(s[1..], limit) else 0
  }

  /** The cost pass stops as soon as the remaining total is within the limit, or when the list
      runs out; before that point every remaining total was over the limit. */
  lemma {:induction false} CostPurgeStops<K, V>(s: seq<Slot<K, V>>, limit: int)
    ensures var n := CostPurge(s, limit);
      && (Sum(s[n..]) <= limit || n == |s|)
      && (forall m :: 0 <= m < n ==> Sum(s[m..]) > limit)
  {
    var n := CostPurge(s, limit);
    if n > 0 {
      CostPurgeStops(s[1..], limit);
      assert s[1..][n - 1..] == s[n..];
      forall m | 0 <= m < n ensures Sum(s[m..]) > limit {
        if m > 0 {
          assert s[1..][m - 1..] == s[m..];
        }
      }
    }
  }

  /** One round of the cost pass, seen from the list before the pass started: while the
      suffix still left is over the limit, one more entry goes and the suffix shrinks by one. */
  lemma CostPurgeShift<K, V>(s: seq<Slot<K, V>>, n: nat, limit: int)
    requires n < |s| && Sum(s[n..]) - limit > 0
    ensures s[n..][1..] == s[n + 1..]
    ensures CostPurge(s[n..], limit) == 1 + CostPurge(s[n + 1..], limit)
  {
    assert s[n..][1..] == s[n + 1..];
  }

  /** Where either pass stops, it owes nothing more. */
  lemma PurgeDone<K, V>(s: seq<Slot<K, V>>, costLimit: int, countLimit: int)
    ensures Sum(s) - costLimit <= 0 || s == [] ==> CostPurge(s, costLimit) == 0
    ensures |s| - countLimit <= 0 || s == [] ==> CountPurge(s, countLimit) == 0
  {
  }

  /** Taking one more entry off the list s extends the evicted prefix by exactly that entry. */
  lemma TakeOne<K, V>(before: seq<Slot<K, V>>, s: seq<Slot<K, V>>, n: nat)
    requires n < |s|
    ensures before + s[..n] + [s[n]] == before + s[..n + 1]
  {
    assert s[..n] + [s[n]] == s[..n + 1];
  }

  /** Number of entries the count pass takes off the head of s when s is all that is still
      live: it keeps going while more than `limit` entries remain and the list is not empty. */
  function CountPurge<K, V>(s: seq<Slot<K, V>>, limit: int): (n: nat)
    ensures n <= |s|
  {
    if |s| - limit > 0 && s != [] then 1 + CountPurge(s[1..], limit) else 0
  }

  /** One round of the count pass, seen from the list before the pass started. */
  lemma CountPurgeShift<K, V>(s: seq<Slot<K, V>>, n: nat, limit: int)
    requires n < |s| && |s[n..]| - limit > 0
    ensures s[n..][1..] == s[n + 1..]
    ensures CountPurge(s[n..], limit) == 1 + CountPurge(s[n + 1..], limit)
  {
    assert s[n..][1..] == s[n + 1..];
  }

  /** The count pass evicts exactly the excess over the limit, or everything when the limit
      is not positive. */
  lemma {:induction false} CountPurgeExact<K, V>(s: seq<Slot<K, V>>, limit: int)
    ensures CountPurge(s, limit) == if |s| <= limit then 0 else if limit < 0 then |s| else |s| - limit
  {
    if |s| - limit > 0 && s != [] {
      CountPurgeExact(s[1..], limit);
    }
  }

  // ---------------------------------------------------------------------------------------
  // setObject(_:forKey:cost:) as a whole (Foundation/NSCache.swift:83-155)

  /** purgeAmount (Foundation/NSCache.swift:89-92), computed from the running total after
      `_totalCost += g`; the code adds g a second time. */
  function PurgeAmount(runningTotal: int, g: nat, costLimit: int): (r: int)
    ensures r > 0 <==> costLimit > 0 && runningTotal + g > costLimit
  {
    if costLimit > 0 then (runningTotal + g) - costLimit else 0
  }

  /** purgeCount (Foundation/NSCache.swift:94-97 and :124-126) for a given live count. */
  function PurgeCount(live: int, countLimit: int): (r: int)
    ensures r > 0 <==> countLimit > 0 && live > countLimit
  {
    if countLimit > 0 then live - countLimit else 0
  }

  /** The outcome of setObject(v, forKey: k, cost: g) on the cost list s: the update step, then
      the two purge passes, which together evict a prefix of the updated list. */
  function SetObjectSpec<K(==), V>(s: seq<Slot<K, V>>, k: K, v: V, g: nat, costLimit: int, countLimit: int): (r: Outcome<K, V>)
  {
    var u := Update(s, k, v, g);
    var n := EvictionCount(s, k, v, g, costLimit, countLimit);
    Outcome(u[n..], u[..n])
  }

  /** How many entries the two purge passes take off the head of the updated list u, given
      the triggers computed by the update step: the cost pass runs if purgeAmount is
      positive, after which purgeCount is recomputed from the live count; the count pass runs
      if purgeCount is then positive and resumes where the cost pass stopped. */
  function PassCount<K, V>(u: seq<Slot<K, V>>, purgeAmount: int, purgeCount: int, costLimit: int, countLimit: int): (n: nat)
    ensures n <= |u|
  {
    var n1 := if purgeAmount > 0 then CostPurge(u, costLimit) else 0;
    var count := if purgeAmount > 0 && countLimit > 0 then PurgeCount(|u| - n1, countLimit) else purgeCount;
    n1 + (if count > 0 then CountPurge(u[n1..], countLimit) else 0)
  }

  /** PassCount is the cost pass's count plus the count pass's, each computed as the passes
      compute their own. */
  lemma PassCountSplit<K, V>(u: seq<Slot<K, V>>, purgeAmount: int, purgeCount: int, costLimit: int, countLimit: int,
                             n1: nat, count: int, n2: nat)
    requires n1 == (if purgeAmount > 0 then CostPurge(u, costLimit) else 0)
    requires count == (if purgeAmount > 0 && countLimit > 0 then PurgeCount(|u| - n1, countLimit) else purgeCount)
    requires n2 == (if count > 0 then CountPurge(u[n1..], countLimit) else 0)
    ensures PassCount(u, purgeAmount, purgeCount, costLimit, countLimit) == n1 + n2
  {
  }

  /** Where the cost pass cut n1 slots off s and the count pass a further n2, the list left
      and the slots taken are the cut of s at PassCount. */
  lemma PassesCut<K, V>(s: seq<Slot<K, V>>, purgeAmount: int, purgeCount: int, costLimit: int, countLimit: int,
                        n1: nat, count: int, n2: nat, rest: seq<Slot<K, V>>, taken: seq<Slot<K, V>>)
    requires n1 == (if purgeAmount > 0 then CostPurge(s, costLimit) else 0)
    requires count == (if purgeAmount > 0 && countLimit > 0 then PurgeCount(|s| - n1, countLimit) else purgeCount)
    requires n2 == (if count > 0 then CountPurge(s[n1..], countLimit) else 0)
    requires n1 + n2 <= |s| && rest == s[n1..][n2..] && taken == s[..n1] + s[n1..][..n2]
    ensures var n := PassCount(s, purgeAmount, purgeCount, costLimit, countLimit);
      rest == s[n..] && taken == s[..n]
  {
    PassCountSplit(s, purgeAmount, purgeCount, costLimit, countLimit, n1, count, n2);
    Chain(s, n1, n2);
  }

  /** How many entries setObject takes off the head of the updated list. */
  function EvictionCount<K(==), V>(s: seq<Slot<K, V>>, k: K, v: V, g: nat, costLimit: int, countLimit: int): nat
  {
    PassCount(Update(s, k, v, g), PurgeAmount(Sum(s) + g, g, costLimit), PurgeCount(|s| + 1, countLimit), costLimit, countLimit)
  }

  /** setObject's outcome, given the updated list u and the triggers the update step
      computed: the passes cut u after PassCount entries. */
  lemma SetObjectSpecByPasses<K, V>(s: seq<Slot<K, V>>, k: K, v: V, g: nat, costLimit: int, countLimit: int,
                                    total: int, live: int, u: seq<Slot<K, V>>, purgeAmount: int, purgeCount: int, n: nat)
    requires u == Update(s, k, v, g) && total == Sum(s) && live == |s|
    requires purgeAmount == PurgeAmount(total + g, g, costLimit) && purgeCount == PurgeCount(live + 1, countLimit)
    requires n == PassCount(u, purgeAmount, purgeCount, costLimit, countLimit)
    ensures SetObjectSpec(s, k, v, g, costLimit, countLimit) == Outcome(u[n..], u[..n])
  {
    assert EvictionCount(s, k, v, g, costLimit, countLimit) == n;
  }

  /** The triggers over-estimate: whenever the updated list is over a positive limit, the
      corresponding trigger is positive, so a pass never fails to start when it is needed. */
  lemma TriggersCoverExcess<K, V>(s: seq<Slot<K, V>>, k: K, v: V, g: nat, costLimit: int, countLimit: int)
    requires WellFormed(s)
    ensures var u := Update(s, k, v, g);
      && (costLimit > 0 && Sum(u) > costLimit ==> PurgeAmount(Sum(s) + g, g, costLimit) > 0)
      && (countLimit > 0 && |u| > countLimit ==> PurgeCount(|s| + 1, countLimit) > 0)
  {
    UpdateFacts(s, k, v, g);
  }

  /** The first n slots of an ascending list are ascending. */
  lemma PrefixSorted<K, V>(u: seq<Slot<K, V>>, n: nat, a: seq<Slot<K, V>>)
    requires SortedByCost(u) && n <= |u| && a == u[..n]
    ensures SortedByCost(a)
  {
    forall i, j | 0 <= i < j < |a| ensures a[i].cost <= a[j].cost {
      assert a[i] == u[i] && a[j] == u[j];
    }
  }

  /** Cutting an ascending list after its n cheapest slots: no slot of the first part costs
      more than any slot of the second. */
  lemma CheaperPrefix<K, V>(u: seq<Slot<K, V>>, n: nat, a: seq<Slot<K, V>>, b: seq<Slot<K, V>>)
    requires SortedByCost(u) && n <= |u| && a == u[..n] && b == u[n..]
    ensures forall i, j :: 0 <= i < |a| && 0 <= j < |b| ==> a[i].cost <= b[j].cost
  {
    forall i, j | 0 <= i < |a| && 0 <= j < |b| ensures a[i].cost <= b[j].cost {
      assert a[i] == u[i] && b[j] == u[n + j];
    }
  }

  /** setObject evicts a prefix of the updated list: the list afterwards is what is left of it,
      still ascending with one slot per key, and the evicted entries come off cheapest first,
      none costlier than any entry that stays; the costs of the two parts add up to the
      updated total. */
  lemma SetObjectEvictsCheapest<K, V>(s: seq<Slot<K, V>>, k: K, v: V, g: nat, costLimit: int, countLimit: int)
    requires WellFormed(s)
    ensures var out := SetObjectSpec(s, k, v, g, costLimit, countLimit);
      && out.evicted + out.order == Update(s, k, v, g)
      && WellFormed(out.order)
      && SortedByCost(out.evicted)
      && (forall i, j :: 0 <= i < |out.evicted| && 0 <= j < |out.order| ==> out.evicted[i].cost <= out.order[j].cost)
      && Sum(out.order) + Sum(out.evicted) == Sum(s) - OldCost(s, k) + g
  {
    UpdateFacts(s, k, v, g);
    var out := SetObjectSpec(s, k, v, g, costLimit, countLimit);
    CutFacts(Update(s, k, v, g), EvictionCount(s, k, v, g, costLimit, countLimit), out.evicted, out.order);
  }

  /** Cutting a well-formed list after its first n slots: the two parts make up the list, the
      first is ascending, the second well formed, no slot of the first costs more than any of
      the second, and the totals add up. */
  lemma CutFacts<K, V>(u: seq<Slot<K, V>>, n: nat, a: seq<Slot<K, V>>, b: seq<Slot<K, V>>)
    requires WellFormed(u) && n <= |u| && a == u[..n] && b == u[n..]
    ensures a + b == u && WellFormed(b) && SortedByCost(a)
    ensures forall i, j :: 0 <= i < |a| && 0 <= j < |b| ==> a[i].cost <= b[j].cost
    ensures Sum(b) + Sum(a) == Sum(u)
  {
    assert a + b == u;
    SuffixWellFormed(u, n);
    PrefixSorted(u, n, a);
    CheaperPrefix(u, n, a, b);
    SumSplit(u, n);
  }

  /** Where the cost pass stopped within the limit, dropping more slots keeps it within: the
      costs are not negative. */
  lemma CostPassHolds<K, V>(u: seq<Slot<K, V>>, n1: nat, n: nat, costLimit: int)
    requires n1 <= n <= |u| && (Sum(u[n1..]) <= costLimit || n1 == |u|)
    ensures Sum(u[n..]) <= costLimit || u[n..] == []
  {
    if n1 < |u| {
      SumSplit(u[n1..], n - n1);
      assert u[n1..][n - n1..] == u[n..];
    }
  }

  /** After setObject a positive cost limit holds unless every entry was evicted. */
  lemma SetObjectWithinCostLimit<K, V>(s: seq<Slot<K, V>>, k: K, v: V, g: nat, costLimit: int, countLimit: int)
    requires WellFormed(s) && costLimit > 0
    ensures var out := SetObjectSpec(s, k, v, g, costLimit, countLimit);
      Sum(out.order) <= costLimit || out.order == []
  {
    var u := Update(s, k, v, g);
    TriggersCoverExcess(s, k, v, g, costLimit, countLimit);
    var n1 := if PurgeAmount(Sum(s) + g, g, costLimit) > 0 then CostPurge(u, costLimit) else 0;
    var n := EvictionCount(s, k, v, g, costLimit, countLimit);
    if n1 > 0 {
      CostPurgeStops(u, costLimit);
    } else {
      assert u[0..] == u;
    }
    CostPassHolds(u, n1, n, costLimit);
  }

  /** After setObject a positive count limit holds. */
  lemma SetObjectWithinCountLimit<K, V>(s: seq<Slot<K, V>>, k: K, v: V, g: nat, costLimit: int, countLimit: int)
    requires WellFormed(s) && countLimit > 0
    ensures |SetObjectSpec(s, k, v, g, costLimit, countLimit).order| <= countLimit
  {
    var u := Update(s, k, v, g);
    TriggersCoverExcess(s, k, v, g, costLimit, countLimit);
    var costPass := PurgeAmount(Sum(s) + g, g, costLimit) > 0;
    var n1 := if costPass then CostPurge(u, costLimit) else 0;
    CountPurgeExact(u[n1..], countLimit);
  }

  /** After setObject both limits hold, as far as the list allows: a positive cost limit is
      met unless every entry was evicted, and a positive count limit is always met. */
  lemma SetObjectWithinLimits<K, V>(s: seq<Slot<K, V>>, k: K, v: V, g: nat, costLimit: int, countLimit: int)
    requires WellFormed(s)
    ensures var out := SetObjectSpec(s, k, v, g, costLimit, countLimit);
      && (costLimit > 0 ==> Sum(out.order) <= costLimit || out.order == [])
      && (countLimit > 0 ==> |out.order| <= countLimit)
  {
    if costLimit > 0 {
      SetObjectWithinCostLimit(s, k, v, g, costLimit, countLimit);
    }
    if countLimit > 0 {
      SetObjectWithinCountLimit(s, k, v, g, costLimit, countLimit);
    }
  }

  /** With no limits nothing is evicted: the updated list is kept whole, so k maps to v and
      every other key keeps what it had. */
  lemma SetObjectWithoutLimits<K, V>(s: seq<Slot<K, V>>, k: K, v: V, g: nat, costLimit: int, countLimit: int)
    requires WellFormed(s) && costLimit <= 0 && countLimit <= 0
    ensures var out := SetObjectSpec(s, k, v, g, costLimit, countLimit);
      && out.evicted == []
      && Lookup(out.order, k) == Some(v)
      && (forall k' :: k' != k ==> Lookup(out.order, k') == Lookup(s, k'))
      && |out.order| == (if IndexOf(s, k).Some? then |s| else |s| + 1)
  {
    UpdateFacts(s, k, v, g);
    var u := Update(s, k, v, g);
    assert u[0..] == u;
  }

  /** With a count limit of 2, three objects of cost 1 set in turn: the third setObject evicts
      the first, which is cheapest and, at equal cost, was inserted first. */
  lemma CountLimitTieBreak()
    ensures var s1 := SetObjectSpec([], 1, 'a', 1, -1, 2).order;
      var s2 := SetObjectSpec(s1, 2, 'b', 1, -1, 2).order;
      SetObjectSpec(s2, 3, 'c', 1, -1, 2) == Outcome([Slot(2, 'b', 1), Slot(3, 'c', 1)], [Slot(1, 'a', 1)])
  {
    var s1 := [Slot(1, 'a', 1)];
    assert Update<int, char>([], 1, 'a', 1) == s1;
    assert EvictionCount<int, char>([], 1, 'a', 1, -1, 2) == 0;
    assert SetObjectSpec([], 1, 'a', 1, -1, 2).order == s1 by {
      assert s1[0..] == s1;
    }
    var s2 := [Slot(1, 'a', 1), Slot(2, 'b', 1)];
    assert IndexOf(s1, 2) == None && InsertPos(s1, 1) == 1;
    assert Update(s1, 2, 'b', 1) == s2;
    assert EvictionCount(s1, 2, 'b', 1, -1, 2) == 0;
    assert SetObjectSpec(s1, 2, 'b', 1, -1, 2).order == s2 by {
      assert s2[0..] == s2;
    }
    var u := [Slot(1, 'a', 1), Slot(2, 'b', 1), Slot(3, 'c', 1)];
    assert IndexOf(s2, 3) == None && InsertPos(s2, 1) == 2;
    assert Update(s2, 3, 'c', 1) == u;
    CountPurgeExact(u, 2);
    assert u[0..] == u;
    assert EvictionCount(s2, 3, 'c', 1, -1, 2) == 1;
    assert u[1..] == [Slot(2, 'b', 1), Slot(3, 'c', 1)] && u[..1] == [Slot(1, 'a', 1)];
  }

  /** With a cost limit of 10, objects of cost 4 and then 8: the second setObject pushes the
      total to 12 and evicts the first, the cheapest, leaving a total of 8. */
  lemma CostLimitEvictsCheapest()
    ensures var s1 := SetObjectSpec([], 1, 'a', 4, 10, -1).order;
      var out := SetObjectSpec(s1, 2, 'b', 8, 10, -1);
      out == Outcome([Slot(2, 'b', 8)], [Slot(1, 'a', 4)]) && Sum(out.order) == 8
  {
    var e: seq<Slot<int, char>> := [];
    var s1 := [Slot(1, 'a', 4)];
    assert Update(e, 1, 'a', 4) == s1;
    assert Sum(s1) == 4 by {
      assert s1[1..] == [];
    }
    assert CostPurge(s1, 10) == 0;
    assert EvictionCount(e, 1, 'a', 4, 10, -1) == 0;
    assert SetObjectSpec(e, 1, 'a', 4, 10, -1).order == s1 by {
      assert s1[0..] == s1;
    }
    var u := [Slot(1, 'a', 4), Slot(2, 'b', 8)];
    assert IndexOf(s1, 2) == None && InsertPos(s1, 8) == 1;
    assert Update(s1, 2, 'b', 8) == u;
    var t := u[1..];
    assert t == [Slot(2, 'b', 8)] && t[1..] == [];
    assert Sum(t) == 8 && Sum(u) == 12;
    assert CostPurge(t, 10) == 0;
    assert CostPurge(u, 10) == 1;
    assert EvictionCount(s1, 2, 'b', 8, 10, -1) == 1;
    assert u[..1] == [Slot(1, 'a', 4)];
  }

  /** Cutting a list with one slot per key after n slots: a key keeps its lookup in what is
      left unless its slot is among the first n, in which case it is no longer found. */
  lemma CutLookup<K, V>(u: seq<Slot<K, V>>, n: nat, k: K)
    requires DistinctKeys(u) && n <= |u|
    ensures Lookup(u[n..], k) == Lookup(u, k) || (Lookup(u[n..], k) == None && exists x :: x in u[..n] && x.key == k)
  {
    var b := u[n..];
    match IndexOf(u, k)
    case Some(i) =>
      if i < n {
        assert u[..n][i] == u[i];
        forall j | 0 <= j < |b| ensures b[j].key != k {
          assert b[j] == u[n + j];
        }
      } else {
        assert b[i - n] == u[i];
        forall a, c | 0 <= a < c < |b| ensures b[a].key != b[c].key {
          assert b[a] == u[n + a] && b[c] == u[n + c];
        }
        IndexOfAt(b, k, i - n);
      }
    case None =>
      forall j | 0 <= j < |b| ensures b[j].key != k {
        assert b[j] == u[n + j];
      }
  }

  /** object(forKey:) after setObject: the key just set maps to its new value unless its
      entry was evicted, and every other key keeps what it had unless its entry was evicted;
      an evicted key is no longer found. */
  lemma SetObjectLookup<K, V>(s: seq<Slot<K, V>>, k: K, v: V, g: nat, costLimit: int, countLimit: int)
    requires WellFormed(s)
    ensures var out := SetObjectSpec(s, k, v, g, costLimit, countLimit);
      && (Lookup(out.order, k) == Some(v) || (Lookup(out.order, k) == None && exists x :: x in out.evicted && x.key == k))
      && forall k' :: k' != k ==>
           Lookup(out.order, k') == Lookup(s, k') || (Lookup(out.order, k') == None && exists x :: x in out.evicted && x.key == k')
  {
    UpdateFacts(s, k, v, g);
    var u := Update(s, k, v, g);
    var n := EvictionCount(s, k, v, g, costLimit, countLimit);
    CutLookup(u, n, k);
    forall k' | k' != k
      ensures Lookup(u[n..], k') == Lookup(s, k') || (Lookup(u[n..], k') == None && exists x :: x in u[..n] && x.key == k')
    {
      CutLookup(u, n, k');
    }
  }

  // ---------------------------------------------------------------------------------------
  // Elements of a list under unlinking and splicing

  lemma SpliceElements<T>(o: seq<T>, p: nat, x: T)
    requires p <= |o|
    ensures multiset(o[..p] + [x] + o[p..]) == multiset(o) + multiset{x}
  {
    assert o == o[..p] + o[p..];
  }

  lemma UnlinkElements<T>(o: seq<T>, i: nat)
    requires i < |o|
    ensures multiset(o[..i] + o[i + 1..]) + multiset{o[i]} == multiset(o)
  {
    assert o == o[..i] + [o[i]] + o[i + 1..];
  }

  /** Whatever is in o with x spliced in was in o or is x. */
  lemma SpliceMembers<T>(o: seq<T>, p: nat, x: T)
    requires p <= |o|
    ensures forall y :: y in o[..p] + [x] + o[p..] ==> y in o || y == x
  {
    forall y | y in o[..p] + [x] + o[p..] ensures y in o || y == x {
      if y in o[..p] {
        assert y in o[..p] + o[p..];
      } else if y in o[p..] {
        assert y in o[..p] + o[p..];
      }
    }
    assert o[..p] + o[p..] == o;
  }

  /** Moving the head of b to the end of a leaves a + b as it was. */
  lemma ShiftHead<T>(a: seq<T>, b: seq<T>)
    requires b != []
    ensures a + [b[0]] + b[1..] == a + b
    ensures b[..0] + b[1..] == b[1..]
  {
    assert b == [b[0]] + b[1..];
  }

  /** Taking the head off a list lowers the total by the head's cost. */
  lemma DropHead<K, V>(s: seq<Slot<K, V>>)
    requires s != []
    ensures RemoveAt(s, 0) == s[1..] && Sum(s[1..]) == Sum(s) - s[0].cost
  {
    assert s[..0] + s[1..] == s[1..];
  }

  /** A suffix of a well-formed list is well formed. */
  lemma SuffixWellFormed<K, V>(s: seq<Slot<K, V>>, n: nat)
    requires WellFormed(s) && n <= |s|
    ensures WellFormed(s[n..])
  {
    forall i, j | 0 <= i < j < |s| - n ensures s[n..][i].cost <= s[n..][j].cost && s[n..][i].key != s[n..][j].key {
      assert s[n..][i] == s[n + i] && s[n..][j] == s[n + j];
    }
  }

  /** Two cuts in a row are one cut at the sum of their places. */
  lemma Chain<T>(s: seq<T>, n1: nat, n2: nat)
    requires n1 + n2 <= |s|
    ensures s[n1..][n2..] == s[n1 + n2..]
    ensures s[..n1] + s[n1..][..n2] == s[..n1 + n2]
  {
    assert s[..n1] + s[n1..][..n2] == s[..n1 + n2];
  }

  /** The values of a list grow with it. */
  lemma ValuesOfAppend<K, V>(a: seq<Slot<K, V>>, x: Slot<K, V>)
    ensures ValuesOf(a + [x]) == ValuesOf(a) + [x.value]
  {
    assert ValuesOf(a + [x])[|a|] == x.value;
  }

  /** What is in a suffix of s is in s. */
  lemma SuffixMembers<T>(s: seq<T>, n: nat)
    requires n <= |s|
    ensures forall x :: x in s[n..] ==> x in s
  {
    forall x | x in s[n..] ensures x in s {
      var i :| 0 <= i < |s[n..]| && s[n..][i] == x;
      assert s[n + i] == x;
    }
  }
}
