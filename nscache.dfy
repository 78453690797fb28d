/** NSCache (Foundation/NSCache.swift): an identity-keyed cache whose entries are also threaded,
    through their prevByCost/nextByCost links, into a list of ascending cost, from which the
    cheapest entries are evicted when a cost or count limit is exceeded.

    Each lock/unlock region of the original is one step here; the lock itself is not modelled.
    The ghost field Order lists the entries reachable from byCost, head first, and Slots is the
    value each of them holds; the methods are proved against the functions of CacheSpec. */
module NSCache {
  import opened CacheSpec

  /** NSCacheEntry (Foundation/NSCache.swift:10-21).  The key never changes. */
  class Entry<K, V> {
    const key: K
    var value: V
    var cost: nat
    var prevByCost: Entry?<K, V>
    var nextByCost: Entry?<K, V>

    constructor (key: K, value: V, cost: nat)
      ensures this.key == key && this.value == value && this.cost == cost
      ensures prevByCost == null && nextByCost == null
    {
      this.key := key;
      this.value := value;
      this.cost := cost;
      prevByCost := null;
      nextByCost := null;
    }
  }

  /** The delegate (NSCacheDelegate, Foundation/NSCache.swift:177-185).  What it does with an
      evicted object is not modelled; it only records, in order, the objects it was told about. */
  class Observer<V> {
    ghost var Evicted: seq<V>

    constructor ()
      ensures Evicted == []
    {
      Evicted := [];
    }

    /** cache(_:willEvictObject:) */
    method CacheWillEvictObject(obj: V)
      modifies this`Evicted
      ensures Evicted == old(Evicted) + [obj]
    {
      Evicted := Evicted + [obj];
    }
  }

  /** Key, value and cost of each entry of es, in order. */
  ghost function SlotsOf<K, V>(es: seq<Entry<K, V>>): seq<Slot<K, V>>
    reads es`value, es`cost
  {
    if es == [] then [] else [Slot(es[0].key, es[0].value, es[0].cost)] + SlotsOf(es[1..])
  }

  lemma {:induction false} SlotsOfAppend<K, V>(a: seq<Entry<K, V>>, b: seq<Entry<K, V>>)
    ensures SlotsOf(a + b) == SlotsOf(a) + SlotsOf(b)
  {
    if a == [] {
      assert a + b == b;
    } else {
      assert (a + b)[1..] == a[1..] + b;
      SlotsOfAppend(a[1..], b);
    }
  }

  /** The dictionary that indexes the entries of s by their keys. */
  ghost function MapOf<K, V>(s: seq<Entry<K, V>>): map<K, Entry<K, V>>
  {
    if s == [] then map[] else MapOf(s[1..])[s[0].key := s[0]]
  }

  /** No two entries of s carry the same key. */
  ghost predicate UniqueKeys<K, V>(s: seq<Entry<K, V>>)
  {
    forall i, j :: 0 <= i < j < |s| ==> s[i].key != s[j].key
  }

  /** Every key of MapOf(s) is the key of an entry of s. */
  lemma {:induction false} MapOfOnly<K, V>(s: seq<Entry<K, V>>, k: K) returns (i: nat)
    requires k in MapOf(s)
    ensures i < |s| && s[i].key == k && MapOf(s)[k] == s[i]
  {
    if s[0].key == k {
      i := 0;
    } else {
      var j := MapOfOnly(s[1..], k);
      i := j + 1;
    }
  }

  /** With unique keys, each entry of s is indexed under its key. */
  lemma {:induction false} MapOfAt<K, V>(s: seq<Entry<K, V>>, i: nat)
    requires UniqueKeys(s) && i < |s|
    ensures s[i].key in MapOf(s) && MapOf(s)[s[i].key] == s[i]
  {
    if i > 0 {
      MapOfAt(s[1..], i - 1);
    }
  }

  /** A key carried by no entry of s is not indexed. */
  lemma MapOfAbsent<K, V>(s: seq<Entry<K, V>>, k: K)
    requires forall i :: 0 <= i < |s| ==> s[i].key != k
    ensures k !in MapOf(s)
  {
    if k in MapOf(s) {
      var i := MapOfOnly(s, k);
    }
  }

  /** With unique keys, the dictionary has one key per entry. */
  lemma {:induction false} MapOfSize<K, V>(s: seq<Entry<K, V>>)
    requires UniqueKeys(s)
    ensures |MapOf(s)| == |s|
  {
    if s != [] {
      MapOfSize(s[1..]);
      MapOfAbsent(s[1..], s[0].key);
    }
  }

  /** Splicing an entry with a new key into the list maps that key to it, and only that. */
  lemma {:induction false} MapOfSplice<K, V>(o: seq<Entry<K, V>>, p: nat, e: Entry<K, V>)
    requires p <= |o| && forall i :: 0 <= i < |o| ==> o[i].key != e.key
    ensures MapOf(o[..p] + [e] + o[p..]) == MapOf(o)[e.key := e]
  {
    if p == 0 {
      assert o[..0] + [e] + o[0..] == [e] + o;
      assert ([e] + o)[1..] == o;
    } else {
      var r := o[..p] + [e] + o[p..];
      assert r[0] == o[0];
      assert r[1..] == o[1..][..p - 1] + [e] + o[1..][p - 1..];
      MapOfSplice(o[1..], p - 1, e);
    }
  }

  /** Unlinking the entry at i, in a list with unique keys, unmaps exactly its key. */
  lemma {:induction false} MapOfUnlink<K, V>(o: seq<Entry<K, V>>, i: nat)
    requires UniqueKeys(o) && i < |o|
    ensures MapOf(o[..i] + o[i + 1..]) == MapOf(o) - {o[i].key}
  {
    if i == 0 {
      assert o[..0] + o[1..] == o[1..];
      MapOfAbsent(o[1..], o[0].key);
    } else {
      var r := o[..i] + o[i + 1..];
      assert r[0] == o[0];
      assert r[1..] == o[1..][..i - 1] + o[1..][i..];
      MapOfUnlink(o[1..], i - 1);
    }
  }

  /** With unique keys, no entry left after unlinking the one at i carries its key. */
  lemma UnlinkedKeys<K, V>(o: seq<Entry<K, V>>, i: nat, a: seq<Entry<K, V>>)
    requires UniqueKeys(o) && i < |o| && a == o[..i] + o[i + 1..]
    ensures forall j :: 0 <= j < |a| ==> a[j].key != o[i].key
  {
    forall j | 0 <= j < |a| ensures a[j].key != o[i].key {
      if j < i {
        assert a[j] == o[j];
      } else {
        assert a[j] == o[j + 1];
      }
    }
  }

  /** Taking a key out of a map and putting its entry back leaves the map as it was. */
  lemma RestoreKey<K, U>(m: map<K, U>, k: K)
    requires k in m
    ensures (m - {k})[k := m[k]] == m
  {
  }

  /** Unlinking the entry at i, leaving a, and splicing it back in at p, in a list with
      unique keys, leaves the map of the list as it was. */
  lemma MapOfMove<K, V>(o: seq<Entry<K, V>>, i: nat, a: seq<Entry<K, V>>, p: nat)
    requires UniqueKeys(o) && i < |o| && a == o[..i] + o[i + 1..] && p <= |a|
    ensures MapOf(a[..p] + [o[i]] + a[p..]) == MapOf(o)
  {
    UnlinkedKeys(o, i, a);
    MapOfUnlink(o, i);
    MapOfSplice(a, p, o[i]);
    MapOfAt(o, i);
    RestoreKey(MapOf(o), o[i].key);
  }

  /** Each entry of s is followed, through nextByCost, by the next one, and the last by null. */
  ghost predicate NextLinks<K, V>(s: seq<Entry<K, V>>)
    reads s`nextByCost
  {
    forall a {:trigger s[a].nextByCost} :: 0 <= a < |s| ==> s[a].nextByCost == (if a + 1 < |s| then s[a + 1] else null)
  }

  /** Each entry of s is preceded, through prevByCost, by the one before it, and the first by null. */
  ghost predicate PrevLinks<K, V>(s: seq<Entry<K, V>>)
    reads s`prevByCost
  {
    forall b {:trigger s[b].prevByCost} :: 0 <= b < |s| ==> s[b].prevByCost == (if b == 0 then null else s[b - 1])
  }

  /** Following prevByCost back from two places of a threaded list reaches the head from the
      nearer one first, so the two places hold different entries. */
  lemma {:induction false} DistinctAt<K, V>(s: seq<Entry<K, V>>, i: nat, j: nat)
    requires PrevLinks(s) && i < j < |s|
    ensures s[i] != s[j]
    decreases i
  {
    assert s[j].prevByCost == s[j - 1];
    assert s[i].prevByCost == (if i == 0 then null else s[i - 1]);
    if i > 0 {
      DistinctAt(s, i - 1, j - 1);
    }
  }

  /** A threaded list holds the entry at i nowhere else. */
  lemma DistinctFrom<K, V>(s: seq<Entry<K, V>>, i: nat)
    requires PrevLinks(s) && i < |s|
    ensures forall k :: 0 <= k < |s| && k != i ==> s[k] != s[i]
  {
    forall k | 0 <= k < |s| && k != i ensures s[k] != s[i] {
      if k < i {
        DistinctAt(s, k, i);
      } else {
        DistinctAt(s, i, k);
      }
    }
  }

  /** The values of the first i + 1 entries of t are those of the first i, then t[i]'s. */
  lemma SlotsOfTake<K, V>(t: seq<Entry<K, V>>, i: nat)
    requires i < |t|
    ensures ValuesOf(SlotsOf(t[..i + 1])) == ValuesOf(SlotsOf(t[..i])) + [t[i].value]
  {
    assert t[..i + 1] == t[..i] + [t[i]];
    SlotsOfAppend(t[..i], [t[i]]);
    assert SlotsOf([t[i]]) == [Slot(t[i].key, t[i].value, t[i].cost)] by {
      assert [t[i]][1..] == [];
    }
    ValuesOfAppend(SlotsOf(t[..i]), Slot(t[i].key, t[i].value, t[i].cost));
  }

  /** The slot of each entry carries that entry's key. */
  lemma {:induction false} SlotsOfKeys<K, V>(t: seq<Entry<K, V>>)
    ensures |SlotsOf(t)| == |t|
    ensures forall i :: 0 <= i < |t| ==> SlotsOf(t)[i].key == t[i].key
  {
    if t != [] {
      SlotsOfKeys(t[1..]);
      assert forall i :: 1 <= i < |t| ==> SlotsOf(t)[i] == SlotsOf(t[1..])[i - 1];
    }
  }

  /** Unmapping the first of a run of entries set aside, in front of the list o: the rest of
      the run, in front of o, still has unique keys and is indexed by the dictionary less the
      first entry's key. */
  lemma UnmapHead<K, V>(a: seq<Entry<K, V>>, o: seq<Entry<K, V>>, x: seq<Entry<K, V>>, y: seq<Entry<K, V>>)
    requires a != [] && x == a + o && y == a[1..] + o && UniqueKeys(x)
    ensures UniqueKeys(y)
    ensures MapOf(y) == MapOf(x) - {a[0].key}
  {
    assert x[0] == a[0] && x[1..] == y;
    forall j | 0 <= j < |y| ensures y[j] == x[j + 1] && y[j].key != a[0].key {
      assert y[j] == x[1..][j];
    }
    MapOfAbsent(y, a[0].key);
    DropKey(MapOf(y), a[0].key, a[0]);
  }

  /** Adding a key that was absent and then removing it gives back the dictionary. */
  lemma DropKey<K, U>(m: map<K, U>, k: K, v: U)
    requires k !in m
    ensures m[k := v] - {k} == m
  {
  }

  class Cache<K(==), V> {
    var entries: map<K, Entry<K, V>>
    var totalCost: int
    var byCost: Entry?<K, V>
    var totalCostLimit: int
    var countLimit: int
    var delegate: Observer?<V>

    /** The entries reachable from byCost, in list order. */
    ghost var Order: seq<Entry<K, V>>
    /** Key, value and cost of each entry of Order. */
    ghost var Slots: seq<Slot<K, V>>

    /** The delegate, if there is one, as the set of objects setObject may notify. */
    ghost function Listener(): set<Observer<V>>
      reads this`delegate
    {
      if delegate == null then {} else var del: Observer<V> := delegate; {del}
    }

    /** The links thread exactly the entries of Order, both ways, starting at byCost. */
    ghost predicate Linked()
      reads this`byCost, this`Order, Order`prevByCost, Order`nextByCost
    {
      && byCost == (if Order == [] then null else Order[0])
      && NextLinks(Order)
      && PrevLinks(Order)
    }

    ghost predicate Tied()
      reads this`Order, this`Slots, Order`value, Order`cost
    {
      |Slots| == |Order| && forall i :: 0 <= i < |Order| ==> Slots[i] == Slot(Order[i].key, Order[i].value, Order[i].cost)
    }

    /** The list half of the invariant: the links thread Order, Slots mirrors it and _totalCost
        is the sum of its costs. */
    ghost predicate Listed()
      reads this`totalCost, this`byCost, this`Order, this`Slots
      reads Order`prevByCost, Order`nextByCost, Order`value, Order`cost
    {
      Linked() && Tied() && totalCost == Sum(Slots)
    }

    /** The invariant while setObject is between its purge and its final unmapping: the entries
        of toRemove are unlinked from the list but still in _entries.  The running total covers
        the list only. */
    ghost predicate Window(toRemove: seq<Entry<K, V>>)
      reads this`entries, this`totalCost, this`byCost, this`Order, this`Slots
      reads Order`prevByCost, Order`nextByCost, Order`value, Order`cost
    {
      Listed() && WellFormed(Slots) && UniqueKeys(toRemove + Order) && entries == MapOf(toRemove + Order)
    }

    /** The invariant between operations: _entries maps each key to the entry of the list that
        carries it and to nothing else, the list is ascending in cost with one entry per key,
        and _totalCost is the sum of the costs. */
    ghost predicate Valid()
      reads this`entries, this`totalCost, this`byCost, this`Order, this`Slots
      reads Order`prevByCost, Order`nextByCost, Order`value, Order`cost
    {
      Listed() && WellFormed(Slots) && UniqueKeys(Order) && entries == MapOf(Order)
    }

    /** With nothing set aside, the purge invariant is the invariant between operations. */
    lemma WindowEmpty()
      ensures Window([]) <==> Valid()
    {
      assert [] + Order == Order;
    }

    /** Distinct keys in the slots are distinct keys in the list they are tied to. */
    lemma TiedKeys()
      requires Tied() && DistinctKeys(Slots)
      ensures UniqueKeys(Order)
    {
      forall a, b | 0 <= a < b < |Order| ensures Order[a].key != Order[b].key {
        assert Order[a].key == Slots[a].key && Order[b].key == Slots[b].key;
      }
    }

    /** init() (Foundation/NSCache.swift:26-34): empty, both limits -1 (no limit), no delegate. */
    constructor ()
      ensures Valid() && Slots == [] && entries == map[] && totalCost == 0
      ensures totalCostLimit == -1 && countLimit == -1 && delegate == null
    {
      entries := map[];
      totalCost := 0;
      byCost := null;
      totalCostLimit := -1;
      countLimit := -1;
      delegate := null;
      Order := [];
      Slots := [];
    }

    /** Between operations the dictionary and the list agree: a key is mapped exactly when the
        list carries it, to the entry at that place, and there are as many keys as entries. */
    lemma EntriesMatchList(k: K)
      requires Valid()
      ensures k in entries <==> IndexOf(Slots, k).Some?
      ensures k in entries ==> entries[k] == Order[IndexOf(Slots, k).value]
      ensures k in entries ==> Lookup(Slots, k) == Some(entries[k].value)
      ensures |entries| == |Slots|
    {
      MapOfSize(Order);
      if k in entries {
        var i := MapOfOnly(Order, k);
        IndexOfAt(Slots, k, i);
      } else {
        forall i | 0 <= i < |Slots| ensures Slots[i].key != k {
          MapOfAt(Order, i);
        }
      }
    }

    /** object(forKey:) (Foundation/NSCache.swift:38-50): the value stored under key, if any;
        nothing changes. */
    method ObjectForKey(key: K) returns (obj: Option<V>)
      requires Valid()
      ensures obj == Lookup(Slots, key)
    {
      EntriesMatchList(key);
      if key in entries {
        obj := Some(entries[key].value);
      } else {
        obj := None;
      }
    }

    /** remove(_:) (Foundation/NSCache.swift:56-64): the neighbours of entry, the one at i of
        the threaded list o, are linked to each other and the head advances if entry was the
        head, so that the links thread r, which is o without entry.  Only links change; entry
        keeps its own (now stale) links. */
    method Remove(entry: Entry<K, V>, ghost o: seq<Entry<K, V>>, ghost i: nat, ghost r: seq<Entry<K, V>>)
      requires i < |o| && o[i] == entry && r == o[..i] + o[i + 1..]
      requires byCost == o[0] && NextLinks(o) && PrevLinks(o)
      modifies this`byCost, o`prevByCost, o`nextByCost
      ensures byCost == (if r == [] then null else r[0]) && NextLinks(r) && PrevLinks(r)
    {
      assert forall j :: 0 <= j < |r| ==> r[j] == o[if j < i then j else j + 1];
      var oldPrev := entry.prevByCost;
      var oldNext := entry.nextByCost;
      assert oldPrev == (if i == 0 then null else o[i - 1]);
      assert oldNext == (if i + 1 < |o| then o[i + 1] else null);
      DistinctFrom(o, i);
      if 0 < i {
        DistinctFrom(o, i - 1);
      }
      if i + 1 < |o| {
        DistinctFrom(o, i + 1);
      }
      if oldPrev != null {
        oldPrev.nextByCost := oldNext;
      }
      if oldNext != null {
        oldNext.prevByCost := oldPrev;
      }
      if entry == byCost {
        byCost := entry.nextByCost;
      }
    }

    /** The list half of remove(_:) together with its ghost view: the entry at i leaves Order
        and its slot leaves Slots; the rest keep their relative order. */
    method Detach(entry: Entry<K, V>, ghost i: nat)
      requires Linked() && Tied() && i < |Order| && Order[i] == entry
      modifies this`byCost, this`Order, this`Slots, Order`prevByCost, Order`nextByCost
      ensures Linked() && Tied()
      ensures Order == old(Order[..i] + Order[i + 1..])
      ensures Slots == RemoveAt(old(Slots), i)
    {
      ghost var o := Order;
      Remove(entry, o, i, o[..i] + o[i + 1..]);
      Untie(o, Slots, i);
    }

    /** The completed splice of insert(_:): entry, which is not in the threaded list o, is linked
        between prev and next, the entries at p - 1 and p of o (null at either end), fixing the
        links on both sides and the head, so that the links thread r. */
    method Splice(entry: Entry<K, V>, prev: Entry?<K, V>, next: Entry?<K, V>,
                  ghost o: seq<Entry<K, V>>, ghost p: nat, ghost r: seq<Entry<K, V>>)
      requires byCost == (if o == [] then null else o[0]) && NextLinks(o) && PrevLinks(o)
      requires entry !in o && p <= |o| && r == o[..p] + [entry] + o[p..]
      requires prev == (if p == 0 then null else o[p - 1])
      requires next == (if p < |o| then o[p] else null)
      modifies this`byCost, o`prevByCost, o`nextByCost, entry`prevByCost, entry`nextByCost
      ensures byCost == r[0] && NextLinks(r) && PrevLinks(r)
    {
      assert forall j :: 0 <= j < |r| ==> r[j] == (if j < p then o[j] else if j == p then entry else o[j - 1]);
      if p < |o| {
        DistinctFrom(o, p);
      }
      if 0 < p {
        DistinctFrom(o, p - 1);
      }
      entry.prevByCost := prev;
      entry.nextByCost := next;
      if next != null {
        next.prevByCost := entry;
      }
      if prev == null {
        byCost := entry;
      } else {
        prev.nextByCost := entry;
      }
    }

    /** The walk of insert(_:) (Foundation/NSCache.swift:69-72): from the head, past every entry
        whose cost does not exceed cost.  element is the first costlier entry (null if there is
        none) and last the entry before it. */
    method Walk(cost: nat) returns (element: Entry?<K, V>, last: Entry<K, V>, ghost j: nat)
      requires Linked() && Tied() && byCost != null
      ensures j == InsertPos(Slots, cost)
      ensures element == (if j < |Order| then Order[j] else null)
      ensures 0 < j ==> last == Order[j - 1]
    {
      element := byCost;
      last := byCost;
      j := 0;
      while element != null
        invariant 0 <= j <= |Order|
        invariant element == (if j < |Order| then Order[j] else null)
        invariant 0 < j ==> last == Order[j - 1]
        invariant forall m :: 0 <= m < j ==> Slots[m].cost <= cost
        decreases |Order| - j
      {
        if element.cost > cost {
          break;
        }
        last := element;
        element := element.nextByCost;
        j := j + 1;
      }
    }

    /** insert(_:) (Foundation/NSCache.swift:66-81) with the splice completed: entry goes before
        the first costlier entry, after every entry of equal cost, or at the tail if there is no
        costlier entry. */
    method Insert(entry: Entry<K, V>) returns (ghost p: nat)
      requires Linked() && Tied() && entry !in Order
      modifies this`byCost, this`Order, this`Slots, Order`prevByCost, Order`nextByCost
      modifies entry`prevByCost, entry`nextByCost
      ensures Linked() && Tied()
      ensures p == InsertPos(old(Slots), entry.cost)
      ensures Order == old(Order)[..p] + [entry] + old(Order)[p..]
      ensures Slots == SortedInsert(old(Slots), Slot(entry.key, entry.value, entry.cost))
    {
      ghost var o := Order;
      if byCost == null {
        // the code also leaves the entry's own links as they were
        p := 0;
        Splice(entry, null, null, o, 0, [entry] + o);
      } else {
        var element, last;
        element, last, p := Walk(entry.cost);
        if element != null {
          // the code sets only the entry's own two links here
          Splice(entry, element.prevByCost, element, o, p, o[..p] + [entry] + o[p..]);
        } else {
          // the code does nothing when no entry is costlier
          Splice(entry, last, null, o, p, o[..p] + [entry] + o[p..]);
        }
      }
      Retie(o, Slots, p, entry);
    }

    /** insert(_:) (Foundation/NSCache.swift:66-81) as the code is written.  On an empty list
        entry becomes the head.  Otherwise only entry's own two links are set, to the first
        costlier entry and the one before it, and nothing at all happens when no entry is
        costlier.  No link of the list and not the head is redirected to entry, so the list
        the links thread is the old one, without entry. */
    method InsertAsWritten(entry: Entry<K, V>)
      requires Linked() && Tied() && entry !in Order
      modifies this`byCost, entry`prevByCost, entry`nextByCost
      ensures Order == [] ==> byCost == entry
      ensures Order != [] ==> Linked() && entry !in Order
      ensures Order != [] && InsertPos(Slots, entry.cost) < |Order| ==>
                entry.nextByCost == Order[InsertPos(Slots, entry.cost)] &&
                entry.prevByCost == (if InsertPos(Slots, entry.cost) == 0 then null else Order[InsertPos(Slots, entry.cost) - 1])
      ensures Order == [] || InsertPos(Slots, entry.cost) == |Order| ==>
                entry.prevByCost == old(entry.prevByCost) && entry.nextByCost == old(entry.nextByCost)
    {
      if byCost == null {
        byCost := entry;
      } else {
        var element, last, p := Walk(entry.cost);
        if element != null {
          // the neighbours' links and the head are left as they were
          var newPrev := element.prevByCost;
          entry.prevByCost := newPrev;
          entry.nextByCost := element;
        }
      }
    }

    /** Slots follows Order through the removal of the entry at i. */
    ghost method Untie(o: seq<Entry<K, V>>, s: seq<Slot<K, V>>, i: nat)
      requires |s| == |o| && i < |o|
      requires forall m :: 0 <= m < |o| ==> s[m] == Slot(o[m].key, o[m].value, o[m].cost)
      modifies this`Order, this`Slots
      ensures Order == o[..i] + o[i + 1..] && Slots == RemoveAt(s, i) && Tied()
    {
      Order := o[..i] + o[i + 1..];
      Slots := RemoveAt(s, i);
      forall m | 0 <= m < |Order|
        ensures Slots[m] == Slot(Order[m].key, Order[m].value, Order[m].cost)
      {
        if m < i {
          assert Order[m] == o[m] && Slots[m] == s[m];
        } else {
          assert Order[m] == o[m + 1] && Slots[m] == s[m + 1];
        }
      }
    }

    /** Slots follows Order through the insertion of entry at p. */
    ghost method Retie(o: seq<Entry<K, V>>, s: seq<Slot<K, V>>, p: nat, entry: Entry<K, V>)
      requires |s| == |o| && p <= |o|
      requires forall m :: 0 <= m < |o| ==> s[m] == Slot(o[m].key, o[m].value, o[m].cost)
      modifies this`Order, this`Slots
      ensures Order == o[..p] + [entry] + o[p..]
      ensures Slots == s[..p] + [Slot(entry.key, entry.value, entry.cost)] + s[p..] && Tied()
    {
      Order := o[..p] + [entry] + o[p..];
      Slots := s[..p] + [Slot(entry.key, entry.value, entry.cost)] + s[p..];
      forall m | 0 <= m < |Order|
        ensures Slots[m] == Slot(Order[m].key, Order[m].value, Order[m].cost)
      {
        if m < p {
          assert Order[m] == o[m] && Slots[m] == s[m];
        } else if m > p {
          assert Order[m] == o[m - 1] && Slots[m] == s[m - 1];
        }
      }
    }

    // -------------------------------------------------------------------------------------
    // setObject(_:forKey:cost:), step 1: the update (Foundation/NSCache.swift:86-109)

    /** The overwrite branch (Foundation/NSCache.swift:99-105) for the entry at index i of the
        list: the value is replaced in place and, if the cost changed, the entry is moved to its
        new sorted place.  The running total also loses the old cost, which the code omits. */
    method Overwrite(entry: Entry<K, V>, ghost i: nat, obj: V, g: nat)
      requires Linked() && Tied() && UniqueKeys(Order) && i < |Order| && Order[i] == entry
      modifies this`totalCost, this`byCost, this`Order, this`Slots
      modifies Order`value, Order`cost, Order`prevByCost, Order`nextByCost
      ensures Linked() && Tied()
      ensures totalCost == old(totalCost) - old(entry.cost)
      ensures Slots == if old(entry.cost) == g then old(Slots)[i := Slot(entry.key, obj, g)]
                       else SortedInsert(RemoveAt(old(Slots), i), Slot(entry.key, obj, g))
      ensures multiset(Order) == multiset(old(Order)) && MapOf(Order) == MapOf(old(Order))
    {
      DistinctFrom(Order, i);
      entry.value := obj;
      totalCost := totalCost - entry.cost;
      Slots := Slots[i := Slot(entry.key, obj, entry.cost)];
      forall j | 0 <= j < |Order| ensures Slots[j] == Slot(Order[j].key, Order[j].value, Order[j].cost) {
        if j != i {
          assert Order[j] != entry;
        }
      }
      if entry.cost != g {
        assert RemoveAt(Slots, i) == RemoveAt(old(Slots), i);
        Reposition(entry, i, g);
      }
    }

    /** The cost change of the overwrite branch (Foundation/NSCache.swift:101-105): the new cost
        is recorded and the entry is unlinked and inserted again at its new sorted place. */
    method Reposition(entry: Entry<K, V>, ghost i: nat, g: nat)
      requires Linked() && Tied() && UniqueKeys(Order) && i < |Order| && Order[i] == entry
      modifies this`byCost, this`Order, this`Slots
      modifies Order`cost, Order`prevByCost, Order`nextByCost
      ensures Linked() && Tied()
      ensures Slots == SortedInsert(RemoveAt(old(Slots), i), Slot(entry.key, entry.value, g))
      ensures multiset(Order) == multiset(old(Order)) && MapOf(Order) == MapOf(old(Order))
    {
      ghost var o := Order;
      DistinctFrom(Order, i);
      entry.cost := g;
      Slots := Slots[i := Slot(entry.key, entry.value, g)];
      forall j | 0 <= j < |Order| ensures Slots[j] == Slot(Order[j].key, Order[j].value, Order[j].cost) {
        if j != i {
          assert Order[j] != entry;
        }
      }
      assert RemoveAt(Slots, i) == RemoveAt(old(Slots), i);
      Detach(entry, i);
      ghost var a := Order;
      ghost var p := Insert(entry);
      UnlinkElements(o, i);
      SpliceElements(a, p, entry);
      MapOfMove(o, i, a, p);
    }

    /** A fresh entry for key, obj and g, inserted into the cost list at its sorted place. */
    method Link(key: K, obj: V, g: nat) returns (entry: Entry<K, V>, ghost p: nat)
      requires Linked() && Tied()
      modifies this`entries, this`byCost, this`Order, this`Slots, Order`prevByCost, Order`nextByCost
      ensures fresh(entry) && entry.key == key && entries == old(entries)[key := entry]
      ensures Linked() && Tied()
      ensures p <= |old(Order)| && Order == old(Order)[..p] + [entry] + old(Order)[p..]
      ensures Slots == SortedInsert(old(Slots), Slot(key, obj, g))
      ensures forall i :: 0 <= i < |Order| ==> Order[i] in old(Order) || fresh(Order[i])
    {
      entry := new Entry(key, obj, g);
      entries := entries[key := entry];
      p := Insert(entry);
      SpliceMembers(old(Order), p, entry);
    }

    /** The branch of a new key (Foundation/NSCache.swift:106-108): a fresh entry is mapped
        under key and inserted into the cost list, which the code omits. */
    method AddEntry(key: K, obj: V, g: nat, ghost s0: seq<Slot<K, V>>)
      requires Linked() && Tied() && WellFormed(Slots) && UniqueKeys(Order) && entries == MapOf(Order)
      requires totalCost == Sum(Slots) + g && key !in entries && Slots == s0
      modifies this`entries, this`byCost, this`Order, this`Slots, Order`prevByCost, Order`nextByCost
      ensures Valid()
      ensures Slots == Update(s0, key, obj, g)
      ensures forall i :: 0 <= i < |Order| ==> Order[i] in old(Order) || fresh(Order[i])
    {
      assert forall j :: 0 <= j < |Slots| ==> Slots[j].key != key by {
        forall j | 0 <= j < |Slots| ensures Slots[j].key != key {
          MapOfAt(Order, j);
        }
      }
      assert Update(Slots, key, obj, g) == SortedInsert(Slots, Slot(key, obj, g));
      assert WellFormed(SortedInsert(Slots, Slot(key, obj, g))) && Sum(SortedInsert(Slots, Slot(key, obj, g))) == totalCost by {
        InsertFresh(Slots, Slot(key, obj, g));
      }
      ghost var o := Order;
      var entry, p := Link(key, obj, g);
      MapOfSplice(o, p, entry);
      TiedKeys();
    }

    /** The overwrite branch with the invariant: the list and the running total end as Update
        says, and the dictionary is unchanged. */
    method Replace(entry: Entry<K, V>, key: K, ghost i: nat, obj: V, g: nat, ghost s0: seq<Slot<K, V>>)
      requires Linked() && Tied() && WellFormed(Slots) && UniqueKeys(Order) && entries == MapOf(Order)
      requires totalCost == Sum(Slots) + g && i < |Order| && Order[i] == entry && entry.key == key
      requires IndexOf(Slots, key) == Some(i) && Slots == s0
      modifies this`totalCost, this`byCost, this`Order, this`Slots
      modifies Order`value, Order`cost, Order`prevByCost, Order`nextByCost
      ensures Valid()
      ensures Slots == Update(s0, key, obj, g)
      ensures forall i :: 0 <= i < |Order| ==> Order[i] in old(Order)
    {
      UpdateFacts(Slots, key, obj, g);
      Overwrite(entry, i, obj, g);
      TiedKeys();
      forall x | x in Order ensures x in old(Order) {
        assert x in multiset(Order);
      }
    }

    /** Step 1 of setObject: the running total is raised by g, the two purge triggers are
        computed as the code computes them, and the key is overwritten or added.  A new entry is
        also inserted into the cost list, which the code omits. */
    method UpdateEntry(obj: V, key: K, g: nat) returns (purgeAmount: int, purgeCount: int)
      requires Valid()
      modifies this`entries, this`totalCost, this`byCost, this`Order, this`Slots
      modifies Order`value, Order`cost, Order`prevByCost, Order`nextByCost
      ensures Valid()
      ensures Slots == Update(old(Slots), key, obj, g)
      ensures purgeAmount == PurgeAmount(old(totalCost) + g, g, totalCostLimit)
      ensures purgeCount == PurgeCount(|old(entries)| + 1, countLimit)
      ensures forall i :: 0 <= i < |Order| ==> Order[i] in old(Order) || fresh(Order[i])
    {
      ghost var s0 := Slots;
      EntriesMatchList(key);
      totalCost := totalCost + g;
      purgeAmount := 0;
      if totalCostLimit > 0 {
        purgeAmount := (totalCost + g) - totalCostLimit;
      }
      purgeCount := 0;
      if countLimit > 0 {
        purgeCount := (|entries| + 1) - countLimit;
      }
      if key in entries {
        var entry := entries[key];
        Replace(entry, key, IndexOf(Slots, key).value, obj, g, s0);
      } else {
        AddEntry(key, obj, g, s0);
      }
    }

    // -------------------------------------------------------------------------------------
    // setObject(_:forKey:cost:), step 2: the purge passes (Foundation/NSCache.swift:111-142)

    /** One round of either purge loop (Foundation/NSCache.swift:117-119 and :134-136): the
        head of the list leaves the running total, is appended to toRemove and is unlinked; it
        stays in the dictionary. */
    method Evict(toRemove: seq<Entry<K, V>>) returns (taken: seq<Entry<K, V>>)
      requires Listed() && byCost != null
      modifies this`totalCost, this`byCost, this`Order, this`Slots, Order`prevByCost, Order`nextByCost
      ensures Listed()
      ensures old(Order) != [] && taken == toRemove + [old(Order[0])]
      ensures taken + Order == toRemove + old(Order)
      ensures Slots == old(Slots[1..])
      ensures SlotsOf(taken) == old(SlotsOf(toRemove)) + [old(Slots[0])]
      ensures forall i :: 0 <= i < |Order| ==> Order[i] in old(Order)
    {
      ghost var o, s := Order, Slots;
      var entry := byCost;
      SlotsOfAppend(toRemove, [entry]);
      totalCost := totalCost - entry.cost;
      taken := toRemove + [entry];
      ShiftHead(toRemove, o);
      SuffixMembers(o, 1);
      DropHead(s);
      Detach(entry, 0);
      assert Order == o[1..];
    }

    /** What holds during either purge pass.  The pass started from the list o, with slots s,
        and the entries base already set aside, whose slots were before; the entries it has
        evicted since are the first |taken| - |base| of o, in order. */
    ghost predicate Purging(taken: seq<Entry<K, V>>, base: seq<Entry<K, V>>, o: seq<Entry<K, V>>,
                            s: seq<Slot<K, V>>, before: seq<Slot<K, V>>)
      reads this`totalCost, this`byCost, this`Order, this`Slots
      reads Order`prevByCost, Order`nextByCost, Order`value, Order`cost, taken`value, taken`cost
    {
      && Listed()
      && |base| <= |taken| && |taken| - |base| <= |s|
      && taken + Order == base + o
      && Slots == s[|taken| - |base|..]
      && SlotsOf(taken) == before + s[..|taken| - |base|]
      && (forall i :: 0 <= i < |Order| ==> Order[i] in o)
    }

    /** The cost pass so far: it has evicted as many entries as CostPurge says it still owes
        less than it owed at the start. */
    ghost predicate CostPassInv(taken: seq<Entry<K, V>>, o: seq<Entry<K, V>>, s: seq<Slot<K, V>>)
      reads this`totalCost, this`totalCostLimit, this`byCost, this`Order, this`Slots
      reads Order`prevByCost, Order`nextByCost, Order`value, Order`cost, taken`value, taken`cost
    {
      Purging(taken, [], o, s, []) && CostPurge(s, totalCostLimit) == |taken| + CostPurge(Slots, totalCostLimit)
    }

    /** One iteration of the cost pass (Foundation/NSCache.swift:115-122). */
    method CostStep(taken: seq<Entry<K, V>>, ghost o: seq<Entry<K, V>>, ghost s: seq<Slot<K, V>>)
      returns (taken': seq<Entry<K, V>>)
      requires CostPassInv(taken, o, s) && byCost != null && totalCost - totalCostLimit > 0
      modifies this`totalCost, this`byCost, this`Order, this`Slots, o`prevByCost, o`nextByCost
      ensures CostPassInv(taken', o, s) && |Order| < old(|Order|)
    {
      CostPurgeShift(s, |taken|, totalCostLimit);
      TakeOne([], s, |taken|);
      taken' := Evict(taken);
    }

    /** What a finished purge pass leaves: it started from the list o, with slots s, and the
        entries base already set aside, whose slots were before; it took the first n entries of
        o off the list, in order, appended them to base and took their costs off the total. */
    ghost predicate Purged(taken: seq<Entry<K, V>>, base: seq<Entry<K, V>>, o: seq<Entry<K, V>>,
                           s: seq<Slot<K, V>>, before: seq<Slot<K, V>>, n: nat)
      reads this`totalCost, this`byCost, this`Order, this`Slots
      reads Order`prevByCost, Order`nextByCost, Order`value, Order`cost, taken`value, taken`cost
    {
      && Listed()
      && n <= |s| && |taken| == |base| + n
      && taken + Order == base + o
      && Slots == s[n..]
      && SlotsOf(taken) == before + s[..n]
      && totalCost == Sum(s) - Sum(s[..n])
    }

    /** The cost pass (Foundation/NSCache.swift:113-123): while the running total exceeds
        totalCostLimit, the cheapest entry, at the head, is taken off the list.  It takes
        exactly CostPurge entries, so what it evicts is a prefix of the list, and it stops
        within the limit or with the list empty. */
    method PurgeByCost() returns (toRemove: seq<Entry<K, V>>)
      requires Listed()
      modifies this`totalCost, this`byCost, this`Order, this`Slots, Order`prevByCost, Order`nextByCost
      ensures Purged(toRemove, [], old(Order), old(Slots), [], CostPurge(old(Slots), totalCostLimit))
      ensures totalCost - totalCostLimit <= 0 || Order == []
    {
      toRemove := [];
      ghost var o, s := Order, Slots;
      CostPassStarts();
      while totalCost - totalCostLimit > 0
        invariant CostPassInv(toRemove, o, s)
        decreases |Order|
      {
        if byCost == null {
          break;
        }
        toRemove := CostStep(toRemove, o, s);
      }
      CostPassEnds(toRemove, o, s);
    }

    /** Before the cost pass, nothing has been evicted. */
    lemma CostPassStarts()
      requires Listed()
      ensures CostPassInv([], Order, Slots)
    {
      assert [] + Order == Order && Slots[..0] == [];
    }

    /** Where the cost pass stops, it has taken exactly CostPurge entries off the list. */
    lemma CostPassEnds(taken: seq<Entry<K, V>>, o: seq<Entry<K, V>>, s: seq<Slot<K, V>>)
      requires CostPassInv(taken, o, s)
      requires totalCost - totalCostLimit <= 0 || byCost == null
      ensures Purged(taken, [], o, s, [], CostPurge(s, totalCostLimit))
      ensures totalCost - totalCostLimit <= 0 || Order == []
    {
      PurgeDone(Slots, totalCostLimit, countLimit);
      SumSplit(s, |taken|);
    }

    /** The count pass so far: as for the cost pass, with CountPurge, and the dictionary still
        holding every entry evicted or listed. */
    ghost predicate CountPassInv(taken: seq<Entry<K, V>>, base: seq<Entry<K, V>>, o: seq<Entry<K, V>>,
                              s: seq<Slot<K, V>>, before: seq<Slot<K, V>>)
      reads this`entries, this`totalCost, this`countLimit, this`byCost, this`Order, this`Slots
      reads Order`prevByCost, Order`nextByCost, Order`value, Order`cost, taken`value, taken`cost
    {
      && Purging(taken, base, o, s, before)
      && CountPurge(s, countLimit) == (|taken| - |base|) + CountPurge(Slots, countLimit)
      && |entries| == |taken| + |Order|
    }

    /** One iteration of the count pass (Foundation/NSCache.swift:132-139). */
    method CountStep(taken: seq<Entry<K, V>>, ghost base: seq<Entry<K, V>>, ghost o: seq<Entry<K, V>>,
                     ghost s: seq<Slot<K, V>>, ghost before: seq<Slot<K, V>>)
      returns (taken': seq<Entry<K, V>>)
      requires CountPassInv(taken, base, o, s, before) && byCost != null
      requires (|entries| - |taken|) - countLimit > 0
      modifies this`totalCost, this`byCost, this`Order, this`Slots, o`prevByCost, o`nextByCost
      ensures CountPassInv(taken', base, o, s, before) && |Order| < old(|Order|)
    {
      CountPurgeShift(s, |taken| - |base|, countLimit);
      TakeOne(before, s, |taken| - |base|);
      taken' := Evict(taken);
    }

    /** The count pass (Foundation/NSCache.swift:130-142): while the dictionary, less the entries
        already set aside, holds more than countLimit entries, the head of the list is taken
        off.  It takes exactly CountPurge entries and stops within the limit or with the list
        empty. */
    method PurgeByCount(toRemove: seq<Entry<K, V>>) returns (taken: seq<Entry<K, V>>)
      requires Listed() && |entries| == |toRemove| + |Order|
      modifies this`totalCost, this`byCost, this`Order, this`Slots, Order`prevByCost, Order`nextByCost
      ensures Purged(taken, toRemove, old(Order), old(Slots), old(SlotsOf(toRemove)), CountPurge(old(Slots), countLimit))
      ensures (|entries| - |taken|) - countLimit <= 0 || Order == []
    {
      taken := toRemove;
      ghost var o, s, before := Order, Slots, SlotsOf(toRemove);
      CountPassStarts(toRemove);
      while (|entries| - |taken|) - countLimit > 0
        invariant CountPassInv(taken, toRemove, o, s, before)
        decreases |Order|
      {
        if byCost == null {
          break;
        }
        taken := CountStep(taken, toRemove, o, s, before);
      }
      CountPassEnds(taken, toRemove, o, s, before);
    }

    /** Before the count pass, nothing has been evicted beyond what it was given. */
    lemma CountPassStarts(base: seq<Entry<K, V>>)
      requires Listed() && |entries| == |base| + |Order|
      ensures CountPassInv(base, base, Order, Slots, SlotsOf(base))
    {
      assert Slots[..0] == [] && SlotsOf(base) + [] == SlotsOf(base);
    }

    /** Where the count pass stops, it has taken exactly CountPurge entries off the list. */
    lemma CountPassEnds(taken: seq<Entry<K, V>>, base: seq<Entry<K, V>>, o: seq<Entry<K, V>>,
                        s: seq<Slot<K, V>>, before: seq<Slot<K, V>>)
      requires CountPassInv(taken, base, o, s, before)
      requires (|entries| - |taken|) - countLimit <= 0 || byCost == null
      ensures Purged(taken, base, o, s, before, CountPurge(s, countLimit))
      ensures (|entries| - |taken|) - countLimit <= 0 || Order == []
    {
      PurgeDone(Slots, totalCostLimit, countLimit);
      SumSplit(s, |taken| - |base|);
    }

    /** The cost half of step 2 (Foundation/NSCache.swift:113-127): the cost pass runs if
        purgeAmount is positive, and purgeCount is then recomputed from the entries still
        live.  It takes the first n1 entries of the list o off it, in order, into toRemove. */
    method CostPhase(purgeAmount: int, purgeCount: int, ghost o: seq<Entry<K, V>>, ghost s: seq<Slot<K, V>>)
      returns (toRemove: seq<Entry<K, V>>, count: int, ghost n1: nat)
      requires Listed() && Order == o && Slots == s && |entries| == |o|
      modifies this`totalCost, this`byCost, this`Order, this`Slots, o`prevByCost, o`nextByCost
      ensures Listed()
      ensures n1 == (if purgeAmount > 0 then CostPurge(s, totalCostLimit) else 0)
      ensures count == (if purgeAmount > 0 && countLimit > 0 then PurgeCount(|s| - n1, countLimit) else purgeCount)
      ensures n1 <= |s| && |toRemove| == n1 && toRemove + Order == o
      ensures Slots == s[n1..] && SlotsOf(toRemove) == s[..n1]
    {
      toRemove := [];
      count := purgeCount;
      n1 := 0;
      if purgeAmount > 0 {
        toRemove := PurgeByCost();
        n1 := CostPurge(s, totalCostLimit);
        if countLimit > 0 {
          count := (|entries| - |toRemove|) - countLimit;
        }
      } else {
        assert [] + Order == o && s[0..] == s && s[..0] == [];
      }
    }

    /** The count half of step 2 (Foundation/NSCache.swift:129-142): the count pass runs if
        count is positive and resumes where the cost pass stopped.  With the n1 entries the
        cost pass took, the passes have taken the first PassCount entries of the list o off
        it, in order, into toRemove, and the purge invariant holds. */
    method CountPhase(toRemove: seq<Entry<K, V>>, count: int, ghost o: seq<Entry<K, V>>, ghost s: seq<Slot<K, V>>,
                      ghost n1: nat, ghost purgeAmount: int, ghost purgeCount: int)
      returns (taken: seq<Entry<K, V>>)
      requires Listed() && UniqueKeys(o) && entries == MapOf(o) && |entries| == |o| && WellFormed(s)
      requires n1 == (if purgeAmount > 0 then CostPurge(s, totalCostLimit) else 0)
      requires count == (if purgeAmount > 0 && countLimit > 0 then PurgeCount(|s| - n1, countLimit) else purgeCount)
      requires n1 <= |s| && |toRemove| == n1 && toRemove + Order == o
      requires Slots == s[n1..] && SlotsOf(toRemove) == s[..n1]
      modifies this`totalCost, this`byCost, this`Order, this`Slots, Order`prevByCost, Order`nextByCost
      ensures Window(taken)
      ensures var n := PassCount(s, purgeAmount, purgeCount, totalCostLimit, countLimit);
        Slots == s[n..] && SlotsOf(taken) == s[..n]
    {
      taken := toRemove;
      ghost var n2 := 0;
      if count > 0 {
        taken := PurgeByCount(toRemove);
        n2 := CountPurge(s[n1..], countLimit);
      } else {
        assert s[n1..][0..] == s[n1..] && s[n1..][..0] == [];
      }
      PassesCut(s, purgeAmount, purgeCount, totalCostLimit, countLimit, n1, count, n2, Slots, SlotsOf(taken));
      PurgedWindow(taken, o, s, PassCount(s, purgeAmount, purgeCount, totalCostLimit, countLimit));
    }

    /** Step 2 of setObject (Foundation/NSCache.swift:111-142): the two purge passes take the
        first PassCount entries off the list, in order, into toRemove; those stay in the
        dictionary. */
    method Purge(purgeAmount: int, purgeCount: int) returns (toRemove: seq<Entry<K, V>>)
      requires Valid()
      modifies this`totalCost, this`byCost, this`Order, this`Slots, Order`prevByCost, Order`nextByCost
      ensures Window(toRemove)
      ensures var n := PassCount(old(Slots), purgeAmount, purgeCount, totalCostLimit, countLimit);
        Slots == old(Slots)[n..] && SlotsOf(toRemove) == old(Slots)[..n]
    {
      ghost var o, s := Order, Slots;
      MapOfSize(Order);
      var count;
      ghost var n1;
      toRemove, count, n1 := CostPhase(purgeAmount, purgeCount, o, s);
      toRemove := CountPhase(toRemove, count, o, s, n1, purgeAmount, purgeCount);
    }

    /** After the passes, the entries they set aside, followed by the list, are the list they
        started from, which the dictionary still indexes: the purge invariant holds. */
    lemma PurgedWindow(toRemove: seq<Entry<K, V>>, o: seq<Entry<K, V>>, s: seq<Slot<K, V>>, n: nat)
      requires Listed() && toRemove + Order == o && UniqueKeys(o) && entries == MapOf(o)
      requires WellFormed(s) && n <= |s| && Slots == s[n..]
      ensures Window(toRemove)
    {
      SuffixWellFormed(s, n);
    }

    /** The delegate hand-off (Foundation/NSCache.swift:144-148): the delegate, if there is
        one, is told about the value of each entry of toRemove, in order. */
    method Notify(toRemove: seq<Entry<K, V>>)
      modifies Listener()`Evicted
      ensures delegate != null ==> delegate.Evicted == old(delegate.Evicted) + ValuesOf(SlotsOf(toRemove))
    {
      var del := delegate;
      if del != null {
        for i := 0 to |toRemove|
          invariant del.Evicted == old(del.Evicted) + ValuesOf(SlotsOf(toRemove[..i]))
        {
          SlotsOfTake(toRemove, i);
          del.CacheWillEvictObject(toRemove[i].value);
        }
        assert toRemove[..|toRemove|] == toRemove;
      }
    }

    /** The final unmapping (Foundation/NSCache.swift:150-153): the key of each entry of
        toRemove leaves the dictionary, which restores the invariant between operations. */
    method Unmap(toRemove: seq<Entry<K, V>>)
      requires Window(toRemove)
      modifies this`entries
      ensures Valid()
      ensures forall x :: x in SlotsOf(toRemove) ==> x.key !in entries
    {
      for i := 0 to |toRemove|
        invariant Window(toRemove[i..])
        invariant forall j :: 0 <= j < i ==> toRemove[j].key !in entries
      {
        UnmapHead(toRemove[i..], Order, toRemove[i..] + Order, toRemove[i + 1..] + Order);
        entries := entries - {toRemove[i].key};
      }
      assert toRemove[|toRemove|..] == [];
      WindowEmpty();
      SlotsOfKeys(toRemove);
    }

    /** Steps 3 and 4 of setObject (Foundation/NSCache.swift:144-153): the delegate hears of
        the entries set aside, then their keys are unmapped. */
    method Release(toRemove: seq<Entry<K, V>>, ghost evicted: seq<Slot<K, V>>)
      requires Window(toRemove) && SlotsOf(toRemove) == evicted
      modifies this`entries, Listener()`Evicted
      ensures Valid()
      ensures delegate != null ==> delegate.Evicted == old(delegate.Evicted) + ValuesOf(evicted)
      ensures forall x :: x in evicted ==> x.key !in entries
    {
      Notify(toRemove);
      Unmap(toRemove);
    }

    /** setObject(_:forKey:cost:) (Foundation/NSCache.swift:83-155): the key is overwritten or
        added, the purge passes take the cheapest entries off the list, the delegate is told
        about each of them in order and their keys leave the dictionary.  The list ends as
        SetObjectSpec says, the delegate has heard of exactly the values it evicts, and none of
        the evicted keys is mapped any more. */
    method SetObjectWithCost(obj: V, key: K, g: nat)
      requires Valid()
      modifies this`entries, this`totalCost, this`byCost, this`Order, this`Slots
      modifies Order`value, Order`cost, Order`prevByCost, Order`nextByCost, Listener()`Evicted
      ensures Valid()
      ensures Slots == SetObjectSpec(old(Slots), key, obj, g, totalCostLimit, countLimit).order
      ensures delegate != null ==>
                delegate.Evicted == old(delegate.Evicted) + ValuesOf(SetObjectSpec(old(Slots), key, obj, g, totalCostLimit, countLimit).evicted)
      ensures forall x :: x in SetObjectSpec(old(Slots), key, obj, g, totalCostLimit, countLimit).evicted ==> x.key !in entries
    {
      ghost var out := SetObjectSpec(Slots, key, obj, g, totalCostLimit, countLimit);
      var toRemove := Admit(obj, key, g);
      Release(toRemove, out.evicted);
    }

    /** Steps 1 and 2 of setObject (Foundation/NSCache.swift:83-142): the update, then the
        purge passes; the list is left as SetObjectSpec says and the evicted entries, in order,
        are set aside in toRemove, still mapped. */
    method Admit(obj: V, key: K, g: nat) returns (toRemove: seq<Entry<K, V>>)
      requires Valid()
      modifies this`entries, this`totalCost, this`byCost, this`Order, this`Slots
      modifies Order`value, Order`cost, Order`prevByCost, Order`nextByCost
      ensures Window(toRemove)
      ensures Slots == SetObjectSpec(old(Slots), key, obj, g, totalCostLimit, countLimit).order
      ensures SlotsOf(toRemove) == SetObjectSpec(old(Slots), key, obj, g, totalCostLimit, countLimit).evicted
    {
      ghost var s, total, live := Slots, totalCost, |entries|;
      MapOfSize(Order);
      var purgeAmount, purgeCount := UpdateEntry(obj, key, g);
      ghost var u := Slots;
      toRemove := Purge(purgeAmount, purgeCount);
      SetObjectSpecByPasses(s, key, obj, g, totalCostLimit, countLimit, total, live, u, purgeAmount, purgeCount,
                            PassCount(u, purgeAmount, purgeCount, totalCostLimit, countLimit));
    }

    /** setObject(_:forKey:) (Foundation/NSCache.swift:52-54): setObject with cost 0. */
    method SetObject(obj: V, key: K)
      requires Valid()
      modifies this`entries, this`totalCost, this`byCost, this`Order, this`Slots
      modifies Order`value, Order`cost, Order`prevByCost, Order`nextByCost, Listener()`Evicted
      ensures Valid()
      ensures Slots == SetObjectSpec(old(Slots), key, obj, 0, totalCostLimit, countLimit).order
      ensures delegate != null ==>
                delegate.Evicted == old(delegate.Evicted) + ValuesOf(SetObjectSpec(old(Slots), key, obj, 0, totalCostLimit, countLimit).evicted)
      ensures forall x :: x in SetObjectSpec(old(Slots), key, obj, 0, totalCostLimit, countLimit).evicted ==> x.key !in entries
    {
      SetObjectWithCost(obj, key, 0);
    }

    /** removeObject(forKey:) (Foundation/NSCache.swift:157-166): the entry under key, if any,
        leaves the dictionary, its cost leaves the running total and it is unlinked from the
        list; for an absent key nothing changes. */
    method RemoveObject(key: K)
      requires Valid()
      modifies this`entries, this`totalCost, this`byCost, this`Order, this`Slots, Order`prevByCost, Order`nextByCost
      ensures Valid()
      ensures Slots == RemoveKey(old(Slots), key) && key !in entries
    {
      EntriesMatchList(key);
      RemoveKeyFacts(Slots, key);
      if key in entries {
        var entry := entries[key];
        ghost var i := IndexOf(Slots, key).value;
        ghost var o := Order;
        entries := entries - {key};
        totalCost := totalCost - entry.cost;
        Detach(entry, i);
        MapOfUnlink(o, i);
        TiedKeys();
      }
    }

    /** removeAllObjects() (Foundation/NSCache.swift:168-174): the dictionary is emptied, the
        head of the list dropped and the running total reset.  The entries keep their links to
        one another, but none is reachable from the cache any more. */
    method RemoveAllObjects()
      modifies this`entries, this`totalCost, this`byCost, this`Order, this`Slots
      ensures Valid() && Slots == [] && entries == map[]
    {
      entries := map[];
      byCost := null;
      totalCost := 0;
      Order := [];
      Slots := [];
    }
  }
}
