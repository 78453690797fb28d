/** setObject(_:forKey:cost:) and insert(_:) (Foundation/NSCache.swift:66-155) as the code is
    written, on the cost list seen as a sequence of slots, next to the mapped entries that are
    off it and the running total, which the code keeps separately.  Three defects make these
    disagree with one another; the lemmas below replay, from an empty cache, inputs that show
    each of them.  The rest of the model
    follows the corrected behaviour: CacheSpec.Update, NSCache.Cache.Insert and
    NSCache.Cache.Overwrite. */
module AsWritten {
  import opened CacheSpec

  /** What the code keeps: the list reachable from _byCost, the mapped entries that are not on
      it, and _totalCost.  An entry off the list is `loose` while both its links are still nil,
      as init(key:value:cost:) leaves them, and `stale` once insert(_:) or remove(_:) has left a
      link in it that the list does not return. */
  datatype State<K, V> = State(list: seq<Slot<K, V>>, loose: map<K, Slot<K, V>>, stale: map<K, Slot<K, V>>, total: int)

  /** The keys carried by the slots of s. */
  function KeysOf<K, V>(s: seq<Slot<K, V>>): set<K>
  {
    set i | 0 <= i < |s| :: s[i].key
  }

  /** The keys of the dictionary _entries. */
  function Keys<K, V>(st: State<K, V>): set<K>
  {
    KeysOf(st.list) + st.loose.Keys + st.stale.Keys
  }

  /** The list reachable from _byCost after insert(_:) as written (Foundation/NSCache.swift:66-81):
      an empty list gets x as its head; on any other list only x's own links are set and no
      link of the list, nor the head, is redirected to x. */
  function InsertList<K, V>(s: seq<Slot<K, V>>, x: Slot<K, V>): (r: seq<Slot<K, V>>)
    ensures s == [] ==> r == [x]
    ensures s != [] ==> r == s
  {
    if s == [] then [x] else s
  }

  /** insert(_:) as written of an entry that is off the list (Foundation/NSCache.swift:66-81).
      On an empty list the entry becomes the head, its links nil.  Otherwise it stays off the
      list: stale when the walk met a costlier entry and set its links, or when it had links
      from the list it was unlinked from (`wasLinked`), which remove(_:) leaves in it; loose
      when it had none and the walk set none. */
  function Reinsert<K, V>(st: State<K, V>, x: Slot<K, V>, wasLinked: bool): (r: State<K, V>)
    ensures r.list == InsertList(st.list, x) && r.total == st.total
    ensures st.list != [] ==> x.key in r.loose.Keys + r.stale.Keys
  {
    if st.list == [] then st.(list := InsertList(st.list, x))
    else if wasLinked || InsertPos(st.list, x.cost) < |st.list| then st.(stale := st.stale[x.key := x])
    else st.(loose := st.loose[x.key := x])
  }

  /** The update step of setObject(_:forKey:cost:) as written (Foundation/NSCache.swift:99-108),
      the running total aside.  An entry whose cost is unchanged only takes the new value.  An
      entry whose cost changed is unlinked by remove(_:) and put back by insert(_:) as written:
      a listed one leaves the list first; a loose one is not on it, and remove(_:) finds nil
      links and a head that is not the entry, so it changes nothing.  A new key goes into the
      dictionary only, its links nil. */
  function UpdateAsWritten<K(==), V>(st: State<K, V>, k: K, v: V, g: nat): (r: State<K, V>)
    requires k in st.stale && IndexOf(st.list, k).None? ==> st.stale[k].cost == g
    ensures r.total == st.total
  {
    var x := Slot(k, v, g);
    match IndexOf(st.list, k)
    case Some(i) =>
      if st.list[i].cost == g then st.(list := st.list[i := x])
      else Reinsert(st.(list := RemoveAt(st.list, i)), x, true)
    case None =>
      if k in st.stale then st.(stale := st.stale[k := x])
      else if k in st.loose && st.loose[k].cost == g then st.(loose := st.loose[k := x])
      else if k in st.loose then Reinsert(st.(loose := st.loose - {k}), x, false)
      else st.(loose := st.loose[k := x])
  }

  /** The update step maps k and keeps every other key of the dictionary, wherever the entries
      end up. */
  lemma UpdateAsWrittenKeys<K, V>(st: State<K, V>, k: K, v: V, g: nat)
    requires k in st.stale && IndexOf(st.list, k).None? ==> st.stale[k].cost == g
    ensures Keys(UpdateAsWritten(st, k, v, g)) == Keys(st) + {k}
  {
    var x := Slot(k, v, g);
    match IndexOf(st.list, k)
    case Some(i) =>
      assert k in KeysOf(st.list);
      if st.list[i].cost == g {
        KeysOfReplace(st.list, i, x);
      } else {
        KeysOfRemove(st.list, i);
        if RemoveAt(st.list, i) == [] {
          KeysOfOne(x);
        }
      }
    case None =>
      if k !in st.stale && k in st.loose && st.loose[k].cost != g && st.list == [] {
        KeysOfOne(x);
      }
  }

  /** A single slot carries its own key. */
  lemma KeysOfOne<K, V>(x: Slot<K, V>)
    ensures KeysOf([x]) == {x.key}
  {
    assert [x][0].key in KeysOf([x]);
  }

  /** Replacing one slot by another of the same key keeps the keys. */
  lemma KeysOfReplace<K, V>(s: seq<Slot<K, V>>, i: nat, x: Slot<K, V>)
    requires i < |s| && x.key == s[i].key
    ensures KeysOf(s[i := x]) == KeysOf(s)
  {
    var t := s[i := x];
    forall y | y in KeysOf(s) ensures y in KeysOf(t) {
      var j :| 0 <= j < |s| && s[j].key == y;
      assert t[j].key == y;
    }
    forall y | y in KeysOf(t) ensures y in KeysOf(s) {
      var j :| 0 <= j < |t| && t[j].key == y;
      assert s[j].key == y;
    }
  }

  /** Removing a slot keeps every key but possibly its own. */
  lemma KeysOfRemove<K, V>(s: seq<Slot<K, V>>, i: nat)
    requires i < |s|
    ensures KeysOf(s) == KeysOf(RemoveAt(s, i)) + {s[i].key}
  {
    var t := RemoveAt(s, i);
    assert |t| == |s| - 1;
    forall y | y in KeysOf(s) ensures y in KeysOf(t) + {s[i].key} {
      var j :| 0 <= j < |s| && s[j].key == y;
      if j < i {
        assert t[j] == s[j];
      } else if j > i {
        assert t[j - 1] == s[j];
      }
    }
    forall y | y in KeysOf(t) ensures y in KeysOf(s) {
      var j :| 0 <= j < |t| && t[j].key == y;
      if j < i {
        assert t[j] == s[j];
      } else {
        assert t[j] == s[j + 1];
      }
    }
  }

  /** The cost pass as written (Foundation/NSCache.swift:115-123): it is driven by the running
      total, which each eviction lowers by the head's cost, not by the list it walks. */
  function CostPass<K, V>(s: seq<Slot<K, V>>, total: int, limit: int): (n: nat)
    ensures n <= |s|
  {
    if total - limit > 0 && s != [] then 1 + CostPass(s[1..], total - s[0].cost, limit) else 0
  }

  /** The count pass as written (Foundation/NSCache.swift:132-140): it is driven by the
      dictionary's count less the entries set aside, not by the list it walks. */
  function CountPass<K, V>(s: seq<Slot<K, V>>, live: int, limit: int): (n: nat)
    ensures n <= |s|
  {
    if live - limit > 0 && s != [] then 1 + CountPass(s[1..], live - 1, limit) else 0
  }

  /** How many entries the two passes as written take off the head of u
      (Foundation/NSCache.swift:113-142), given the running total, the dictionary's count and
      the triggers computed before the update step. */
  function PassesAsWritten<K, V>(u: seq<Slot<K, V>>, total: int, live: int, purgeAmount: int, purgeCount: int,
                                 costLimit: int, countLimit: int): (n: nat)
    ensures n <= |u|
  {
    var n1 := if purgeAmount > 0 then CostPass(u, total, costLimit) else 0;
    var count := if purgeAmount > 0 && countLimit > 0 then PurgeCount(live - n1, countLimit) else purgeCount;
    n1 + (if count > 0 then CountPass(u[n1..], live - n1, countLimit) else 0)
  }

  /** The state once the first n listed entries are evicted (Foundation/NSCache.swift:113-155):
      they leave the list, the running total and the dictionary. */
  function Evict<K, V>(up: State<K, V>, total: int, n: nat): (r: State<K, V>)
    requires n <= |up.list|
    ensures r.list == up.list[n..] && r.total <= total
    ensures n == 0 ==> r == up.(total := total)
  {
    var gone := KeysOf(up.list[..n]);
    assert n == 0 ==> gone == {} && up.list[n..] == up.list && Sum(up.list[..n]) == 0 by {
      if n == 0 {
        assert up.list[..n] == [];
      }
    }
    State(up.list[n..], up.loose - gone, up.stale - gone, total - Sum(up.list[..n]))
  }

  /** setObject(_:forKey:cost:) as written (Foundation/NSCache.swift:83-155).  The one case
      left out is a cost change for a stale entry, where remove(_:) would rewrite entries
      through links the list does not return.  The passes only lower the running total. */
  function SetObjectAsWritten<K(==), V>(st: State<K, V>, k: K, v: V, g: nat, costLimit: int, countLimit: int): (r: State<K, V>)
    requires k in st.stale && IndexOf(st.list, k).None? ==> st.stale[k].cost == g
    ensures r.total <= st.total + g
  {
    var total := st.total + g;
    var up := UpdateAsWritten(st, k, v, g);
    var n := PassesAsWritten(up.list, total, |Keys(up)|, PurgeAmount(total, g, costLimit),
                             PurgeCount(|Keys(st)| + 1, countLimit), costLimit, countLimit);
    Evict(up, total, n)
  }

  /** When the passes take nothing, setObject as written is its update step and the raised
      total. */
  lemma NothingEvicted<K, V>(st: State<K, V>, k: K, v: V, g: nat, costLimit: int, countLimit: int)
    requires k in st.stale && IndexOf(st.list, k).None? ==> st.stale[k].cost == g
    requires var up := UpdateAsWritten(st, k, v, g);
      PassesAsWritten(up.list, st.total + g, |Keys(up)|, PurgeAmount(st.total + g, g, costLimit),
                      PurgeCount(|Keys(st)| + 1, countLimit), costLimit, countLimit) == 0
    ensures SetObjectAsWritten(st, k, v, g, costLimit, countLimit)
         == UpdateAsWritten(st, k, v, g).(total := st.total + g)
  {
  }

  /** With neither limit set, or with the list empty after the update step (as it stays while
      every key is loose), setObject as written evicts nothing: it is its update step and the
      raised total. */
  lemma SetObjectAsWrittenWithoutLimits<K, V>(st: State<K, V>, k: K, v: V, g: nat, costLimit: int, countLimit: int)
    requires k in st.stale && IndexOf(st.list, k).None? ==> st.stale[k].cost == g
    requires (costLimit <= 0 && countLimit <= 0) || UpdateAsWritten(st, k, v, g).list == []
    ensures SetObjectAsWritten(st, k, v, g, costLimit, countLimit)
         == UpdateAsWritten(st, k, v, g).(total := st.total + g)
  {
    var up := UpdateAsWritten(st, k, v, g);
    assert PassesAsWritten(up.list, st.total + g, |Keys(up)|, PurgeAmount(st.total + g, g, costLimit),
                           PurgeCount(|Keys(st)| + 1, countLimit), costLimit, countLimit) == 0;
    NothingEvicted(st, k, v, g, costLimit, countLimit);
  }

  /** Where the running total is the sum of the list, the cost pass as written takes as many
      entries as CostPurge. */
  lemma {:induction false} CostPassAgrees<K, V>(s: seq<Slot<K, V>>, limit: int)
    ensures CostPass(s, Sum(s), limit) == CostPurge(s, limit)
  {
    if s != [] {
      CostPassAgrees(s[1..], limit);
    }
  }

  /** Where the dictionary holds exactly the listed keys, the count pass as written takes as
      many entries as CountPurge. */
  lemma {:induction false} CountPassAgrees<K, V>(s: seq<Slot<K, V>>, limit: int)
    ensures CountPass(s, |s|, limit) == CountPurge(s, limit)
  {
    if s != [] {
      CountPassAgrees(s[1..], limit);
    }
  }

  // ---------------------------------------------------------------------------------------
  // 1. New keys never enter the list (Foundation/NSCache.swift:106-108)

  /** As written, a new key goes into the dictionary as a loose entry and the list stays as it
      was, so no purge pass can reach it; the corrected update lists it at its sorted place. */
  lemma NewKeyUnlisted<K, V>(st: State<K, V>, k: K, v: V, g: nat)
    requires WellFormed(st.list) && k !in Keys(st)
    ensures UpdateAsWritten(st, k, v, g).list == st.list && k in UpdateAsWritten(st, k, v, g).loose
    ensures Lookup(Update(st.list, k, v, g), k) == Some(v) && |Update(st.list, k, v, g)| == |st.list| + 1
  {
    assert forall i | 0 <= i < |st.list| :: st.list[i].key in KeysOf(st.list);
    UpdateFacts(st.list, k, v, g);
  }

  /** A loose entry joins the list only when a cost change finds the list empty: on a non-empty
      list every set of its key leaves the list as it was and the key off it. */
  lemma LooseStaysOff<K, V>(st: State<K, V>, k: K, v: V, g: nat)
    requires k in st.loose && k !in st.stale && k !in KeysOf(st.list) && st.list != []
    ensures var r := UpdateAsWritten(st, k, v, g);
      r.list == st.list && k in r.loose.Keys + r.stale.Keys
  {
    assert forall i | 0 <= i < |st.list| :: st.list[i].key in KeysOf(st.list);
  }

  /** The first object set into an empty cache is mapped as a loose entry and the list stays
      empty, whatever the limits: the passes find nothing to take. */
  lemma NewKeyOnEmpty<K, V>(k: K, v: V, g: nat, costLimit: int, countLimit: int)
    ensures SetObjectAsWritten(State([], map[], map[], 0), k, v, g, costLimit, countLimit)
         == State([], map[k := Slot(k, v, g)], map[], g)
  {
    SetObjectAsWrittenWithoutLimits(State([], map[], map[], 0), k, v, g, costLimit, countLimit);
  }

  /** With countLimit 1, a second object set into a cache holding one loose entry stays too, as
      written: the list is still empty, so the count pass finds nothing to take although the
      dictionary holds two keys.  (NewKeyOnEmpty gives the first set.) */
  lemma CountLimitIgnored()
    ensures SetObjectAsWritten(State([], map[1 := Slot(1, 'a', 0)], map[], 0), 2, 'b', 0, -1, 1)
         == State([], map[1 := Slot(1, 'a', 0), 2 := Slot(2, 'b', 0)], map[], 0)
  {
    var st1 := State([], map[1 := Slot(1, 'a', 0)], map[], 0);
    var st2 := State([], map[1 := Slot(1, 'a', 0), 2 := Slot(2, 'b', 0)], map[], 0);
    assert UpdateAsWritten(st1, 2, 'b', 0) == st2;
    assert SetObjectAsWritten(st1, 2, 'b', 0, -1, 1) == st2 by {
      SetObjectAsWrittenWithoutLimits(st1, 2, 'b', 0, -1, 1);
    }
  }

  /** The state CountLimitIgnored ends in maps two keys, over a count limit of 1. */
  lemma CountLimitIgnoredKeys()
    ensures Keys(State([], map[1 := Slot(1, 'a', 0), 2 := Slot(2, 'b', 0)], map[], 0)) == {1, 2}
  {
    var e: seq<Slot<int, char>> := [];
    assert KeysOf(e) == {};
  }

  /** The same two sets through the corrected setObject evict the first. */
  lemma CountLimitIgnoredCorrected()
    ensures var out := SetObjectSpec(SetObjectSpec([], 1, 'a', 0, -1, 1).order, 2, 'b', 0, -1, 1);
      out.order == [Slot(2, 'b', 0)] && out.evicted == [Slot(1, 'a', 0)]
  {
    var s1 := SetObjectSpec([], 1, 'a', 0, -1, 1).order;
    assert Update<int, char>([], 1, 'a', 0) == [Slot(1, 'a', 0)];
    assert s1 == [Slot(1, 'a', 0)];
    var u2 := Update(s1, 2, 'b', 0);
    assert IndexOf(s1, 2) == None;
    assert InsertPos(s1, 0) == 1;
    assert u2 == [Slot(1, 'a', 0), Slot(2, 'b', 0)];
    assert CountPurge(u2, 1) == 1 by {
      assert u2[1..] == [Slot(2, 'b', 0)];
    }
  }

  // ---------------------------------------------------------------------------------------
  // 2. insert(_:) only half splices (Foundation/NSCache.swift:66-81)

  /** As written, insert(_:) into a non-empty list leaves the list as it was, whatever the
      entry's cost; the corrected insert adds it. */
  lemma InsertLosesEntry<K, V>(s: seq<Slot<K, V>>, x: Slot<K, V>)
    requires s != []
    ensures InsertList(s, x) == s
    ensures SortedInsert(s, x) == s[..InsertPos(s, x.cost)] + [x] + s[InsertPos(s, x.cost)..]
    ensures |SortedInsert(s, x)| == |s| + 1 && SortedInsert(s, x)[InsertPos(s, x.cost)] == x
  {
    SortedInsertShifts(s, x);
  }

  /** With no limits, setting key 1, loose at cost 0, again at cost 5 makes it the head: a
      loose entry whose cost changes on the empty list is inserted there.  (NewKeyOnEmpty gives
      the first set.) */
  lemma HalfSpliceHead()
    ensures SetObjectAsWritten(State([], map[1 := Slot(1, 'a', 0)], map[], 0), 1, 'b', 5, -1, -1)
         == State([Slot(1, 'b', 5)], map[], map[], 5)
  {
    SetObjectAsWrittenWithoutLimits(State([], map[1 := Slot(1, 'a', 0)], map[], 0), 1, 'b', 5, -1, -1);
    assert map[1 := Slot(1, 'a', 0)] - {1} == map[];
  }

  /** Then setting key 2 at cost 0 maps it as a loose entry, off the list. */
  lemma HalfSpliceLoose()
    ensures SetObjectAsWritten(State([Slot(1, 'b', 5)], map[], map[], 5), 2, 'c', 0, -1, -1)
         == State([Slot(1, 'b', 5)], map[2 := Slot(2, 'c', 0)], map[], 5)
  {
    var st2 := State([Slot(1, 'b', 5)], map[], map[], 5);
    assert UpdateAsWritten(st2, 2, 'c', 0) == State([Slot(1, 'b', 5)], map[2 := Slot(2, 'c', 0)], map[], 5) by {
      assert IndexOf(st2.list, 2) == None;
    }
    SetObjectAsWrittenWithoutLimits(st2, 2, 'c', 0, -1, -1);
  }

  /** Then setting key 2 at cost 1 walks to key 1, the costlier entry, and sets key 2's own
      links only: key 2 stays mapped, off the list, with a stale link to key 1. */
  lemma HalfSplice()
    ensures SetObjectAsWritten(State([Slot(1, 'b', 5)], map[2 := Slot(2, 'c', 0)], map[], 5), 2, 'd', 1, -1, -1)
         == State([Slot(1, 'b', 5)], map[], map[2 := Slot(2, 'd', 1)], 6)
  {
    var b := Slot(1, 'b', 5);
    var st3 := State([b], map[2 := Slot(2, 'c', 0)], map[], 5);
    var d := Slot(2, 'd', 1);
    var rest := State([b], map[], map[], 5);
    assert Reinsert(rest, d, false) == State([b], map[], map[2 := d], 5) by {
      assert InsertPos([b], 1) == 0;
    }
    assert UpdateAsWritten(st3, 2, 'd', 1) == Reinsert(rest, d, false) by {
      assert IndexOf([b], 2) == None;
      assert map[2 := Slot(2, 'c', 0)] - {2} == map[];
    }
    SetObjectAsWrittenWithoutLimits(st3, 2, 'd', 1, -1, -1);
  }

  /** The state HalfSplice ends in maps both keys, but the list's sum, 5, falls short of the
      total, 6, by the cost of the entry lost. */
  lemma HalfSpliceKeys()
    ensures Keys(State([Slot(1, 'b', 5)], map[], map[2 := Slot(2, 'd', 1)], 6)) == {1, 2}
    ensures Sum([Slot(1, 'b', 5)]) == 5
  {
    var b := Slot(1, 'b', 5);
    KeysOfOne(b);
    assert [b][1..] == [];
  }

  /** The corrected setObject, from the list it reaches after the first three sets (key 2 at
      cost 0 ahead of key 1 at cost 5), puts key 2 at cost 1 ahead of key 1 and evicts
      nothing. */
  lemma HalfSpliceCorrected()
    ensures SetObjectSpec([Slot(2, 'c', 0), Slot(1, 'b', 5)], 2, 'd', 1, -1, -1)
         == Outcome([Slot(2, 'd', 1), Slot(1, 'b', 5)], [])
  {
    var b, c, d := Slot(1, 'b', 5), Slot(2, 'c', 0), Slot(2, 'd', 1);
    assert Update([c, b], 2, 'd', 1) == [d, b] by {
      assert IndexOf([c, b], 2) == Some(0) && RemoveAt([c, b], 0) == [b];
      assert InsertPos([b], 1) == 0;
    }
    SetObjectWithoutLimits([c, b], 2, 'd', 1, -1, -1);
    assert [d, b][..0] == [] && [d, b][0..] == [d, b];
  }

  // ---------------------------------------------------------------------------------------
  // 3. An overwrite counts the cost twice (Foundation/NSCache.swift:87, 99-105)

  /** As written, the update step raises the running total by the new cost without taking off
      the old one: for a well-formed list whose total was right, the total afterwards exceeds
      the updated list's sum by exactly the old cost of the key. */
  lemma OverwriteOvercounts<K, V>(s: seq<Slot<K, V>>, k: K, v: V, g: nat)
    requires WellFormed(s)
    ensures (Sum(s) + g) - Sum(Update(s, k, v, g)) == OldCost(s, k)
  {
    UpdateFacts(s, k, v, g);
  }

  /** Under a cost limit of 7, setting key 1, loose at cost 0, again at cost 5 lists it with a
      total of 5, within the limit.  (NewKeyOnEmpty gives the first set.) */
  lemma OverwriteEvictsHead()
    ensures SetObjectAsWritten(State([], map[1 := Slot(1, 'a', 0)], map[], 0), 1, 'b', 5, 7, -1)
         == State([Slot(1, 'b', 5)], map[], map[], 5)
  {
    var st1 := State([], map[1 := Slot(1, 'a', 0)], map[], 0);
    var b := [Slot(1, 'b', 5)];
    assert UpdateAsWritten(st1, 1, 'b', 5) == State(b, map[], map[], 0) by {
      assert map[1 := Slot(1, 'a', 0)] - {1} == map[];
    }
    assert CostPass(b, 5, 7) == 0;
    NothingEvicted(st1, 1, 'b', 5, 7, -1);
  }

  /** Setting key 1 once more at cost 5 then evicts it as written, since the running total
      reads 10, and leaves a total of 5 on an empty cache. */
  lemma OverwriteEvicts()
    ensures SetObjectAsWritten(State([Slot(1, 'b', 5)], map[], map[], 5), 1, 'c', 5, 7, -1)
         == State([], map[], map[], 5)
  {
    var b := [Slot(1, 'b', 5)];
    var c := [Slot(1, 'c', 5)];
    assert UpdateAsWritten(State(b, map[], map[], 5), 1, 'c', 5) == State(c, map[], map[], 5) by {
      assert IndexOf(b, 1) == Some(0);
    }
    assert CostPass(c, 10, 7) == 1 by {
      assert c[1..] == [];
    }
    assert c[..1] == c && c[1..] == [];
    KeysOfOne(c[0]);
    assert Sum(c) == 5 by {
      assert c[1..] == [];
    }
  }

  /** The third set of OverwriteEvicts through the corrected setObject keeps the entry, the
      true total 5 being within the limit. */
  lemma OverwriteEvictsCorrected()
    ensures SetObjectSpec([Slot(1, 'b', 5)], 1, 'c', 5, 7, -1) == Outcome([Slot(1, 'c', 5)], [])
  {
    var b := [Slot(1, 'b', 5)];
    var c := [Slot(1, 'c', 5)];
    assert IndexOf(b, 1) == Some(0);
    assert Update(b, 1, 'c', 5) == c;
    assert Sum(c) == 5 && Sum(b) == 5 by {
      assert c[1..] == [] && b[1..] == [];
    }
    assert CostPurge(c, 7) == 0;
    assert c[0..] == c && c[..0] == [];
  }
}
