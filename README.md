# NSCache in Dafny

This project models `NSCache` from `Foundation/NSCache.swift`.

`NSCache` is an identity-keyed object cache. It keeps two structures:

- `_entries`, a dictionary from a key's identity to its `NSCacheEntry`;
- `_byCost`, a doubly linked list meant to hold the same entries, in ascending order of cost (as written it does not always hold them: see Findings).

It also keeps a running total `_totalCost`, and may have two limits: `totalCostLimit` and `countLimit`.

`setObject(_:forKey:cost:)` proceeds in four steps:

1. It overwrites or adds the entry.
2. A cost pass and then a count pass take the cheapest entries off the head of the list into `toRemove`.
3. The delegate hears about each evicted value, in order.
4. The evicted keys leave the dictionary.

The project has three modules.

- **`CacheSpec`** (`cache_spec.dfy`) is the value-level specification. It sees the cost list as a sequence of slots, where a slot is a key, a value and a cost. It has:
  - `Update`, the update step;
  - `CostPurge` and `CountPurge`, the two passes;
  - `SetObjectSpec`, the whole of `setObject`;
  - `RemoveKey`, for `removeObject`;
  - `Lookup`, for `object(forKey:)`.
  
  The lemmas prove what these functions promise: sorted insertion with ties broken first in, first out; the limits hold after a purge; evicted entries are the cheapest, in order; lookups after a set; the totals add up.
- **`NSCache`** (`nscache.dfy`) is the imperative model.
  - `Entry` is a class with `prevByCost` and `nextByCost` links.
  - `Cache` is a class whose methods update `entries`, `totalCost`, `byCost` and the links in place.
  - The purge passes are `while` loops, and the notification and unmapping are `for` loops, as in the source.
  - Two ghost fields carry the proofs. `Order` is the sequence of entries the links thread from `byCost`. `Slots` is their key, value and cost.
  - Every public method is proved against the `CacheSpec` functions, under the invariant `Valid()`:
    - the links thread `Order` both ways;
    - `Slots` mirrors `Order`;
    - the list is ascending, with one entry per key;
    - `totalCost` is the sum of the costs;
    - `entries` indexes exactly the listed entries.
  
  Between the purge and the unmapping, the weaker `Window(toRemove)` holds: the dictionary indexes the listed entries plus those set aside.
- **`AsWritten`** (`as_written.dfy`) models three places where the source does not do what the rest of its code relies on. It models them as written, with inputs that show each one (see Findings). The other two modules follow the evidently intended behaviour. Its state holds:
  - the list reachable from `_byCost`, as slots;
  - the mapped entries that are off the list, split into loose ones (both links still nil, as the initialiser leaves them) and stale ones (holding a link the list does not return);
  - `_totalCost`.

The delegate is an `Observer` whose only state is a ghost log, `Evicted`, of the values it was told about. Each lock/unlock region of the source is one step of the model.

## Model

| member | source | states |
|---|---|---|
| NSCache.Entry.constructor | Foundation/NSCache.swift:10-21 | a new entry holds the given key, value and cost, and is linked to nothing |
| NSCache.Observer.CacheWillEvictObject | Foundation/NSCache.swift:177-185 | the delegate's callback records the object at the end of its log |
| NSCache.Cache.constructor | Foundation/NSCache.swift:24-34 | a new cache is empty with total 0, both limits are -1 (no limit) and there is no delegate |
| NSCache.Cache.EntriesMatchList | Foundation/NSCache.swift:24-27 | between operations a key is in the dictionary exactly when the list carries it, mapped to the entry at that place, and there are as many keys as listed entries |
| CacheSpec.IndexOf | Foundation/NSCache.swift:44 | the position found carries the key and is its first occurrence; None means no slot carries the key |
| CacheSpec.Lookup | Foundation/NSCache.swift:38-50 | object(forKey:) finds a value exactly when some slot carries the key; IndexOf says which slot, and UpdateFacts, RemoveKeyFacts, SetObjectLookup and NSCache.Cache.EntriesMatchList tie it to the operations and to the dictionary |
| NSCache.Cache.ObjectForKey | Foundation/NSCache.swift:38-50 | returns the value stored under the key, or None when the key is absent, and changes nothing |
| NSCache.Cache.Remove | Foundation/NSCache.swift:56-64 | the entry's neighbours are linked to each other and the head advances if the entry was the head, so the links thread the list without the entry, the others in their old order |
| NSCache.Cache.Detach | Foundation/NSCache.swift:56-64 | unlinking the entry at position i removes exactly that entry from the list and its slot from the slots; the rest keep their order |
| NSCache.Cache.Walk | Foundation/NSCache.swift:69-79 | the walk from the head stops at the first entry costlier than the new one (null if there is none), at position InsertPos, with the entry before it |
| NSCache.Cache.Splice | Foundation/NSCache.swift:73-76 | the entry is linked between the entries at positions p-1 and p, with both neighbours' links and the head fixed, so the links thread the list with the entry at p |
| NSCache.Cache.Insert | Foundation/NSCache.swift:66-81 | the entry goes before the first costlier entry, after every entry of equal cost, or at the tail, or becomes the head of an empty list; the slots become SortedInsert of the old ones |
| NSCache.Cache.InsertAsWritten | Foundation/NSCache.swift:66-81 | as written: an empty list gets the entry as its head; otherwise only the entry's own links are set, to the first costlier entry and the one before it, and the list still threaded from the head is the old one, without the entry |
| CacheSpec.InsertPos | Foundation/NSCache.swift:69-79 | the insertion point follows every slot of cost at most c and, if not at the end, holds a costlier slot |
| CacheSpec.SortedInsert | Foundation/NSCache.swift:66-81 | the corrected insert: the list grows by one, with the new slot at InsertPos; SortedInsertShifts, SortedInsertOrdered, SortedInsertDistinct, SumInsert and InsertFresh state the rest |
| CacheSpec.SortedInsertShifts | Foundation/NSCache.swift:66-81 | the slots before the insertion point stay in place, the new slot follows them, and the rest shift back by one in their old order |
| CacheSpec.SortedInsertOrdered | Foundation/NSCache.swift:66-81 | insertion keeps the list ascending, with the new slot after every slot of equal or lower cost and before every costlier one |
| CacheSpec.SortedInsertDistinct | Foundation/NSCache.swift:66-81 | inserting a slot with a new key keeps one slot per key |
| CacheSpec.SumInsert | Foundation/NSCache.swift:66-81 | inserting a slot raises the total of the list by its cost |
| CacheSpec.InsertFresh | Foundation/NSCache.swift:106-108 | adding a new key keeps the list well formed, maps the key to its value, leaves every other key's lookup unchanged, and raises the length by one and the total by the cost |
| CacheSpec.RemoveAtLookup | Foundation/NSCache.swift:56-64 | unlinking a slot keeps the list well formed, removes its key, leaves every other key's lookup unchanged, and lowers the length by one and the total by its cost |
| CacheSpec.ReplaceValue | Foundation/NSCache.swift:99-101 | a new value at the same cost keeps the list well formed, the length and the total; the key maps to the new value and no other lookup changes |
| CacheSpec.Update | Foundation/NSCache.swift:99-108 | the corrected update step keeps the length for a mapped key and adds one for a new key; UpdateFacts, ReplaceValue, RemoveAtLookup and InsertFresh state the rest, and NSCache.Cache.UpdateEntry is proved against it |
| CacheSpec.UpdateFacts | Foundation/NSCache.swift:99-108 | after the update step the key maps to the new value, other keys are untouched, the list stays ascending with one slot per key, grows by one exactly when the key was new, and its total moves by the new cost less the old |
| NSCache.Cache.Overwrite | Foundation/NSCache.swift:99-105 | the value is replaced in place; if the cost changed the entry moves to its new sorted place; the running total loses the old cost; the dictionary is unchanged |
| NSCache.Cache.Reposition | Foundation/NSCache.swift:101-105 | the new cost is recorded and the entry is unlinked and reinserted at its sorted place; the same entries stay listed and indexed |
| NSCache.Cache.Replace | Foundation/NSCache.swift:99-105 | the overwrite branch restores the invariant and leaves the slots as Update says |
| NSCache.Cache.Link | Foundation/NSCache.swift:106-108 | a fresh entry for the key is mapped in the dictionary and inserted into the list at its sorted place |
| NSCache.Cache.AddEntry | Foundation/NSCache.swift:106-108 | the new-key branch restores the invariant and leaves the slots as Update says |
| NSCache.Cache.UpdateEntry | Foundation/NSCache.swift:86-108 | step 1: the two triggers are computed as the code computes them, from the running total after it is raised by g and from the dictionary's count plus one; the key is overwritten or added; the invariant holds and the slots are Update of the old ones |
| NSCache.Cache.Evict | Foundation/NSCache.swift:116-119 | one round of either purge loop: the head leaves the list and the total, and is appended to toRemove with its slot |
| NSCache.Cache.CostStep | Foundation/NSCache.swift:115-122 | one round of the cost loop keeps the pass's invariant and shortens the list |
| NSCache.Cache.PurgeByCost | Foundation/NSCache.swift:113-123 | the cost pass takes exactly CostPurge entries off the head, in order, lowers the total by exactly their costs, and ends within the limit or with the list empty |
| NSCache.Cache.CostPassEnds | Foundation/NSCache.swift:115-123 | where the cost loop stops, it has taken exactly CostPurge entries |
| CacheSpec.CostPurge | Foundation/NSCache.swift:115-123 | the cost pass never takes more entries than the list holds |
| CacheSpec.CostPurgeStops | Foundation/NSCache.swift:115-123 | the cost pass stops within the limit or with the list empty, and before that every remaining total was over the limit |
| NSCache.Cache.CountStep | Foundation/NSCache.swift:132-139 | one round of the count loop keeps the pass's invariant and shortens the list |
| NSCache.Cache.PurgeByCount | Foundation/NSCache.swift:130-142 | the count pass takes exactly CountPurge entries off the head after those already set aside, and ends with the live count within the limit or the list empty |
| NSCache.Cache.CountPassEnds | Foundation/NSCache.swift:132-140 | where the count loop stops, it has taken exactly CountPurge entries |
| CacheSpec.CountPurge | Foundation/NSCache.swift:132-140 | the count pass never takes more entries than the list holds |
| CacheSpec.CountPurgeExact | Foundation/NSCache.swift:132-140 | the count pass evicts exactly the excess over the limit, or everything when the limit is negative |
| NSCache.Cache.CostPhase | Foundation/NSCache.swift:113-127 | the cost pass runs only if purgeAmount is positive, and purgeCount is then recomputed from the dictionary's count less the entries set aside |
| NSCache.Cache.CountPhase | Foundation/NSCache.swift:129-142 | the count pass runs only if purgeCount is positive, resumes where the cost pass stopped, and together with it takes the first PassCount entries: what is left is the updated list without them and toRemove holds exactly them, in order; the purge invariant holds |
| NSCache.Cache.Purge | Foundation/NSCache.swift:111-142 | step 2: the passes take the first PassCount entries off the list into toRemove, in order, and leave them in the dictionary |
| CacheSpec.PassCount | Foundation/NSCache.swift:113-142 | the two passes together never take more entries than the list holds |
| CacheSpec.PurgeAmount | Foundation/NSCache.swift:89-92 | purgeAmount is positive exactly when a cost limit is set and the running total plus g, g counted twice as written, exceeds it; TriggersCoverExcess shows it is positive whenever the list is over the limit |
| CacheSpec.PurgeCount | Foundation/NSCache.swift:94-97 | purgeCount is positive exactly when a count limit is set and the count given exceeds it; the code computes it first from the dictionary's count plus one (:94-97) and again after the cost pass (:124-126); TriggersCoverExcess |
| CacheSpec.TriggersCoverExcess | Foundation/NSCache.swift:89-97 | whenever the updated list is over a positive limit, the matching trigger is positive, so overestimating the triggers never keeps a needed pass from running |
| NSCache.Cache.Notify | Foundation/NSCache.swift:144-148 | a delegate, if there is one, hears of the value of each entry of toRemove exactly once, in order; with no delegate, no observer changes |
| NSCache.Cache.Unmap | Foundation/NSCache.swift:150-154 | each key of toRemove leaves the dictionary, which restores the invariant |
| NSCache.Cache.Release | Foundation/NSCache.swift:144-154 | steps 3 and 4: the delegate hears of the evicted values, in order, and then none of their keys is mapped |
| NSCache.Cache.Admit | Foundation/NSCache.swift:83-142 | steps 1 and 2: the list is left as SetObjectSpec says, and the entries set aside are exactly its evicted slots, in order |
| NSCache.Cache.SetObjectWithCost | Foundation/NSCache.swift:83-155 | the invariant holds; the list is SetObjectSpec's order; the delegate's log grows by exactly the evicted values, in order; no evicted key is mapped |
| NSCache.Cache.SetObject | Foundation/NSCache.swift:52-54 | setObject without a cost is setObject with cost 0 |
| CacheSpec.SetObjectSpec | Foundation/NSCache.swift:83-155 | the corrected setObject on the list: no contract of its own; SetObjectEvictsCheapest, SetObjectWithinCostLimit, SetObjectWithinCountLimit, SetObjectWithinLimits, SetObjectWithoutLimits, SetObjectLookup, CountLimitTieBreak and CostLimitEvictsCheapest state what it does, and NSCache.Cache.SetObjectWithCost and Admit are proved against it |
| CacheSpec.SetObjectEvictsCheapest | Foundation/NSCache.swift:113-142 | the evicted entries followed by the list afterwards make up the updated list; the evicted are ascending and none costs more than any that stays; the list stays well formed; the totals add up to the old total less the old cost plus the new |
| CacheSpec.SetObjectWithinCostLimit | Foundation/NSCache.swift:89-123 | after setObject a positive cost limit holds unless every entry was evicted |
| CacheSpec.SetObjectWithinCountLimit | Foundation/NSCache.swift:94-142 | after setObject a positive count limit holds |
| CacheSpec.SetObjectWithinLimits | Foundation/NSCache.swift:89-142 | both limits hold after setObject, as far as the list allows |
| CacheSpec.SetObjectWithoutLimits | Foundation/NSCache.swift:52-54 | with no limits nothing is evicted, so the key maps to the value just set and every other key keeps its value |
| CacheSpec.SetObjectLookup | Foundation/NSCache.swift:99-153 | after setObject, the key set maps to its new value unless its entry was evicted, and every other key keeps its value unless evicted; an evicted key is not found |
| CacheSpec.CountLimitTieBreak | Foundation/NSCache.swift:66-142 | with a count limit of 2, setting three objects of cost 1 evicts the first, which was inserted first among equal costs |
| CacheSpec.CostLimitEvictsCheapest | Foundation/NSCache.swift:83-155 | with a cost limit of 10, setting costs 4 and 8 evicts the cheaper and leaves a total of 8 |
| CacheSpec.RemoveKey | Foundation/NSCache.swift:157-166 | removeObject shortens the list by one exactly when the key is present; RemoveKeyFacts states the rest, and NSCache.Cache.RemoveObject is proved against it |
| NSCache.Cache.RemoveObject | Foundation/NSCache.swift:157-166 | the key is unmapped, unlinked and its cost subtracted; the list is RemoveKey of the old one; an absent key changes nothing |
| CacheSpec.RemoveKeyFacts | Foundation/NSCache.swift:157-166 | removeObject makes the key absent, leaves every other key's lookup unchanged, keeps the list well formed and lowers the total by the removed cost; for an absent key the list is unchanged |
| NSCache.Cache.RemoveAllObjects | Foundation/NSCache.swift:168-174 | the dictionary and the list are empty and the total is 0; no delegate is notified |
| AsWritten.InsertList | Foundation/NSCache.swift:66-81 | as written, insert gives an empty list the entry as its one element and returns any other list unchanged |
| AsWritten.Reinsert | Foundation/NSCache.swift:66-81 | as written, inserting an entry that is off the list leaves the total alone and the list as InsertList says; on a non-empty list the entry stays mapped and off the list, loose or stale |
| AsWritten.UpdateAsWritten | Foundation/NSCache.swift:99-108 | the update step as written leaves the running total to setObject; UpdateAsWrittenKeys, NewKeyUnlisted and LooseStaysOff state what it does to the dictionary and the list |
| AsWritten.UpdateAsWrittenKeys | Foundation/NSCache.swift:99-108 | after the update step the dictionary maps the key and every key it mapped before, wherever the entries end up |
| AsWritten.CostPass | Foundation/NSCache.swift:115-123 | the cost pass as written, driven by the running total, never takes more entries than the list holds |
| AsWritten.CountPass | Foundation/NSCache.swift:132-140 | the count pass as written, driven by the dictionary's count, never takes more entries than the list holds |
| AsWritten.CostPassAgrees | Foundation/NSCache.swift:115-123 | when the running total is the sum of the list, the cost pass as written takes CostPurge entries |
| AsWritten.CountPassAgrees | Foundation/NSCache.swift:132-140 | when the dictionary holds exactly the listed keys, the count pass as written takes CountPurge entries |
| AsWritten.PassesAsWritten | Foundation/NSCache.swift:113-142 | the two passes as written together never take more entries than the list holds |
| AsWritten.Evict | Foundation/NSCache.swift:113-155 | the evicted entries leave the head of the list and the running total does not rise; evicting none changes only the total |
| AsWritten.SetObjectAsWritten | Foundation/NSCache.swift:83-155 | setObject as written only lowers the running total after raising it by g; SetObjectAsWrittenWithoutLimits, NewKeyOnEmpty and the scenario lemmas below fix its results |
| AsWritten.SetObjectAsWrittenWithoutLimits | Foundation/NSCache.swift:83-155 | with no limit set, or with the list empty after the update step, setObject as written evicts nothing: it is the update step plus the raised total |
| AsWritten.NewKeyUnlisted | Foundation/NSCache.swift:106-108 | as written, a new key becomes a loose entry and leaves the list unchanged, while the corrected update lists it and grows the list by one |
| AsWritten.LooseStaysOff | Foundation/NSCache.swift:99-108 | as written, a loose entry on a non-empty list stays off it whatever is set under its key: the list is unchanged |
| AsWritten.NewKeyOnEmpty | Foundation/NSCache.swift:106-108 | as written, the first object set into an empty cache is mapped as a loose entry and the list stays empty, whatever the limits |
| AsWritten.CountLimitIgnored | Foundation/NSCache.swift:106-142 | as written, with a count limit of 1, a second object set after a first leaves both mapped and the list empty |
| AsWritten.CountLimitIgnoredKeys | Foundation/NSCache.swift:94-97 | the state CountLimitIgnored reaches maps two keys, over the count limit of 1 |
| AsWritten.CountLimitIgnoredCorrected | Foundation/NSCache.swift:106-142 | the same two sets through the corrected setObject evict the first |
| AsWritten.InsertLosesEntry | Foundation/NSCache.swift:66-81 | as written, inserting into a non-empty list leaves it unchanged, while the corrected insert adds the entry at its sorted place |
| AsWritten.HalfSpliceHead | Foundation/NSCache.swift:99-105 | as written, with no limits, setting a loose key again at another cost on the empty list makes its entry the head |
| AsWritten.HalfSpliceLoose | Foundation/NSCache.swift:106-108 | as written, a second key set at cost 0 becomes a loose entry beside the one-entry list |
| AsWritten.HalfSplice | Foundation/NSCache.swift:66-81 | as written, setting that key again at cost 1 stops the walk at the costlier head and sets only the key's own links: it stays mapped, off the list, as a stale entry |
| AsWritten.HalfSpliceKeys | Foundation/NSCache.swift:66-81 | the state HalfSplice reaches maps both keys while the list's sum, 5, falls short of the total, 6 |
| AsWritten.HalfSpliceCorrected | Foundation/NSCache.swift:66-81 | the corrected setObject puts the repriced key 2 ahead of key 1 and evicts nothing |
| AsWritten.OverwriteOvercounts | Foundation/NSCache.swift:87 | as written, the total after the update step exceeds the updated list's sum by exactly the old cost of the key |
| AsWritten.OverwriteEvictsHead | Foundation/NSCache.swift:86-123 | as written, under a cost limit of 7, setting a loose key again at cost 5 lists it with a total of 5 |
| AsWritten.OverwriteEvicts | Foundation/NSCache.swift:87-123 | as written, setting that key once more at cost 5 evicts it, since the running total reads 10, and leaves a total of 5 on an empty cache |
| AsWritten.OverwriteEvictsCorrected | Foundation/NSCache.swift:87-123 | the corrected setObject keeps the entry, the true total 5 being within the limit |

## Left out

- The lock (`_lock`) and concurrency between threads are not modelled. Each lock/unlock region is one atomic step, and the model is sequential.
- `delegate` is a plain optional reference, not a weak one. What the delegate does with an evicted object is not modelled. `unsafeDowncast(self, ...)` is not modelled. The delegate keeps only a ghost log of the values it was told about.
- The `unsafeBitCast` address identity of keys becomes an abstract key type with equality: two distinct key objects are two keys.
- `name` and `evictsObjectsWithDiscardedContent` have no behaviour and are not modelled.
- Costs are `nat`: a negative cost, which the source does not reject, is not modelled. `Int` overflow of `_totalCost` is not modelled: totals are unbounded integers.
- The lookup results are `Option`, standing for Swift's optional.
- NSCache.Cache.RemoveAllObjects: the dropped entries keep their links to one another, as in the source, but the contract says nothing about them because none is reachable from the cache any more.
- NSCache.Cache.Remove: the unlinked entry keeps its own stale links, as in the source. The contract speaks only of the list that remains.
- AsWritten.SetObjectAsWritten: it does not cover a cost change for a stale key, that is a key whose entry is mapped, off the list, and holds a link left by `insert` or by its old place on the list. `remove` would then rewrite other entries and perhaps the head through that link, and a list of slots does not record where it points. New, listed and loose keys (off the list with both links still nil) are covered, and so is a set of a stale key at its current cost, which changes only the value.
- The model uses the corrected behaviour for the three defects under Findings. The purge triggers are modelled as written: `purgeAmount` adds `g` twice, and `purgeCount` counts a new entry even on an overwrite. They only decide whether a pass starts, and CacheSpec.TriggersCoverExcess shows that they never keep a needed pass from running.

## Findings

| source | as written | input that shows it | evidently intended | confidence | as-written member | corrected member |
|---|---|---|---|---|---|---|
| Foundation/NSCache.swift:106-108 | a new key is put in `_entries` only and never inserted into the cost list, so no purge pass can evict it while it stays off the list; it joins the list only if a later set of the same key at another cost finds the list empty | `countLimit = 1`; on an empty cache, set key 1 and then key 2: both stay mapped, the list stays empty, and the count pass finds nothing to take | the new entry is also inserted into the cost list at its sorted place | not executed | AsWritten.CountLimitIgnored | NSCache.Cache.AddEntry |
| Foundation/NSCache.swift:66-81 | insert sets only the new entry's own links; no neighbour and not the head point at it, and a non-empty list with no costlier entry is left untouched | no limits; on an empty cache set key 1 at cost 0, key 1 again at cost 5 (it becomes the head), key 2 at cost 0, and key 2 again at cost 1: the walk stops at key 1 and sets only key 2's own links, so key 2 stays mapped but is not on the list, whose sum 5 falls short of the total 6 | a full splice before the first costlier entry, or at the tail, fixing both neighbours and the head | not executed | AsWritten.HalfSplice | NSCache.Cache.Insert |
| Foundation/NSCache.swift:87 | `_totalCost += g` also runs when an existing key is overwritten, and the old cost is never subtracted | `totalCostLimit = 7`; on an empty cache set key 1 at cost 0 and again at cost 5, which lists it with a total of 5; set key 1 once more at cost 5: the total reads 10, the entry is evicted, and a total of 5 remains on an empty cache | the overwrite subtracts the old cost, so the total stays the sum of the listed costs | not executed | AsWritten.OverwriteEvicts | NSCache.Cache.Overwrite |
