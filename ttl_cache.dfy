/**
 * The module-level `resultsCache` shared in form by the DuckDuckGo, IAsk and Felo
 * searches: a JavaScript `Map` from key strings to `{results, timestamp}` entries,
 * kept in insertion order, purged of entries older than five minutes, and (for
 * DuckDuckGo) trimmed of its oldest entry when it grows past a bound.
 *
 * The `Map` is a sequence of slots with distinct keys; `Map.set` on a key already
 * present keeps the key's position and replaces its entry.
 */
module TtlCache {
  import opened Wrappers

  /** Five minutes in milliseconds. */
  const CACHE_DURATION: int := 5 * 60 * 1000

  datatype Entry<V> = Entry(results: V, timestamp: int)

  datatype Slot<V> = Slot(key: string, entry: Entry<V>)

  /** The purge condition: strictly older than the time to live. */
  predicate Expired<V>(e: Entry<V>, now: int) {
    now - e.timestamp > CACHE_DURATION
  }

  /** The serve condition: strictly younger than the time to live. */
  predicate Servable<V>(e: Entry<V>, now: int) {
    now - e.timestamp < CACHE_DURATION
  }

  function Keys<V>(slots: seq<Slot<V>>): (r: seq<string>)
    ensures |r| == |slots|
    ensures forall i :: 0 <= i < |slots| ==> r[i] == slots[i].key
  {
    if slots == [] then [] else [slots[0].key] + Keys(slots[1..])
  }

  predicate DistinctKeys<V>(slots: seq<Slot<V>>) {
    forall i, j :: 0 <= i < j < |slots| ==> slots[i].key != slots[j].key
  }

  /** `map.get(key)`. */
  function Find<V>(slots: seq<Slot<V>>, key: string): (r: Option<Entry<V>>)
    ensures r.Some? <==> key in Keys(slots)
    ensures r.Some? ==> Slot(key, r.value) in slots
  {
    if slots == [] then None
    else if slots[0].key == key then Some(slots[0].entry)
    else
      assert Keys(slots) == [slots[0].key] + Keys(slots[1..]);
      Find(slots[1..], key)
  }

  lemma DistinctTail<V>(slots: seq<Slot<V>>)
    requires DistinctKeys(slots) && slots != []
    ensures DistinctKeys(slots[1..]) && slots[0].key !in Keys(slots[1..])
  {
    var rest := slots[1..];
    forall i, j | 0 <= i < j < |rest| ensures rest[i].key != rest[j].key {
      assert rest[i] == slots[i + 1] && rest[j] == slots[j + 1];
    }
    forall k | 0 <= k < |rest| ensures Keys(rest)[k] != slots[0].key {
      assert rest[k] == slots[k + 1];
    }
  }

  lemma DistinctCons<V>(x: Slot<V>, rest: seq<Slot<V>>)
    requires DistinctKeys(rest) && x.key !in Keys(rest)
    ensures DistinctKeys([x] + rest)
  {
    var r := [x] + rest;
    forall i, j | 0 <= i < j < |r| ensures r[i].key != r[j].key {
      assert r[j] == rest[j - 1];
      if i > 0 { assert r[i] == rest[i - 1]; } else { assert Keys(rest)[j - 1] == rest[j - 1].key; }
    }
  }

  /** With distinct keys, every slot's key finds that slot's entry. */
  lemma {:induction false} FindAt<V>(slots: seq<Slot<V>>, i: nat)
    requires DistinctKeys(slots) && i < |slots|
    ensures Find(slots, slots[i].key) == Some(slots[i].entry)
  {
    if i > 0 {
      DistinctTail(slots);
      assert slots[1..][i - 1] == slots[i];
      FindAt(slots[1..], i - 1);
    }
  }

  /** The slots that survive the purge at `now`, in their order. */
  function Purge<V>(slots: seq<Slot<V>>, now: int): (r: seq<Slot<V>>)
    ensures |r| <= |slots|
    ensures forall i :: 0 <= i < |r| ==> r[i] in slots && !Expired(r[i].entry, now)
    ensures forall i :: 0 <= i < |slots| && !Expired(slots[i].entry, now) ==> slots[i] in r
  {
    if slots == [] then []
    else
      var rest := Purge(slots[1..], now);
      assert forall i :: 1 <= i < |slots| ==> slots[i] == slots[1..][i - 1];
      if Expired(slots[0].entry, now) then rest else [slots[0]] + rest
  }

  lemma {:induction false} PurgeAppend<V>(a: seq<Slot<V>>, b: seq<Slot<V>>, now: int)
    ensures Purge(a + b, now) == Purge(a, now) + Purge(b, now)
  {
    if a == [] {
      assert a + b == b;
    } else {
      assert (a + b)[1..] == a[1..] + b;
      PurgeAppend(a[1..], b, now);
    }
  }

  /** One more entry seen by the purge: it is kept or it is dropped. */
  lemma PurgeStep<V>(original: seq<Slot<V>>, seen: nat, now: int)
    requires seen < |original|
    ensures Purge(original[..seen + 1], now) ==
      Purge(original[..seen], now) + (if Expired(original[seen].entry, now) then [] else [original[seen]])
  {
    assert original[..seen + 1] == original[..seen] + [original[seen]];
    PurgeAppend(original[..seen], [original[seen]], now);
    assert [original[seen]][1..] == [];
  }

  lemma SlotsAt<V>(slots: seq<Slot<V>>, i: nat, original: seq<Slot<V>>, seen: nat)
    requires i < |slots| && seen <= |original| && slots[i..] == original[seen..]
    ensures seen < |original| && slots[i] == original[seen] && slots[i + 1..] == original[seen + 1..]
  {
    assert slots[i..][0] == slots[i];
    assert slots[i + 1..] == slots[i..][1..];
  }

  lemma DeleteAt<V>(slots: seq<Slot<V>>, i: nat)
    requires i < |slots|
    ensures var d := slots[..i] + slots[i + 1..]; d[..i] == slots[..i] && d[i..] == slots[i + 1..]
  {
  }

  lemma KeepAt<V>(slots: seq<Slot<V>>, i: nat)
    requires i < |slots|
    ensures slots[..i + 1] == slots[..i] + [slots[i]]
  {
  }

  /** The purge keeps the keys distinct. */
  lemma {:induction false} PurgeDistinct<V>(slots: seq<Slot<V>>, now: int)
    requires DistinctKeys(slots)
    ensures DistinctKeys(Purge(slots, now))
  {
    if slots != [] {
      var rest := slots[1..];
      DistinctTail(slots);
      PurgeDistinct(rest, now);
      var pr := Purge(rest, now);
      if !Expired(slots[0].entry, now) {
        forall k | 0 <= k < |pr| ensures Keys(pr)[k] != slots[0].key {
          var m :| 0 <= m < |rest| && rest[m] == pr[k];
          assert Keys(rest)[m] == pr[k].key;
        }
        DistinctCons(slots[0], pr);
      }
    }
  }

  /** After the purge a key finds its old entry exactly when that entry had not
      expired: the purge removes the expired entries and touches no other. */
  lemma {:induction false} PurgeFind<V>(slots: seq<Slot<V>>, now: int, key: string)
    requires DistinctKeys(slots)
    ensures Find(Purge(slots, now), key) ==
      (if Find(slots, key).Some? && !Expired(Find(slots, key).value, now) then Find(slots, key) else None)
  {
    if slots != [] {
      var rest := slots[1..];
      DistinctTail(slots);
      PurgeFind(rest, now, key);
      if slots[0].key == key {
        assert Find(rest, key) == None;
      }
    }
  }

  /** `map.set(key, e)`: an existing key keeps its position, a new key goes last. */
  function Insert<V>(slots: seq<Slot<V>>, key: string, e: Entry<V>): (r: seq<Slot<V>>)
    ensures key in Keys(slots) ==> |r| == |slots| && Keys(r) == Keys(slots)
    ensures key !in Keys(slots) ==> r == slots + [Slot(key, e)]
    ensures forall i :: 0 <= i < |slots| && slots[i].key != key ==> r[i] == slots[i]
  {
    if slots == [] then [Slot(key, e)]
    else
      assert Keys(slots) == [slots[0].key] + Keys(slots[1..]);
      if slots[0].key == key then [Slot(key, e)] + slots[1..]
      else
        var r := [slots[0]] + Insert(slots[1..], key, e);
        assert Keys(r) == [slots[0].key] + Keys(r[1..]);
        r
  }

  /** Every slot after an insert is an old slot or the new one. */
  lemma {:induction false} InsertOnlyAdds<V>(slots: seq<Slot<V>>, key: string, e: Entry<V>)
    ensures forall k :: 0 <= k < |Insert(slots, key, e)| ==>
      Insert(slots, key, e)[k] in slots || Insert(slots, key, e)[k] == Slot(key, e)
  {
    if slots != [] && slots[0].key != key {
      InsertOnlyAdds(slots[1..], key, e);
      var r := Insert(slots, key, e);
      forall k | 0 <= k < |r| ensures r[k] in slots || r[k] == Slot(key, e) {
        if k > 0 {
          assert r[k] == Insert(slots[1..], key, e)[k - 1];
        }
      }
    }
  }

  /** Deleting the first key when the size exceeds `max`. */
  function EvictOldest<V>(slots: seq<Slot<V>>, max: nat): (r: seq<Slot<V>>)
    ensures |slots| > max ==> r == slots[1..]
    ensures |slots| <= max ==> r == slots
  {
    if |slots| > max then slots[1..] else slots
  }

  /** An insert keeps the keys distinct. */
  lemma {:induction false} InsertDistinct<V>(slots: seq<Slot<V>>, key: string, e: Entry<V>)
    requires DistinctKeys(slots)
    ensures DistinctKeys(Insert(slots, key, e))
  {
    if slots != [] {
      var rest := slots[1..];
      DistinctTail(slots);
      if slots[0].key == key {
        DistinctCons(Slot(key, e), rest);
      } else {
        InsertDistinct(rest, key, e);
        var ir := Insert(rest, key, e);
        assert slots[0].key !in Keys(ir);
        DistinctCons(slots[0], ir);
      }
    }
  }

  lemma FindCons<V>(slots: seq<Slot<V>>, key: string)
    requires slots != []
    ensures Find(slots, key) == if slots[0].key == key then Some(slots[0].entry) else Find(slots[1..], key)
  {
  }

  /** After an insert the inserted key finds its entry and every other key finds what
      it found before. */
  lemma {:induction false} InsertFind<V>(slots: seq<Slot<V>>, key: string, e: Entry<V>, other: string)
    requires DistinctKeys(slots)
    ensures Find(Insert(slots, key, e), key) == Some(e)
    ensures other != key ==> Find(Insert(slots, key, e), other) == Find(slots, other)
  {
    if slots != [] {
      var ins := Insert(slots, key, e);
      if slots[0].key == key {
        assert ins == [Slot(key, e)] + slots[1..];
        FindCons(ins, other);
        FindCons(slots, other);
        assert ins[1..] == slots[1..];
      } else {
        DistinctTail(slots);
        InsertFind(slots[1..], key, e, other);
        assert ins == [slots[0]] + Insert(slots[1..], key, e);
        FindCons(ins, other);
        FindCons(slots, other);
        assert ins[1..] == Insert(slots[1..], key, e);
      }
    }
  }

  /** The store-then-evict step of a search: a cache of at most `max` entries stays at
      most `max`, and the key just stored remains with its entry. */
  lemma InsertThenEvict<V>(slots: seq<Slot<V>>, key: string, e: Entry<V>, max: nat)
    requires DistinctKeys(slots) && |slots| <= max && max >= 1
    ensures var r := EvictOldest(Insert(slots, key, e), max);
      |r| <= max && DistinctKeys(r) && Find(r, key) == Some(e)
  {
    InsertDistinct(slots, key, e);
    var ins := Insert(slots, key, e);
    if |ins| > max {
      OverflowAppends(slots, key, e);
      var r := ins[1..];
      DistinctTail(ins);
      assert r[|r| - 1] == Slot(key, e);
      FindAt(r, |r| - 1);
    } else {
      InsertFind(slots, key, e, key);
    }
  }

  /** On overflow exactly the first-inserted key goes, and it is not the key just
      stored. */
  lemma OverflowEvictsFirst<V>(slots: seq<Slot<V>>, key: string, e: Entry<V>, max: nat)
    requires |slots| <= max && max >= 1
    ensures var ins := Insert(slots, key, e);
      |ins| > max ==> Keys(EvictOldest(ins, max)) == Keys(ins)[1..] && ins[0].key != key
  {
    var ins := Insert(slots, key, e);
    if |ins| > max {
      OverflowAppends(slots, key, e);
    }
  }

  lemma OverflowAppends<V>(slots: seq<Slot<V>>, key: string, e: Entry<V>)
    requires |Insert(slots, key, e)| > |slots|
    ensures Insert(slots, key, e) == slots + [Slot(key, e)]
    ensures slots != [] ==> slots[0].key != key
    ensures Keys(Insert(slots, key, e)[1..]) == Keys(Insert(slots, key, e))[1..]
  {
    if slots != [] {
      assert Keys(slots)[0] == slots[0].key;
    }
  }

  /** An entry exactly `CACHE_DURATION` old survives the purge but is not served. */
  lemma BoundaryAge<V>(e: Entry<V>, now: int)
    requires now - e.timestamp == CACHE_DURATION
    ensures !Expired(e, now) && !Servable(e, now)
  {
  }

  /** Every entry that survives a purge at `now` is younger than the time to live or
      exactly at it. */
  lemma PurgedAreFresh<V>(slots: seq<Slot<V>>, now: int)
    ensures forall i :: 0 <= i < |Purge(slots, now)| ==>
      now - Purge(slots, now)[i].entry.timestamp <= CACHE_DURATION
  {
  }

  /** A module-level results cache. */
  class ResultsCache<V> {
    var slots: seq<Slot<V>>

    ghost predicate Valid()
      reads this
    {
      DistinctKeys(slots)
    }

    constructor ()
      ensures slots == [] && Valid()
    {
      slots := [];
    }

    /** `resultsCache.size`. */
    function Size(): (n: nat)
      reads this
      ensures n == |slots|
    {
      |slots|
    }

    /** `resultsCache.get(key)`. */
    function Get(key: string): (r: Option<Entry<V>>)
      reads this
      ensures r.Some? <==> key in Keys(slots)
    {
      Find(slots, key)
    }

    /** `clearOldCache`: iterate the entries in order, deleting each expired one from
        the map while the iteration goes on. */
    method ClearOldCache(now: int)
      requires Valid()
      modifies this
      ensures Valid()
      ensures slots == Purge(old(slots), now)
    {
      ghost var original := slots;
      ghost var seen := 0;
      var i := 0;
      while i < |slots|
        invariant 0 <= i <= |slots| && 0 <= seen <= |original|
        invariant slots[..i] == Purge(original[..seen], now)
        invariant slots[i..] == original[seen..]
        decreases |slots| - i
      {
        PurgeStep(original, seen, now);
        SlotsAt(slots, i, original, seen);
        if Expired(slots[i].entry, now) {
          DeleteAt(slots, i);
          slots := slots[..i] + slots[i + 1..];
        } else {
          KeepAt(slots, i);
          i := i + 1;
        }
        seen := seen + 1;
      }
      assert original[..seen] == original;
      assert slots == slots[..i];
      PurgeDistinct(original, now);
    }

    /** `resultsCache.set(key, e)`. */
    method Set(key: string, e: Entry<V>)
      requires Valid()
      modifies this
      ensures Valid()
      ensures slots == Insert(old(slots), key, e)
    {
      InsertDistinct(slots, key, e);
      slots := Insert(slots, key, e);
    }

    /** Deleting the key that `Array.from(resultsCache.keys())[0]` names when the size
        exceeds `max`. */
    method RemoveOldestIfOver(max: nat)
      requires Valid()
      modifies this
      ensures Valid()
      ensures slots == EvictOldest(old(slots), max)
    {
      if |slots| > max {
        DistinctTail(slots);
        slots := slots[1..];
      }
    }
  }
}
