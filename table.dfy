/**
 * `table_t` of src/table.c: an open-addressing hash map from strings to strings over a
 * power-of-two array of slots, probed linearly from `hash & (capacity - 1)` and doubled
 * before it would become more than half full.  Each method is proved against the map
 * `Contents()` the slots hold (module TableSpec).
 */
module Tables {
  import opened Wrappers
  import opened TableSpec

  /** `INITIAL_CAPACITY`. */
  const InitialCapacity: nat := 16
  /** The largest value of a C `int`. */
  const IntMax: nat := 0x7fff_ffff

  /** `hash_key`: the loop over the key's bytes computes its FNV-1a hash. */
  method HashKey(key: string) returns (hash: nat)
    ensures hash == Fnv1a(key)
  {
    hash := FnvOffset;
    for i := 0 to |key|
      invariant hash == Fnv1a(key[..i])
    {
      assert key[..i + 1][..i] == key[..i];
      hash := Xor(hash, Byte(key[i]));
      hash := (hash * FnvPrime) % Mod64;
    }
    assert key[..|key|] == key;
  }

  /** `(size_t)(hash & (uint64_t)(capacity - 1))`: where the probe for `key` starts. */
  method HomeSlot(key: string, n: nat) returns (index: nat)
    requires n > 0
    ensures index == Home(key, n) && index < n
  {
    var hash := HashKey(key);
    index := And(hash, n - 1);
  }

  /**
   * The probe loop of `table_get` and `table_set_entry`: from the key's home slot, step
   * to the next slot, wrapping to 0 past the last, until the slot is empty or holds an
   * equal key.  `d` is the number of steps taken; every slot passed holds another key.
   * The empty slot `e` is what makes the loop stop.
   */
  method Probe(entries: array<Entry>, key: string, ghost e: nat) returns (index: nat, ghost d: nat)
    requires e < entries.Length && entries[e].Empty?
    ensures d < entries.Length && index == Slot(Home(key, entries.Length), d, entries.Length)
    ensures entries[index].Empty? || entries[index].key == key
    ensures forall x | 0 <= x < d :: HoldsOther(entries[Slot(Home(key, entries.Length), x, entries.Length)], key)
  {
    var n := entries.Length;
    index := HomeSlot(key, n);
    ghost var h := Home(key, n);
    d := 0;
    while entries[index].Occupied? && entries[index].key != key
      invariant 0 <= d <= Dist(h, e, n) && index == Slot(h, d, n)
      invariant forall x | 0 <= x < d :: HoldsOther(entries[Slot(h, x, n)], key)
      decreases n - d
    {
      assert Slot(h, Dist(h, e, n), n) == e;
      assert d != Dist(h, e, n);
      assert HoldsOther(entries[index], key);
      forall x | 0 <= x < d + 1
        ensures HoldsOther(entries[Slot(h, x, n)], key)
      {
        if x == d {
          assert Slot(h, x, n) == index;
        }
      }
      index := index + 1;
      if index >= n {
        index := 0;
      }
      d := d + 1;
    }
  }

  /**
   * `table_set_entry`: an equal key met by the probe gets the new value; otherwise the
   * key goes into the empty slot that ended the probe.  `added` tells the caller whether
   * a new key was stored, which is when the C code bumps `*plength`; the key copy `strdup`
   * makes is the string itself here.
   */
  method SetEntry(entries: array<Entry>, key: string, value: string) returns (added: bool)
    requires Shape(entries[..]) && OccupiedCount(entries[..]) < entries.Length
    modifies entries
    ensures Shape(entries[..])
    ensures added <==> key !in MapOf(old(entries[..]))
    ensures MapOf(entries[..]) == MapOf(old(entries[..]))[key := value]
    ensures OccupiedCount(entries[..]) == OccupiedCount(old(entries[..])) + (if added then 1 else 0)
  {
    HasEmptySlot(entries[..]);
    ghost var e :| 0 <= e < entries.Length && entries[e].Empty?;
    var index, d := Probe(entries, key, e);
    if entries[index].Occupied? {
      Overwrite(entries[..], index, value);
      entries[index] := Occupied(entries[index].key, value);
      return false;
    }
    Insert(entries[..], key, value, d);
    entries[index] := Occupied(key, value);
    return true;
  }

  class Table {
    var count: nat
    var capacity: nat
    var entries: array<Entry>

    /**
     * The slots form a probed table of `capacity` slots, `capacity` is a power of two
     * from 16 up that fits an `int`, `count` is the number of occupied slots, and at most
     * half of the slots are occupied.
     */
    ghost predicate Valid()
      reads this, entries
    {
      && entries.Length == capacity
      && IsPow2(capacity) && InitialCapacity <= capacity <= IntMax
      && Shape(entries[..])
      && count == OccupiedCount(entries[..])
      && 2 * count <= capacity
    }

    /** The map the table stands for. */
    ghost function Contents(): map<string, string>
      reads this, entries
    {
      MapOf(entries[..])
    }

    /** `create_table`: 16 empty slots, count 0. */
    constructor ()
      ensures Valid() && fresh(entries)
      ensures Contents() == map[] && count == 0 && capacity == InitialCapacity
    {
      count := 0;
      capacity := InitialCapacity;
      entries := new Entry[InitialCapacity](_ => Empty);
      new;
      AllEmpty(entries[..]);
      EmptyShape(entries[..]);
    }

    /** `count` is the number of keys in the table. */
    lemma CountIsKeys()
      requires Valid()
      ensures count == |Contents()|
    {
      CountIsSize(entries[..]);
    }

    /**
     * `table_get`: the value bound to exactly `key`, or nothing when the probe meets an
     * empty slot first.
     */
    method Get(key: string) returns (value: Option<string>)
      requires Valid()
      ensures value == if key in Contents() then Some(Contents()[key]) else None
    {
      HasEmptySlot(entries[..]);
      ghost var e :| 0 <= e < entries.Length && entries[e].Empty?;
      var index, d := Probe(entries, key, e);
      if entries[index].Occupied? {
        OccupiedIsBound(entries[..], index);
        return Some(entries[index].value);
      }
      ProbeMissIsMissing(entries[..], key, d);
      MissingIsAbsent(entries[..], key);
      return None;
    }

    /**
     * `table_expand`: false, and no change, when doubling the capacity would overflow an
     * `int`; otherwise every entry is re-inserted into a fresh array of twice the size,
     * keeping the map and the count.
     */
    method Expand() returns (ok: bool)
      requires Valid()
      modifies this
      ensures Valid() && count == old(count) && Contents() == old(Contents())
      ensures ok <==> 2 * old(capacity) <= IntMax
      ensures capacity == if ok then 2 * old(capacity) else old(capacity)
      ensures if ok then fresh(entries) else entries == old(entries)
    {
      var newCapacity := capacity * 2;
      if newCapacity > IntMax {
        return false;
      }
      var newEntries := new Entry[newCapacity](_ => Empty);
      AllEmpty(newEntries[..]);
      EmptyShape(newEntries[..]);
      for i := 0 to capacity
        modifies newEntries
        invariant Shape(newEntries[..])
        invariant MapOf(newEntries[..]) == MapOf(entries[..i])
        invariant OccupiedCount(newEntries[..]) == OccupiedCount(entries[..i])
      {
        PrefixStep(entries[..], i);
        var entry := entries[i];
        if entry.Occupied? {
          assert Missing(entries[..i], entry.key);
          MissingIsAbsent(entries[..i], entry.key);
          PrefixCount(entries[..], i);
          var _ := SetEntry(newEntries, entry.key, entry.value);
        }
      }
      assert entries[..capacity] == entries[..];
      entries := newEntries;
      capacity := newCapacity;
      ok := true;
    }

    /**
     * `table_set`: a NULL value is refused; a table at half load is expanded first, and an
     * expansion that fails refuses the call; otherwise `key` is bound to the value, and
     * `count` goes up by one exactly when `key` is new.  The result is the stored key, or
     * nothing for a refusal.
     */
    method Set(key: string, value: Option<string>) returns (r: Option<string>)
      requires Valid()
      modifies this, entries
      ensures Valid()
      ensures r.Some? <==> value.Some? && (2 * old(count) < old(capacity) || 2 * old(capacity) <= IntMax)
      ensures r.Some? ==> r.value == key && Contents() == old(Contents())[key := value.value]
      ensures r.Some? ==> count == old(count) + (if key in old(Contents()) then 0 else 1)
      ensures r.None? ==> Contents() == old(Contents()) && count == old(count)
      ensures capacity ==
        if value.Some? && 2 * old(count) >= old(capacity) && 2 * old(capacity) <= IntMax
        then 2 * old(capacity) else old(capacity)
      ensures entries == old(entries) || fresh(entries)
    {
      if value.None? {
        return None;
      }
      if count >= capacity / 2 {
        var ok := Expand();
        if !ok {
          return None;
        }
      }
      var added := SetEntry(entries, key, value.value);
      if added {
        count := count + 1;
      }
      return Some(key);
    }
  }

  /** After a successful `table_set(key, v)`, `table_get(key)` gives `v`: the last write wins. */
  method SetThenGet(t: Table, key: string, v: string) returns (stored: bool, got: Option<string>)
    requires t.Valid()
    modifies t, t.entries
    ensures t.Valid()
    ensures stored ==> got == Some(v)
    ensures !stored ==> got == if key in old(t.Contents()) then Some(old(t.Contents())[key]) else None
  {
    var r := t.Set(key, Some(v));
    stored := r.Some?;
    got := t.Get(key);
  }
}
