/** The open-addressing table that remembers the size of every big allocation.

    Slots are probed linearly from the hash of the key. Removing a key leaves a tombstone; inserting
    reuses the first tombstone on the way. The table is rebuilt at twice the capacity when more than
    7/10 of it would be occupied or more than half of it is tombstones. The hash is any function. */
module BigAllocMaps {
  import opened Wrappers

  const LOAD_NUM := 7
  const LOAD_DEN := 10
  const INITIAL_CAP := 16 * 1024

  datatype Meta = Meta(size: nat, class_: nat, lifeTime: nat, flags: nat)

  datatype SlotState = Empty | Occupied | Tombstone

  datatype Entry = Entry(key: nat, meta: Meta, state: SlotState)

  const ZEROED := Entry(0, Meta(0, 0, 0, 0), Empty)

  type Hash = nat -> nat

  // ------------------------------------------------------------------ probing

  /** `hash & (cap - 1)`; the capacity is a power of two. */
  function Home(f: Hash, key: nat, cap: nat): nat
    requires 0 < cap
  {
    f(key) % cap
  }

  /** The slot `d` places after `h`, wrapping around. */
  function Wrap(h: nat, d: nat, cap: nat): (i: nat)
    requires h < cap && d < cap
    ensures i < cap
  {
    if h + d < cap then h + d else h + d - cap
  }

  /** How many places after `h` the slot `i` comes. */
  function Dist(h: nat, i: nat, cap: nat): (d: nat)
    requires h < cap && i < cap
    ensures d < cap && Wrap(h, d, cap) == i
  {
    if h <= i then i - h else i + cap - h
  }

  /** `(idx + 1) & (cap - 1)`. */
  function Next(idx: nat, cap: nat): (i: nat)
    requires idx < cap
    ensures i < cap
    ensures i == if idx + 1 == cap then 0 else idx + 1
  {
    (idx + 1) % cap
  }

  /** `INITIAL_CAP` doubled some number of times, hence a power of two. */
  ghost predicate Doubled(n: int) {
    n == INITIAL_CAP || (INITIAL_CAP < n && n % 2 == 0 && Doubled(n / 2))
  }

  lemma Doubles(n: int)
    requires INITIAL_CAP <= n && Doubled(n)
    ensures Doubled(2 * n)
  {
    assert 2 * n / 2 == n && 2 * n % 2 == 0;
  }

  // ------------------------------------------------------------------ counting slots

  function Count(t: seq<Entry>, st: SlotState): nat {
    if t == [] then 0 else Count(t[..|t| - 1], st) + if t[|t| - 1].state == st then 1 else 0
  }

  lemma {:induction false} CountUpdate(t: seq<Entry>, i: nat, e: Entry, st: SlotState)
    requires i < |t|
    ensures Count(t[i := e], st) + (if t[i].state == st then 1 else 0)
         == Count(t, st) + (if e.state == st then 1 else 0)
    decreases |t|
  {
    var n := |t| - 1;
    if i == n {
      assert t[i := e][..n] == t[..n];
    } else {
      assert t[i := e][..n] == t[..n][i := e];
      CountUpdate(t[..n], i, e, st);
    }
  }

  lemma {:induction false} CountBounds(t: seq<Entry>, st: SlotState)
    ensures Count(t, st) <= |t|
    ensures Count(t, st) == |t| <==> forall i :: 0 <= i < |t| ==> t[i].state == st
    ensures Count(t, st) == 0 <==> forall i :: 0 <= i < |t| ==> t[i].state != st
    decreases |t|
  {
    if t != [] {
      var n := |t| - 1;
      CountBounds(t[..n], st);
      assert forall i :: 0 <= i < n ==> t[..n][i] == t[i];
    }
  }

  lemma {:induction false} CountDisjoint(t: seq<Entry>)
    ensures Count(t, Occupied) + Count(t, Tombstone) <= |t|
    decreases |t|
  {
    if t != [] {
      CountDisjoint(t[..|t| - 1]);
    }
  }

  // ------------------------------------------------------------------ the table

  ghost predicate Holds(t: seq<Entry>, i: int, key: nat) {
    0 <= i < |t| && t[i].state == Occupied && t[i].key == key
  }

  /** No empty slot comes before slot `i` on the probe path of `key`. */
  ghost predicate PathClear(t: seq<Entry>, f: Hash, key: nat, i: nat)
    requires i < |t|
  {
    var h := Home(f, key, |t|);
    forall d: nat :: d < Dist(h, i, |t|) ==> t[Wrap(h, d, |t|)].state != Empty
  }

  /** Slot `i` is the first on the probe path of `key` that is not occupied. */
  ghost predicate FirstOpen(t: seq<Entry>, f: Hash, key: nat, i: nat)
    requires i < |t|
  {
    var h := Home(f, key, |t|);
    t[i].state != Occupied && forall d: nat :: d < Dist(h, i, |t|) ==> t[Wrap(h, d, |t|)].state == Occupied
  }

  /** The table stores exactly the map `m`, each key once and where probing will find it. */
  ghost predicate Stores(t: seq<Entry>, f: Hash, m: map<nat, Meta>) {
    && (forall i, j :: 0 <= i < j < |t| && t[i].state == Occupied && t[j].state == Occupied ==>
          t[i].key != t[j].key)
    && (forall i :: 0 <= i < |t| && t[i].state == Occupied ==>
          t[i].key in m && m[t[i].key] == t[i].meta && PathClear(t, f, t[i].key, i))
    && (forall k :: k in m ==> exists i :: Holds(t, i, k))
  }

  /** Slots `0..n` of the probe path of `key` are neither empty nor hold `key`. */
  ghost predicate Passed(t: seq<Entry>, f: Hash, key: nat, n: nat)
    requires n <= |t| && 0 < |t|
  {
    var h := Home(f, key, |t|);
    forall d: nat :: d < n ==> var i := Wrap(h, d, |t|); t[i].state != Empty && !Holds(t, i, key)
  }

  /** Probing that meets an empty slot, or runs all the way round, has missed nothing. */
  lemma ProbeComplete(t: seq<Entry>, f: Hash, m: map<nat, Meta>, key: nat, n: nat)
    requires 0 < |t| && n <= |t| && Stores(t, f, m) && Passed(t, f, key, n)
    requires n < |t| ==> t[Wrap(Home(f, key, |t|), n, |t|)].state == Empty
    ensures key !in m
  {
    var h := Home(f, key, |t|);
    forall i | 0 <= i < |t|
      ensures !Holds(t, i, key)
    {
      var d := Dist(h, i, |t|);
      assert d < n || !PathClear(t, f, key, i) || t[i].state == Empty;
    }
  }

  /** Writing a new key into a slot that probing reaches keeps the table in order. */
  lemma PlaceStores(t: seq<Entry>, f: Hash, m: map<nat, Meta>, i: nat, key: nat, meta: Meta)
    requires i < |t| && Stores(t, f, m) && key !in m && t[i].state != Occupied
    requires PathClear(t, f, key, i)
    ensures Stores(t[i := Entry(key, meta, Occupied)], f, m[key := meta])
  {
    var t', m' := t[i := Entry(key, meta, Occupied)], m[key := meta];
    forall j | 0 <= j < |t'| && t'[j].state == Occupied
      ensures t'[j].key in m' && m'[t'[j].key] == t'[j].meta && PathClear(t', f, t'[j].key, j)
    {
      assert PathClear(t, f, t'[j].key, j);
    }
    forall k | k in m'
      ensures exists j :: Holds(t', j, k)
    {
      if k == key {
        assert Holds(t', i, k);
      } else {
        var j :| Holds(t, j, k);
        assert Holds(t', j, k);
      }
    }
  }

  /** Overwriting the value of a key. */
  lemma UpdateStores(t: seq<Entry>, f: Hash, m: map<nat, Meta>, i: nat, meta: Meta)
    requires i < |t| && Stores(t, f, m) && t[i].state == Occupied
    ensures Stores(t[i := t[i].(meta := meta)], f, m[t[i].key := meta])
  {
    var t', m' := t[i := t[i].(meta := meta)], m[t[i].key := meta];
    forall j | 0 <= j < |t'| && t'[j].state == Occupied
      ensures t'[j].key in m' && m'[t'[j].key] == t'[j].meta && PathClear(t', f, t'[j].key, j)
    {
      assert PathClear(t, f, t[j].key, j);
    }
    forall k | k in m'
      ensures exists j :: Holds(t', j, k)
    {
      var j :| Holds(t, j, k);
      assert Holds(t', j, k);
    }
  }

  /** Turning a slot into a tombstone forgets its key and blocks no probe path. */
  lemma RemoveStores(t: seq<Entry>, f: Hash, m: map<nat, Meta>, i: nat)
    requires i < |t| && Stores(t, f, m) && t[i].state == Occupied
    ensures Stores(t[i := t[i].(state := Tombstone)], f, m - {t[i].key})
  {
    var t', m' := t[i := t[i].(state := Tombstone)], m - {t[i].key};
    forall j | 0 <= j < |t'| && t'[j].state == Occupied
      ensures t'[j].key in m' && m'[t'[j].key] == t'[j].meta && PathClear(t', f, t'[j].key, j)
    {
      assert PathClear(t, f, t[j].key, j);
    }
    forall k | k in m'
      ensures exists j :: Holds(t', j, k)
    {
      var j :| Holds(t, j, k);
      assert Holds(t', j, k);
    }
  }

  // ------------------------------------------------------------------ rehashing

  lemma CountPrefix(t: seq<Entry>, i: nat, st: SlotState)
    requires i < |t|
    ensures Count(t[..i + 1], st) == Count(t[..i], st) + if t[i].state == st then 1 else 0
    ensures Count(t[..i], st) <= Count(t, st)
  {
    assert t[..i + 1][..i] == t[..i];
    CountMonotone(t, i, st);
  }

  lemma {:induction false} CountMonotone(t: seq<Entry>, i: nat, st: SlotState)
    requires i <= |t|
    ensures Count(t[..i], st) <= Count(t, st)
    decreases |t|
  {
    if i == |t| {
      assert t[..i] == t;
    } else {
      var n := |t| - 1;
      assert t[..n][..i] == t[..i];
      CountMonotone(t[..n], i, st);
    }
  }

  /** `moved` is the part of `m` whose slots are below `i`. */
  ghost predicate MovedSoFar(t: seq<Entry>, m: map<nat, Meta>, moved: map<nat, Meta>, i: nat) {
    && (forall k :: k in moved ==> k in m && moved[k] == m[k])
    && (forall k :: k in moved <==> exists j :: 0 <= j < i && Holds(t, j, k))
  }

  lemma MovedStep(t: seq<Entry>, f: Hash, m: map<nat, Meta>, moved: map<nat, Meta>, i: nat)
    requires Stores(t, f, m) && i < |t| && t[i].state == Occupied && MovedSoFar(t, m, moved, i)
    ensures t[i].key !in moved
    ensures MovedSoFar(t, m, moved[t[i].key := t[i].meta], i + 1)
  {
    var moved' := moved[t[i].key := t[i].meta];
    forall k
      ensures k in moved' <==> exists j :: 0 <= j < i + 1 && Holds(t, j, k)
    {
      if k == t[i].key {
        assert Holds(t, i, k);
      }
    }
  }

  lemma MovedSkip(t: seq<Entry>, m: map<nat, Meta>, moved: map<nat, Meta>, i: nat)
    requires i < |t| && t[i].state != Occupied && MovedSoFar(t, m, moved, i)
    ensures MovedSoFar(t, m, moved, i + 1)
  {
    forall k
      ensures k in moved <==> exists j :: 0 <= j < i + 1 && Holds(t, j, k)
    {
      if j :| 0 <= j < i + 1 && Holds(t, j, k) {
        assert j < i;
      }
    }
  }

  lemma MovedAll(t: seq<Entry>, f: Hash, m: map<nat, Meta>, moved: map<nat, Meta>)
    requires Stores(t, f, m) && MovedSoFar(t, m, moved, |t|)
    ensures moved == m
  {
    forall k | k in m
      ensures k in moved
    {
      var j :| Holds(t, j, k);
    }
  }

  /** Put a key into a table without tombstones that is not full. */
  method Reinsert(t: array<Entry>, f: Hash, ghost m: map<nat, Meta>, key: nat, meta: Meta)
    requires 0 < t.Length && Stores(t[..], f, m) && key !in m
    requires Count(t[..], Tombstone) == 0 && Count(t[..], Occupied) < t.Length
    modifies t
    ensures Stores(t[..], f, m[key := meta])
    ensures Count(t[..], Tombstone) == 0 && Count(t[..], Occupied) == old(Count(t[..], Occupied)) + 1
  {
    var cap := t.Length;
    var idx := Home(f, key, cap);
    ghost var h := idx;
    CountBounds(t[..], Occupied);
    CountBounds(t[..], Tombstone);
    var d := 0;
    while d < cap && t[idx].state == Occupied
      invariant 0 <= d <= cap
      invariant idx == if d < cap then Wrap(h, d, cap) else h
      invariant forall e: nat :: e < d ==> t[Wrap(h, e, cap)].state == Occupied
    {
      idx, d := Next(idx, cap), d + 1;
    }
    assert d < cap by {
      if d == cap {
        forall i | 0 <= i < cap ensures t[..][i].state == Occupied {
          assert t[Wrap(h, Dist(h, i, cap), cap)].state == Occupied;
        }
      }
    }
    PlaceStores(t[..], f, m, idx, key, meta);
    CountUpdate(t[..], idx, Entry(key, meta, Occupied), Occupied);
    CountUpdate(t[..], idx, Entry(key, meta, Occupied), Tombstone);
    t[idx] := Entry(key, meta, Occupied);
    assert t[..] == old(t[..])[idx := Entry(key, meta, Occupied)];
  }

  /** A fresh, larger table with the same map. */
  method Rehash(t: array<Entry>, f: Hash, ghost m: map<nat, Meta>, newCap: nat) returns (t': array<Entry>)
    requires Stores(t[..], f, m) && t.Length < newCap
    ensures fresh(t') && t'.Length == newCap
    ensures Stores(t'[..], f, m) && Count(t'[..], Tombstone) == 0
    ensures Count(t'[..], Occupied) == Count(t[..], Occupied)
  {
    t' := new Entry[newCap](_ => ZEROED);
    CountBounds(t'[..], Occupied);
    CountBounds(t'[..], Tombstone);
    CountBounds(t[..], Occupied);
    ghost var moved: map<nat, Meta> := map[];
    for i := 0 to t.Length
      invariant Stores(t'[..], f, moved) && Count(t'[..], Tombstone) == 0
      invariant Count(t'[..], Occupied) == Count(t[..i], Occupied)
      invariant MovedSoFar(t[..], m, moved, i)
    {
      CountPrefix(t[..], i, Occupied);
      if t[i].state == Occupied {
        MovedStep(t[..], f, m, moved, i);
        Reinsert(t', f, moved, t[i].key, t[i].meta);
        moved := moved[t[i].key := t[i].meta];
      } else {
        MovedSkip(t[..], m, moved, i);
      }
    }
    assert t[..t.Length] == t[..];
    MovedAll(t[..], f, m, moved);
  }

  /** The keys in the first `n` slots. */
  ghost function KeysIn(t: seq<Entry>, n: nat): set<nat>
    requires n <= |t|
  {
    if n == 0 then {} else KeysIn(t, n - 1) + if t[n - 1].state == Occupied then {t[n - 1].key} else {}
  }

  lemma {:induction false} KeysAre(t: seq<Entry>, n: nat, k: nat)
    requires n <= |t|
    ensures k in KeysIn(t, n) <==> exists i :: 0 <= i < n && Holds(t, i, k)
  {
    if n > 0 {
      KeysAre(t, n - 1, k);
      assert Holds(t, n - 1, k) <==> t[n - 1].state == Occupied && t[n - 1].key == k;
    }
  }

  /** The key in slot `n`, if there is one, is in no slot before. */
  ghost predicate NewAt(t: seq<Entry>, n: nat) {
    n < |t| && t[n].state == Occupied ==> t[n].key !in KeysIn(t, n)
  }

  lemma {:induction false} KeysCounted(t: seq<Entry>, n: nat)
    requires n <= |t| && forall i: nat :: NewAt(t, i)
    ensures |KeysIn(t, n)| == Count(t[..n], Occupied)
  {
    if n > 0 {
      KeysCounted(t, n - 1);
      CountPrefix(t, n - 1, Occupied);
      assert NewAt(t, n - 1);
    }
  }

  /** The number of occupied slots is the size of the map. */
  lemma OccupiedIsSize(t: seq<Entry>, f: Hash, m: map<nat, Meta>)
    requires Stores(t, f, m)
    ensures |m| == Count(t, Occupied)
  {
    forall n: nat
      ensures NewAt(t, n)
    {
      if n < |t| {
        KeysAre(t, n, t[n].key);
      }
    }
    KeysCounted(t, |t|);
    assert t[..|t|] == t;
    forall k
      ensures k in KeysIn(t, |t|) <==> k in m
    {
      KeysAre(t, |t|, k);
    }
    assert KeysIn(t, |t|) == m.Keys;
  }

  class BigAllocMap {
    const hash: Hash
    var table: array<Entry>
    var cap: nat
    var len: nat
    var tombstones: nat

    /** The map the table stands for. */
    ghost var contents: map<nat, Meta>

    ghost predicate Valid()
      reads this, table
    {
      && table.Length == cap
      && (cap == 0 || (INITIAL_CAP <= cap && Doubled(cap)))
      && Stores(table[..], hash, contents)
      && len == Count(table[..], Occupied)
      && tombstones == Count(table[..], Tombstone)
      && len * LOAD_DEN <= cap * LOAD_NUM
    }

    ghost predicate Roomy()
      reads this
    {
      0 < cap && len < cap
    }

    constructor (f: Hash)
      ensures Valid() && fresh(table) && hash == f && contents == map[] && cap == 0
    {
      hash := f;
      table := new Entry[0];
      cap, len, tombstones, contents := 0, 0, 0, map[];
    }

    /** The slot that holds `key`, if any, as `get` and `remove` look for it. */
    method Find(key: nat) returns (slot: Option<nat>)
      requires Valid()
      ensures slot.None? <==> key !in contents
      ensures slot.Some? ==> Holds(table[..], slot.value, key)
    {
      if cap == 0 {
        return None;
      }
      var idx := Home(hash, key, cap);
      for d := 0 to cap
        invariant idx == if d < cap then Wrap(Home(hash, key, cap), d, cap) else Home(hash, key, cap)
        invariant Passed(table[..], hash, key, d)
      {
        var entry := table[idx];
        if entry.state == Empty {
          ProbeComplete(table[..], hash, contents, key, d);
          return None;
        }
        if entry.state == Occupied && entry.key == key {
          return Some(idx);
        }
        idx := Next(idx, cap);
      }
      ProbeComplete(table[..], hash, contents, key, cap);
      slot := None;
    }

    method Get(key: nat) returns (r: Option<Meta>)
      requires Valid()
      ensures r == if key in contents then Some(contents[key]) else None
    {
      var slot := Find(key);
      if slot.None? {
        return None;
      }
      r := Some(table[slot.value].meta);
    }

    method Remove(key: nat) returns (r: Option<Meta>)
      requires Valid()
      modifies this`len, this`tombstones, this`contents, table
      ensures Valid()
      ensures r == if key in old(contents) then Some(old(contents)[key]) else None
      ensures contents == old(contents) - {key}
      ensures len == old(len) - (if r.Some? then 1 else 0) && tombstones == old(tombstones) + (if r.Some? then 1 else 0)
    {
      var slot := Find(key);
      if slot.None? {
        return None;
      }
      var i := slot.value;
      RemoveStores(table[..], hash, contents, i);
      CountUpdate(table[..], i, table[i].(state := Tombstone), Occupied);
      CountUpdate(table[..], i, table[i].(state := Tombstone), Tombstone);
      r := Some(table[i].meta);
      table[i] := table[i].(state := Tombstone);
      assert table[..] == old(table[..])[i := old(table[i]).(state := Tombstone)];
      contents := contents - {key};
      len, tombstones := len - 1, tombstones + 1;
    }

    /** Where `insert` will write `key`: the slot that holds it, else the first tombstone on its probe
        path, else the empty slot that ends the path. A slot is always found. */
    method Probe(key: nat) returns (slot: nat, found: bool)
      requires Valid() && Roomy()
      ensures slot < cap && (found <==> key in contents)
      ensures if found then Holds(table[..], slot, key) else FirstOpen(table[..], hash, key, slot)
    {
      var idx := Home(hash, key, cap);
      var firstTomb := -1;
      ghost var h := idx;
      for d := 0 to cap
        invariant idx == if d < cap then Wrap(h, d, cap) else h
        invariant Passed(table[..], hash, key, d)
        invariant firstTomb < 0 ==> forall e: nat :: e < d ==> table[Wrap(h, e, cap)].state == Occupied
        invariant 0 <= firstTomb ==> firstTomb < cap && FirstOpen(table[..], hash, key, firstTomb)
      {
        var entry := table[idx];
        if entry.state == Empty {
          ProbeComplete(table[..], hash, contents, key, d);
          return if 0 <= firstTomb then firstTomb else idx, false;
        }
        if entry.state == Tombstone && firstTomb < 0 {
          firstTomb := idx;
        } else if entry.state == Occupied && entry.key == key {
          return idx, true;
        }
        idx := Next(idx, cap);
      }
      ProbeComplete(table[..], hash, contents, key, cap);
      NotAllOccupied(h, firstTomb);
      return firstTomb, false;
    }

    /** A round of probing that met neither an empty slot nor a tombstone would mean a full table. */
    lemma NotAllOccupied(h: nat, firstTomb: int)
      requires Valid() && Roomy() && h < cap
      requires firstTomb < 0 ==> forall e: nat :: e < cap ==> table[Wrap(h, e, cap)].state == Occupied
      ensures 0 <= firstTomb
    {
      CountBounds(table[..], Occupied);
      if firstTomb < 0 {
        forall i | 0 <= i < cap
          ensures table[..][i].state == Occupied
        {
          assert table[Wrap(h, Dist(h, i, cap), cap)].state == Occupied;
        }
      }
    }

    /** Write `key` into a slot found by `Probe`. */
    method Write(slot: nat, found: bool, key: nat, meta: Meta)
      requires Valid() && slot < cap && (found <==> key in contents)
      requires (len + 1) * LOAD_DEN <= cap * LOAD_NUM
      requires if found then Holds(table[..], slot, key)
               else table[slot].state != Occupied && PathClear(table[..], hash, key, slot)
      modifies this`len, this`tombstones, this`contents, table
      ensures Valid() && contents == old(contents)[key := meta]
      ensures len == old(len) + (if found then 0 else 1) && old(tombstones) - 1 <= tombstones <= old(tombstones)
    {
      var entry := if found then table[slot].(meta := meta) else Entry(key, meta, Occupied);
      if found {
        UpdateStores(table[..], hash, contents, slot, meta);
      } else {
        PlaceStores(table[..], hash, contents, slot, key, meta);
      }
      CountUpdate(table[..], slot, entry, Occupied);
      CountUpdate(table[..], slot, entry, Tombstone);
      if !found {
        len := len + 1;
        if table[slot].state == Tombstone {
          tombstones := tombstones - 1;
        }
      }
      table[slot] := entry;
      assert table[..] == old(table[..])[slot := entry];
      contents := contents[key := meta];
    }

    /** The first table: every slot empty. */
    method AllocTable()
      requires Valid() && cap == 0
      modifies this
      ensures Valid() && contents == old(contents) && fresh(table)
      ensures cap == INITIAL_CAP && len == 0 && tombstones == 0
    {
      table := new Entry[INITIAL_CAP](_ => ZEROED);
      cap, len, tombstones := INITIAL_CAP, 0, 0;
      CountBounds(table[..], Occupied);
      CountBounds(table[..], Tombstone);
    }

    /** Twice the slots, the same map, which is not in the frame, and no tombstones. */
    method Grow()
      requires Valid() && 0 < cap
      modifies this`table, this`cap, this`tombstones
      ensures Valid() && fresh(table) && cap == 2 * old(cap) && tombstones == 0
    {
      var newCap := Max(cap * 2, INITIAL_CAP);
      Doubles(cap);
      CountBounds(table[..], Occupied);
      var newTable := Rehash(table, hash, contents, newCap);
      Install(newTable, newCap);
    }

    method Install(newTable: array<Entry>, newCap: nat)
      requires newTable.Length == newCap && INITIAL_CAP <= newCap && Doubled(newCap)
      requires Stores(newTable[..], hash, contents) && len == Count(newTable[..], Occupied)
      requires Count(newTable[..], Tombstone) == 0 && len * LOAD_DEN <= newCap * LOAD_NUM
      modifies this`table, this`cap, this`tombstones
      ensures Valid() && table == newTable && cap == newCap && tombstones == 0
    {
      table, cap, tombstones := newTable, newCap, 0;
    }

    /** One more entry is within the load limit, and at most half of the slots are tombstones. */
    ghost predicate Spacious()
      reads this
    {
      (len + 1) * LOAD_DEN <= cap * LOAD_NUM && tombstones * 2 <= cap
    }

    /** The slots once an insertion has begun: 16384 at first, twice as many if there are too many entries or
        tombstones, and otherwise as many as before. */
    ghost function NextCap(): nat
      reads this
    {
      if cap == 0 then INITIAL_CAP else if Spacious() then cap else 2 * cap
    }

    /** Rebuild the table when it is getting full, and only then. */
    method EnsureCapacity()
      requires Valid()
      modifies this
      ensures Valid() && Roomy() && Spacious() && contents == old(contents) && len == old(len)
      ensures cap == old(NextCap())
      ensures if cap == old(cap) then table == old(table) && tombstones == old(tombstones)
              else fresh(table) && tombstones == 0
    {
      if cap == 0 {
        AllocTable();
        return;
      }
      if (len + 1) * LOAD_DEN <= cap * LOAD_NUM && tombstones * 2 <= cap {
        return;
      }
      Grow();
    }

    method Insert(key: nat, meta: Meta)
      requires Valid()
      modifies this, table
      ensures Valid() && Roomy() && contents == old(contents)[key := meta]
      ensures cap == old(NextCap()) && tombstones * 2 <= cap
      ensures len == old(len) + if key in old(contents) then 0 else 1
      ensures if cap == old(cap) then table == old(table) else fresh(table)
    {
      EnsureCapacity();
      var slot, found := Probe(key);
      Write(slot, found, key, meta);
    }
  }
}
