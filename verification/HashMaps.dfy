// Open addressing with linear probing.  Sizes are powers of two, so `& mask`
// is reduction modulo the size; the hash function is arbitrary, and keys are
// values up to lValEqual.
module HashMaps {
  import opened Values

  datatype Entry<V> = Entry(key: Value, val: V)

  const SIZE_LIMIT := 0x1_0000      // map->size has 16 bits

  // The probe sequence from `home`.
  function Probe(home: nat, i: nat, size: nat): nat {
    if home + i < size then home + i else home + i - size
  }

  // How far along its probe sequence a slot is.
  function Distance(home: nat, slot: nat, size: nat): (d: nat)
    requires home < size && slot < size
    ensures d < size && Probe(home, d, size) == slot
  {
    if slot >= home then slot - home else slot + size - home
  }

  function Home(hash: Value -> nat, key: Value, size: nat): (h: nat)
    requires size > 0
    ensures h < size
  {
    hash(key) % size
  }

  // ---- a table as a sequence of entries

  predicate Used<V>(es: seq<Entry<V>>, slot: nat)
    requires slot < |es|
  {
    !es[slot].key.Nil?
  }

  // No vacant slot between the home of a key and the key.
  ghost predicate NoGaps<V>(es: seq<Entry<V>>, hash: Value -> nat) {
    forall j, i: nat :: 0 <= j < |es| && Used(es, j) && i < Distance(Home(hash, es[j].key, |es|), j, |es|) ==>
      Probe(Home(hash, es[j].key, |es|), i, |es|) < |es| && Used(es, Probe(Home(hash, es[j].key, |es|), i, |es|))
  }

  ghost predicate UniqueKeys<V>(es: seq<Entry<V>>) {
    forall i, j :: 0 <= i < j < |es| && Used(es, i) && Used(es, j) ==> es[i].key != es[j].key
  }

  // The finite map that a table holds.
  ghost predicate Holds<V>(es: seq<Entry<V>>, m: map<Value, V>) {
    && (forall j :: 0 <= j < |es| && Used(es, j) ==> es[j].key in m && m[es[j].key] == es[j].val)
    && (forall k :: k in m ==> exists j :: 0 <= j < |es| && Used(es, j) && es[j].key == k)
  }

  function Count<V>(es: seq<Entry<V>>): (n: nat)
    ensures n <= |es|
  {
    if es == [] then 0
    else Count(es[..|es| - 1]) + if es[|es| - 1].key.Nil? then 0 else 1
  }

  ghost predicate Table<V>(es: seq<Entry<V>>, hash: Value -> nat, m: map<Value, V>) {
    NoGaps(es, hash) && UniqueKeys(es) && Holds(es, m) && Count(es) == |m|
  }

  lemma {:induction false} CountUpdate<V>(es: seq<Entry<V>>, slot: nat, e: Entry<V>)
    requires slot < |es| && !e.key.Nil?
    ensures Count(es[slot := e]) == Count(es) + if Used(es, slot) then 0 else 1
  {
    var n := |es| - 1;
    if slot < n {
      assert es[slot := e][..n] == es[..n][slot := e];
      CountUpdate(es[..n], slot, e);
    } else {
      assert es[slot := e][..n] == es[..n];
    }
  }

  lemma {:induction false} HasVacancy<V>(es: seq<Entry<V>>) returns (slot: nat)
    requires Count(es) < |es|
    ensures slot < |es| && !Used(es, slot)
  {
    if es[|es| - 1].key.Nil? {
      slot := |es| - 1;
    } else {
      slot := HasVacancy(es[..|es| - 1]);
    }
  }

  // The first `i` probes for a key met other keys.
  ghost predicate Missed<V>(es: seq<Entry<V>>, hash: Value -> nat, key: Value, i: nat)
    requires |es| > 0
  {
    forall j: nat :: j < i ==>
      var slot := Probe(Home(hash, key, |es|), j, |es|);
      slot < |es| && Used(es, slot) && es[slot].key != key
  }

  // A key in the table lies at or behind the first probe that met no other key,
  // with no vacant slot in between.
  lemma PresentIsAhead<V>(es: seq<Entry<V>>, hash: Value -> nat, m: map<Value, V>, key: Value, i: nat)
    requires |es| > 0 && Table(es, hash, m) && i <= |es| && Missed(es, hash, key, i) && key in m
    ensures i < |es| && Used(es, Probe(Home(hash, key, |es|), i, |es|))
  {
    var j :| 0 <= j < |es| && Used(es, j) && es[j].key == key;
    var d := Distance(Home(hash, key, |es|), j, |es|);
    assert Probe(Home(hash, key, |es|), d, |es|) == j;
    assert i <= d;
  }

  // A probe sequence that reaches a vacant slot, or comes full circle, has
  // seen every slot where the key could be.
  lemma AbsentWhenMissed<V>(es: seq<Entry<V>>, hash: Value -> nat, m: map<Value, V>, key: Value, i: nat)
    requires |es| > 0 && Table(es, hash, m) && i <= |es| && Missed(es, hash, key, i)
    requires i == |es| || !Used(es, Probe(Home(hash, key, |es|), i, |es|))
    ensures key !in m
  {
    hide Table, Missed;
    if key in m {
      PresentIsAhead(es, hash, m, key, i);
    }
  }

  // A table with a vacant slot is never probed full circle.
  lemma VacancyStops<V>(es: seq<Entry<V>>, hash: Value -> nat, key: Value)
    requires |es| > 0 && Count(es) < |es|
    ensures !Missed(es, hash, key, |es|)
  {
    var v := HasVacancy(es);
    var d := Distance(Home(hash, key, |es|), v, |es|);
    assert Probe(Home(hash, key, |es|), d, |es|) == v;
  }

  lemma AddKeeps<V>(es: seq<Entry<V>>, hash: Value -> nat, m: map<Value, V>, key: Value, val: V, i: nat)
    requires |es| > 0 && Table(es, hash, m) && i < |es| && Missed(es, hash, key, i) && !key.Nil?
    requires !Used(es, Probe(Home(hash, key, |es|), i, |es|))
    ensures key !in m
    ensures Table(es[Probe(Home(hash, key, |es|), i, |es|) := Entry(key, val)], hash, m[key := val])
  {
    var slot := Probe(Home(hash, key, |es|), i, |es|);
    var es' := es[slot := Entry(key, val)];
    AbsentWhenMissed(es, hash, m, key, i);
    CountUpdate(es, slot, Entry(key, val));
    AddKeepsHolds(es, m, slot, key, val);
    AddKeepsChains(es, hash, key, val, i);
  }

  lemma AddKeepsHolds<V>(es: seq<Entry<V>>, m: map<Value, V>, slot: nat, key: Value, val: V)
    requires slot < |es| && !Used(es, slot) && Holds(es, m) && UniqueKeys(es) && key !in m && !key.Nil?
    ensures Holds(es[slot := Entry(key, val)], m[key := val]) && UniqueKeys(es[slot := Entry(key, val)])
  {
    var es' := es[slot := Entry(key, val)];
    var m' := m[key := val];
    forall k | k in m' ensures exists j :: 0 <= j < |es'| && Used(es', j) && es'[j].key == k {
      if k == key {
        assert Used(es', slot) && es'[slot].key == k;
      } else {
        var j :| 0 <= j < |es| && Used(es, j) && es[j].key == k;
        assert Used(es', j) && es'[j].key == k;
      }
    }
    forall j | 0 <= j < |es'| && Used(es', j) ensures es'[j].key in m' && m'[es'[j].key] == es'[j].val {
      assert j != slot ==> Used(es, j);
    }
    forall i, j | 0 <= i < j < |es'| && Used(es', i) && Used(es', j) ensures es'[i].key != es'[j].key {
      assert i != slot ==> Used(es, i);
      assert j != slot ==> Used(es, j);
    }
  }

  lemma AddKeepsChains<V>(es: seq<Entry<V>>, hash: Value -> nat, key: Value, val: V, i: nat)
    requires |es| > 0 && NoGaps(es, hash) && i < |es| && Missed(es, hash, key, i) && !key.Nil?
    ensures NoGaps(es[Probe(Home(hash, key, |es|), i, |es|) := Entry(key, val)], hash)
  {
    var slot := Probe(Home(hash, key, |es|), i, |es|);
    var es' := es[slot := Entry(key, val)];
    forall j, n: nat | 0 <= j < |es'| && Used(es', j) && n < Distance(Home(hash, es'[j].key, |es'|), j, |es'|)
      ensures Used(es', Probe(Home(hash, es'[j].key, |es'|), n, |es'|))
    {
      var p := Probe(Home(hash, es'[j].key, |es'|), n, |es'|);
      if j == slot {
        assert Distance(Home(hash, key, |es|), slot, |es|) == i;
        assert Used(es, p);
      } else {
        assert Used(es, j) && Used(es, p);
      }
    }
  }

  lemma SameKeysSameChains<V>(es: seq<Entry<V>>, es': seq<Entry<V>>, hash: Value -> nat)
    requires |es'| == |es| && (forall j :: 0 <= j < |es| ==> es'[j].key == es[j].key)
    requires NoGaps(es, hash) && UniqueKeys(es)
    ensures NoGaps(es', hash) && UniqueKeys(es')
  {
    forall j, n: nat | 0 <= j < |es'| && Used(es', j) && n < Distance(Home(hash, es'[j].key, |es'|), j, |es'|)
      ensures Used(es', Probe(Home(hash, es'[j].key, |es'|), n, |es'|))
    {
      assert Used(es, j) && Used(es, Probe(Home(hash, es[j].key, |es|), n, |es|));
    }
    forall i, j | 0 <= i < j < |es'| && Used(es', i) && Used(es', j) ensures es'[i].key != es'[j].key {
      assert Used(es, i) && Used(es, j);
    }
  }

  lemma ReplaceKeepsHolds<V>(es: seq<Entry<V>>, m: map<Value, V>, slot: nat, val: V)
    requires slot < |es| && Used(es, slot) && Holds(es, m) && UniqueKeys(es)
    ensures es[slot].key in m
    ensures Holds(es[slot := Entry(es[slot].key, val)], m[es[slot].key := val])
  {
    var key := es[slot].key;
    var es' := es[slot := Entry(key, val)];
    var m' := m[key := val];
    forall k | k in m' ensures exists j :: 0 <= j < |es'| && Used(es', j) && es'[j].key == k {
      var j :| 0 <= j < |es| && Used(es, j) && es[j].key == k;
      assert Used(es', j) && es'[j].key == k;
    }
    forall j | 0 <= j < |es'| && Used(es', j) ensures es'[j].key in m' && m'[es'[j].key] == es'[j].val {
      assert Used(es, j);
    }
  }

  lemma ReplaceKeeps<V>(es: seq<Entry<V>>, hash: Value -> nat, m: map<Value, V>, slot: nat, val: V)
    requires slot < |es| && Table(es, hash, m) && Used(es, slot)
    ensures es[slot].key in m
    ensures Table(es[slot := Entry(es[slot].key, val)], hash, m[es[slot].key := val])
  {
    hide NoGaps, UniqueKeys, Holds;
    var key := es[slot].key;
    var es' := es[slot := Entry(key, val)];
    var m' := m[key := val];
    CountUpdate(es, slot, Entry(key, val));
    SameKeysSameChains(es, es', hash);
    ReplaceKeepsHolds(es, m, slot, val);
    assert m'.Keys == m.Keys;
    assert |m'| == |m'.Keys| && |m| == |m.Keys|;
  }

  // ---- the map in place

  datatype Outcome = Added | Updated | Exited      // Exited: exit(176), the table is full

  class HashMap<V> {
    const hash: Value -> nat
    const nothing: V                   // #nil
    var entries: array?<Entry<V>>
    var size: nat
    var length: nat
    ghost var contents: map<Value, V>

    ghost predicate Valid()
      reads this, entries
    {
      && length == |contents|
      && (entries == null ==> size == 0 && length == 0)
      && (entries != null ==> size == entries.Length && IsSize(size) && Table(entries[..], hash, contents))
      && length <= size - size / 4
    }

    constructor (hash: Value -> nat, nothing: V)
      ensures Valid() && contents == map[] && this.hash == hash && this.nothing == nothing && entries == null
    {
      this.hash, this.nothing := hash, nothing;
      entries, size, length, contents := null, 0, 0, map[];
    }

    // lMapSetSimple
    method SetSimple(key: Value, val: V) returns (r: Outcome)
      requires !key.Nil? && entries != null
      requires size == 0 || (size == entries.Length && Table(entries[..], hash, contents))
      modifies entries, this`contents
      ensures size == 0 ==> r == Exited
      ensures size > 0 ==> (r == Exited ==> Count(old(entries[..])) == size)
      ensures r == Exited ==> contents == old(contents)
      ensures r != Exited ==> Table(entries[..], hash, contents) && contents == old(contents)[key := val]
      ensures r != Exited ==> (r == Added <==> key !in old(contents))
    {
      if size == 0 {
        return Exited;
      }
      hide NoGaps, UniqueKeys, Holds, Missed;
      ghost var es := entries[..];
      var off := Home(hash, key, size);
      var i := 0;
      assert Missed(es, hash, key, 0) by { MissedNone(es, hash, key); }
      while i < size
        invariant 0 <= i <= size && entries[..] == es && contents == old(contents)
        invariant off < size && (i < size ==> off == Probe(Home(hash, key, size), i, size))
        invariant Missed(es, hash, key, i)
      {
        if entries[off].key.Nil? {
          AddKeeps(es, hash, contents, key, val, i);
          entries[off] := Entry(key, val);
          contents := contents[key := val];
          assert entries[..] == es[off := Entry(key, val)];
          return Added;
        }
        if key == entries[off].key {
          ReplaceKeeps(es, hash, contents, off, val);
          entries[off] := Entry(key, val);
          contents := contents[key := val];
          assert entries[..] == es[off := Entry(key, val)];
          return Updated;
        }
        MissedOneMore(es, hash, key, i);
        off := if off + 1 == size then 0 else off + 1;
        i := i + 1;
      }
      if Count(es) < size {
        VacancyStops(es, hash, key);
      }
      return Exited;
    }

    // lMapRefSimple and, with the value ignored, lMapHasSimple.
    method RefSimple(key: Value) returns (r: Option<V>)
      requires Valid() && !key.Nil?
      ensures r == if key in contents then Some(contents[key]) else None
    {
      if size == 0 {
        return None;
      }
      hide Table, Missed;
      ghost var es := entries[..];
      var off := Home(hash, key, size);
      var i := 0;
      assert Missed(es, hash, key, 0) by { MissedNone(es, hash, key); }
      while i < size
        invariant 0 <= i <= size
        invariant off < size && (i < size ==> off == Probe(Home(hash, key, size), i, size))
        invariant Missed(es, hash, key, i)
      {
        if entries[off].key.Nil? {
          AbsentWhenMissed(es, hash, contents, key, i);
          return None;
        }
        if key == entries[off].key {
          HeldAt(es, hash, contents, off);
          return Some(entries[off].val);
        }
        MissedOneMore(es, hash, key, i);
        off := if off + 1 == size then 0 else off + 1;
        i := i + 1;
      }
      AbsentWhenMissed(es, hash, contents, key, i);
      return None;
    }

    // lMapRef; None stands for the type error of a #nil key.
    method Ref(key: Value) returns (r: Option<V>)
      requires Valid()
      ensures r.None? <==> key.Nil?
      ensures r.Some? ==> r.value == if key in contents then contents[key] else nothing
    {
      if key.Nil? {
        return None;
      }
      var v := RefSimple(key);
      return Some(if v.Some? then v.value else nothing);
    }

    // lMapRefString: a key that is not a string stops the search, because the
    // loop goes on without moving.
    method RefString(str: string) returns (r: Option<V>)
      requires Valid()
      ensures r == if Str(str) in contents && StringsBefore(entries, hash, Str(str)) then Some(contents[Str(str)]) else None
    {
      if size == 0 {
        return None;
      }
      hide Table, Missed, StringPath, StringsBefore, IsSize;
      var key := Str(str);
      ghost var es := entries[..];
      var off := Home(hash, key, size);
      var i := 0;
      assert Missed(es, hash, key, 0) by { MissedNone(es, hash, key); }
      StringStart(es, hash, key);
      while i < size
        invariant 0 <= i <= size
        invariant off < size && (i < size ==> off == Probe(Home(hash, key, size), i, size))
        invariant Missed(es, hash, key, i)
        invariant StringPath(es, hash, key, i)
      {
        if entries[off].key.Nil? {
          AbsentWhenMissed(es, hash, contents, key, i);
          return None;
        }
        if !entries[off].key.Str? {
          StuckAt(entries, hash, key, i);
          return None;
        }
        if key == entries[off].key {
          HeldAt(es, hash, contents, off);
          FoundAt(entries, hash, key, i);
          return Some(entries[off].val);
        }
        MissedOneMore(es, hash, key, i);
        StringStep(es, hash, key, i);
        off := if off + 1 == size then 0 else off + 1;
        i := i + 1;
      }
      AbsentWhenMissed(es, hash, contents, key, i);
      return None;
    }

    // One turn of the loop of lMapResize; `es` are the old entries.
    method Reinsert(e: Entry<V>, ghost es: seq<Entry<V>>, ghost i: nat) returns (ok: bool)
      requires i < |es| && e == es[i] && UniqueKeys(es)
      requires entries != null && Count(es) < entries.Length && (size == 0 || size == entries.Length)
      requires Table(entries[..], hash, contents) && Holds(es[..i], contents) && |contents| == Count(es[..i])
      modifies entries, this`contents
      ensures ok <==> size > 0 || e.key.Nil?
      ensures ok ==> Table(entries[..], hash, contents) && Holds(es[..i + 1], contents) && |contents| == Count(es[..i + 1])
      ensures size == 0 ==> contents == old(contents)
    {
      hide NoGaps, UniqueKeys, Holds;
      CountPrefix(es, i);
      if e.key.Nil? {
        HoldsSkip(es, contents, i);
        return true;
      }
      NotYetHeld(es, contents, i);
      HoldsOneMore(es, contents, i);
      var r := SetSimple(e.key, e.val);
      return r != Exited;
    }

    // lMapResize; false stands for exit(176).  The guard against shrinking
    // never fires: the caller at least doubles the size.
    method Resize(n: nat) returns (ok: bool)
      requires Valid() && length >= size - size / 4 && n == 2 * if size > 4 then size else 4
      modifies this
      ensures ok <==> n < SIZE_LIMIT
      ensures entries != null && fresh(entries)
      ensures ok ==> size == n && entries.Length == n && IsSize(n)
      ensures ok ==> contents == old(contents) && length == old(length) && Table(entries[..], hash, contents)
    {
      hide NoGaps, UniqueKeys, Holds, Table, IsSize, Count;
      Doubled(size);
      var oldEntries, oldSize := entries, size;
      ghost var m := contents;
      entries := new Entry<V>[n](_ => Entry(Nil, nothing));
      size := n % SIZE_LIMIT;
      contents := map[];
      EmptyTable(entries[..], hash);
      if oldEntries == null {
        return true;
      }
      ghost var es := oldEntries[..];
      TableFacts(es, hash, m);
      HoldsNothing<V>();
      assert es[..0] == [];
      ok := true;
      var i := 0;
      while i < oldSize && ok
        invariant 0 <= i <= oldSize && oldEntries[..] == es && length == old(length)
        invariant entries != null && fresh(entries) && entries.Length == n && size == n % SIZE_LIMIT
        invariant ok ==> Table(entries[..], hash, contents) && Holds(es[..i], contents) && |contents| == Count(es[..i])
        invariant (!ok ==> size == 0) && (size == 0 ==> contents == map[])
      {
        ok := Reinsert(oldEntries[i], es, i);
        i := i + 1;
      }
      if ok {
        assert es[..i] == es;
        SameContents(es, contents, m);
      }
    }

    // lMapSet.  The exit is taken exactly when the table already holds
    // 24576 keys, even if the key is one of them.
    method Set(key: Value, val: V) returns (r: Stored)
      requires Valid()
      modifies this, entries
      ensures r == TypeError <==> key.Nil?
      ensures r == TypeError ==> Valid() && contents == old(contents)
      ensures r == Exit <==> !key.Nil? && old(length) >= 24576
      ensures r == Done ==> Valid() && contents == old(contents)[key := val]
      ensures r == Done ==> size == (if old(length) >= old(size) - old(size) / 4 then (if old(size) == 0 then 8 else 2 * old(size)) else old(size))
      ensures entries == old(entries) || fresh(entries)
    {
      hide Table;
      if key.Nil? {
        return TypeError;
      }
      var resizeSize := size - size / 4;
      if length >= resizeSize {
        var ok := Resize(2 * if size > 4 then size else 4);
        if !ok {
          return Exit;
        }
      }
      TableCount(entries[..], hash, contents);
      var o := SetSimple(key, val);
      if o == Added {
        length := length + 1;
      }
      return Done;
    }
  }

  datatype Stored = Done | TypeError | Exit

  // No probe before the one that finds `key` meets a key that is not a string.
  ghost predicate StringsBefore<V>(entries: array?<Entry<V>>, hash: Value -> nat, key: Value)
    reads entries
  {
    entries != null && entries.Length > 0 &&
    exists i: nat ::
      && i < entries.Length
      && Probe(Home(hash, key, entries.Length), i, entries.Length) < entries.Length
      && entries[Probe(Home(hash, key, entries.Length), i, entries.Length)].key == key
      && StringPath(entries[..], hash, key, i)
  }

  ghost predicate StringPath<V>(es: seq<Entry<V>>, hash: Value -> nat, key: Value, i: nat)
    requires |es| > 0
  {
    forall j: nat :: j < i ==>
      Probe(Home(hash, key, |es|), j, |es|) < |es| && es[Probe(Home(hash, key, |es|), j, |es|)].key.Str?
  }

  lemma MissedNone<V>(es: seq<Entry<V>>, hash: Value -> nat, key: Value)
    requires |es| > 0
    ensures Missed(es, hash, key, 0)
  {
  }

  lemma MissedOneMore<V>(es: seq<Entry<V>>, hash: Value -> nat, key: Value, i: nat)
    requires |es| > 0 && Missed(es, hash, key, i)
    requires i < |es| && Used(es, Probe(Home(hash, key, |es|), i, |es|))
    requires es[Probe(Home(hash, key, |es|), i, |es|)].key != key
    ensures Missed(es, hash, key, i + 1)
  {
  }

  // 8, 16, ..., 32768
  predicate IsSize(n: nat) {
    n in {8, 16, 32, 64, 128, 256, 512, 1024, 2048, 4096, 8192, 16384, 32768}
  }

  lemma HeldAt<V>(es: seq<Entry<V>>, hash: Value -> nat, m: map<Value, V>, slot: nat)
    requires slot < |es| && Table(es, hash, m) && Used(es, slot)
    ensures es[slot].key in m && m[es[slot].key] == es[slot].val
  {
  }

  lemma StringStart<V>(es: seq<Entry<V>>, hash: Value -> nat, key: Value)
    requires |es| > 0
    ensures StringPath(es, hash, key, 0)
  {
  }

  lemma StringStep<V>(es: seq<Entry<V>>, hash: Value -> nat, key: Value, i: nat)
    requires i < |es| && StringPath(es, hash, key, i) && es[Probe(Home(hash, key, |es|), i, |es|)].key.Str?
    ensures StringPath(es, hash, key, i + 1)
  {
  }

  lemma Doubled(size: nat)
    ensures IsSize(8)
    ensures IsSize(size) ==> 8 <= size <= 32768 && (size < 32768 ==> IsSize(2 * size))
    ensures IsSize(size) ==> size < 32768 ==> 2 * size < SIZE_LIMIT
    ensures IsSize(size) ==> size % 8 == 0
  {
  }

  lemma TableFacts<V>(es: seq<Entry<V>>, hash: Value -> nat, m: map<Value, V>)
    requires Table(es, hash, m)
    ensures UniqueKeys(es) && Holds(es, m) && Count(es) == |m|
  {
  }

  lemma TableCount<V>(es: seq<Entry<V>>, hash: Value -> nat, m: map<Value, V>)
    requires Table(es, hash, m)
    ensures Count(es) == |m|
  {
  }

  lemma {:induction false} CountVacant<V>(es: seq<Entry<V>>)
    requires forall i: nat :: i < |es| ==> !Used(es, i)
    ensures Count(es) == 0
  {
    if es != [] {
      var rest := es[..|es| - 1];
      forall i: nat | i < |rest| ensures !Used(rest, i) {
        assert !Used(es, i);
      }
      CountVacant(rest);
      assert !Used(es, |es| - 1);
    }
  }

  lemma EmptyTable<V>(es: seq<Entry<V>>, hash: Value -> nat)
    requires forall i :: 0 <= i < |es| ==> es[i].key.Nil?
    ensures Table(es, hash, map[])
  {
    CountVacant(es);
  }

  lemma HoldsNothing<V>()
    ensures Holds<V>([], map[])
  {
  }

  lemma {:induction false} CountPrefix<V>(es: seq<Entry<V>>, i: nat)
    requires i <= |es|
    ensures Count(es[..i]) <= Count(es)
  {
    if i < |es| {
      assert es[..i] == es[..|es| - 1][..i];
      CountPrefix(es[..|es| - 1], i);
    } else {
      assert es[..i] == es;
    }
  }

  lemma HeldBelow<V>(es: seq<Entry<V>>, m: map<Value, V>, i: nat, key: Value) returns (j: nat)
    requires i <= |es| && Holds(es[..i], m) && key in m
    ensures j < i && Used(es, j) && es[j].key == key
  {
    var k :| 0 <= k < i && Used(es[..i], k) && es[..i][k].key == key;
    j := k;
  }

  lemma NotYetHeld<V>(es: seq<Entry<V>>, m: map<Value, V>, i: nat)
    requires i < |es| && UniqueKeys(es) && Used(es, i) && Holds(es[..i], m)
    ensures es[i].key !in m
  {
    hide UniqueKeys;
    if es[i].key in m {
      var j := HeldBelow(es, m, i, es[i].key);
      KeysDiffer(es, j, i);
    }
  }

  lemma KeysDiffer<V>(es: seq<Entry<V>>, i: nat, j: nat)
    requires UniqueKeys(es) && i < j < |es| && Used(es, i) && Used(es, j)
    ensures es[i].key != es[j].key
  {
  }

  lemma HoldsOneMore<V>(es: seq<Entry<V>>, m: map<Value, V>, i: nat)
    requires i < |es| && Used(es, i) && Holds(es[..i], m) && es[i].key !in m
    ensures Holds(es[..i + 1], m[es[i].key := es[i].val])
    ensures Count(es[..i + 1]) == Count(es[..i]) + 1
  {
    var es' := es[..i + 1];
    var m' := m[es[i].key := es[i].val];
    assert es'[..i] == es[..i];
    forall k | k in m' ensures exists j :: 0 <= j < |es'| && Used(es', j) && es'[j].key == k {
      if k == es[i].key {
        assert Used(es', i);
      } else {
        var j :| 0 <= j < i && Used(es[..i], j) && es[..i][j].key == k;
        assert Used(es', j) && es'[j].key == k;
      }
    }
    forall j | 0 <= j < |es'| && Used(es', j) ensures es'[j].key in m' && m'[es'[j].key] == es'[j].val {
      assert j < i ==> Used(es[..i], j);
    }
  }

  lemma HoldsSkip<V>(es: seq<Entry<V>>, m: map<Value, V>, i: nat)
    requires i < |es| && !Used(es, i) && Holds(es[..i], m)
    ensures Holds(es[..i + 1], m) && Count(es[..i + 1]) == Count(es[..i])
  {
    var es' := es[..i + 1];
    assert es'[..i] == es[..i];
    forall k | k in m ensures exists j :: 0 <= j < |es'| && Used(es', j) && es'[j].key == k {
      var j :| 0 <= j < i && Used(es[..i], j) && es[..i][j].key == k;
      assert Used(es', j) && es'[j].key == k;
    }
    forall j | 0 <= j < |es'| && Used(es', j) ensures es'[j].key in m && m[es'[j].key] == es'[j].val {
      assert j < i && Used(es[..i], j);
    }
  }

  lemma SameContents<V>(es: seq<Entry<V>>, a: map<Value, V>, b: map<Value, V>)
    requires Holds(es, a) && Holds(es, b)
    ensures a == b
  {
  }

  lemma FoundAt<V>(entries: array<Entry<V>>, hash: Value -> nat, key: Value, i: nat)
    requires i < entries.Length && StringPath(entries[..], hash, key, i)
    requires entries[Probe(Home(hash, key, entries.Length), i, entries.Length)].key == key
    ensures StringsBefore(entries, hash, key)
  {
  }

  // Up to the key, every probe meets a string.
  lemma PathString<V>(entries: array<Entry<V>>, hash: Value -> nat, key: Value, i: nat)
    requires i < entries.Length && key.Str? && Missed(entries[..], hash, key, i) && StringsBefore(entries, hash, key)
    ensures entries[Probe(Home(hash, key, entries.Length), i, entries.Length)].key.Str?
  {
    var n := entries.Length;
    var j: nat :| j < n && Probe(Home(hash, key, n), j, n) < n &&
                  entries[Probe(Home(hash, key, n), j, n)].key == key && StringPath(entries[..], hash, key, j);
    assert i <= j;
    if i < j {
      assert entries[..][Probe(Home(hash, key, n), i, n)].key.Str?;
    }
  }

  lemma StuckAt<V>(entries: array<Entry<V>>, hash: Value -> nat, key: Value, i: nat)
    requires i < entries.Length && key.Str? && Missed(entries[..], hash, key, i)
    requires !entries[Probe(Home(hash, key, entries.Length), i, entries.Length)].key.Str?
    ensures !StringsBefore(entries, hash, key)
  {
    hide StringsBefore, Missed;
    if StringsBefore(entries, hash, key) {
      PathString(entries, hash, key, i);
    }
  }

  // ---- interning

  const SYM_MAX := 0x4000

  // `names[i]` is the string that symbol i was made of, and the table maps
  // exactly these strings to their symbols.
  ghost predicate Interned(contents: map<Value, nat>, names: seq<string>) {
    && |contents| == |names|
    && (forall k :: k in contents ==> k.Str? && contents[k] < |names| && names[contents[k]] == k.chars)
    && (forall i :: 0 <= i < |names| ==> Str(names[i]) in contents && contents[Str(names[i])] == i)
  }

  lemma InternOne(contents: map<Value, nat>, names: seq<string>, str: string)
    requires Interned(contents, names)
    ensures Str(str) in contents <==> str in names
    ensures Str(str) in contents ==> contents[Str(str)] < |names| && names[contents[Str(str)]] == str
    ensures Str(str) !in contents ==> Interned(contents[Str(str) := |names|], names + [str])
  {
  }

  // Distinct symbols stand for distinct strings.
  lemma NamesDiffer(contents: map<Value, nat>, names: seq<string>, a: nat, b: nat)
    requires Interned(contents, names) && a < |names| && b < |names|
    ensures a == b <==> names[a] == names[b]
  {
  }

  // lSymS over the symbol table.
  class Symbols {
    const table: HashMap<nat>
    var names: seq<string>

    ghost predicate Valid()
      reads this, table, table.entries
    {
      table.Valid() && |names| <= SYM_MAX && Interned(table.contents, names)
    }

    constructor (hash: Value -> nat)
      ensures Valid() && names == [] && fresh(table) && table.entries == null
    {
      table := new HashMap<nat>(hash, 0);
      names := [];
    }

    // None stands for exit(112), when all symbols are taken; the table itself
    // never fills up.
    method Intern(str: string) returns (r: Option<nat>)
      requires Valid()
      modifies this, table, table.entries
      ensures Valid() && (table.entries == old(table.entries) || fresh(table.entries))
      ensures r.None? <==> str !in old(names) && |old(names)| >= SYM_MAX
      ensures names == if str in old(names) || r.None? then old(names) else old(names) + [str]
      ensures r.Some? ==> r.value < |names| && names[r.value] == str
    {
      hide Interned, IsSize, Table, StringsBefore;
      InternOne(table.contents, names, str);
      AllStrings(table.contents, names);
      OnlyStrings(table);
      var found := table.RefString(str);
      if found.Some? {
        return found;
      }
      if |names| >= SYM_MAX {
        return None;
      }
      var ret := |names|;
      assert table.length == |names| by { SameSize(table.contents, names); }
      var stored := table.Set(Str(str), ret);
      names := names + [str];
      return Some(ret);
    }

    // Two calls return the same symbol exactly when the strings are equal.
    method InternBoth(s: string, t: string) returns (a: Option<nat>, b: Option<nat>)
      requires Valid()
      modifies this, table, table.entries
      ensures Valid()
      ensures a.Some? && b.Some? ==> (a == b <==> s == t)
    {
      hide Interned, HashMap.Valid;
      a := Intern(s);
      b := Intern(t);
      if a.Some? && b.Some? {
        NamesDiffer(table.contents, names, a.value, b.value);
      }
    }
  }

  lemma AllStrings(contents: map<Value, nat>, names: seq<string>)
    requires Interned(contents, names)
    ensures forall k :: k in contents ==> k.Str?
  {
  }

  lemma SameSize(contents: map<Value, nat>, names: seq<string>)
    requires Interned(contents, names)
    ensures |contents| == |names|
  {
  }

  // In a table of strings the string lookup finds every key.
  lemma OnlyStrings<V>(t: HashMap<V>)
    requires t.Valid() && forall k :: k in t.contents ==> k.Str?
    ensures forall k :: k in t.contents ==> StringsBefore(t.entries, t.hash, k)
  {
    forall k | k in t.contents ensures StringsBefore(t.entries, t.hash, k) {
      var es := t.entries[..];
      var j :| 0 <= j < |es| && Used(es, j) && es[j].key == k;
      var d := Distance(Home(t.hash, k, |es|), j, |es|);
      forall i: nat | i < d
        ensures Probe(Home(t.hash, k, |es|), i, |es|) < |es| && es[Probe(Home(t.hash, k, |es|), i, |es|)].key.Str?
      {
        assert Used(es, Probe(Home(t.hash, k, |es|), i, |es|));
      }
      FoundAt(t.entries, t.hash, k, d);
    }
  }
}
