/** The open-addressing index from series ids to record positions. Key 0 marks a free slot, so
    the entry for id 0 is kept beside the table. */
module SeriesIndex {
  import opened Bits

  // ---------------------------------------------------------------- slots

  function Home(key: nat, size: nat): (r: nat)
    requires size > 0
    ensures r < size
  {
    key % size
  }

  /** The slot d places after home, wrapping around. */
  function Slot(home: nat, d: nat, size: nat): (r: nat)
    requires home < size && d <= size
    ensures r < size
  {
    if home + d < size then home + d else home + d - size
  }

  function Distance(home: nat, slot: nat, size: nat): (d: nat)
    requires home < size && slot < size
    ensures d < size && Slot(home, d, size) == slot
  {
    if slot >= home then slot - home else slot + size - home
  }

  function Used(keys: seq<Uint64>): nat {
    if keys == [] then 0 else Used(keys[..|keys| - 1]) + if keys[|keys| - 1] == 0 then 0 else 1
  }

  /** A table that is not full has a free slot: every probe ends. */
  lemma {:induction false} FreeSlot(keys: seq<Uint64>) returns (slot: nat)
    requires Used(keys) < |keys|
    ensures slot < |keys| && keys[slot] == 0
  {
    if keys[|keys| - 1] == 0 {
      slot := |keys| - 1;
    } else {
      slot := FreeSlot(keys[..|keys| - 1]);
    }
  }

  lemma {:induction false} UsedAfterInsert(keys: seq<Uint64>, slot: nat, key: Uint64)
    requires slot < |keys| && keys[slot] == 0 && key != 0
    ensures Used(keys[slot := key]) == Used(keys) + 1
  {
    var n := |keys| - 1;
    if slot == n {
      assert keys[slot := key][..n] == keys[..n];
    } else {
      assert keys[slot := key][..n] == keys[..n][slot := key];
      UsedAfterInsert(keys[..n], slot, key);
    }
  }

  lemma {:induction false} NothingUsed(keys: seq<Uint64>)
    requires forall i :: 0 <= i < |keys| ==> keys[i] == 0
    ensures Used(keys) == 0
  {
    if keys != [] {
      NothingUsed(keys[..|keys| - 1]);
    }
  }

  // ---------------------------------------------------------------- tables

  /** No free slot between a stored key and its home. */
  ghost predicate Unbroken(keys: seq<Uint64>, slot: nat)
    requires slot < |keys|
  {
    var home := Home(keys[slot], |keys|);
    forall d: nat :: d < Distance(home, slot, |keys|) ==> keys[Slot(home, d, |keys|)] != 0
  }

  /** The slots hold exactly the entries other than that of key 0, each once. */
  ghost predicate Table(keys: seq<Uint64>, values: seq<int>, contents: map<Uint64, int>) {
    |keys| == |values| > 0
    && (forall i: nat :: i < |keys| && keys[i] != 0 ==>
          keys[i] in contents && contents[keys[i]] == values[i] && Unbroken(keys, i))
    && (forall i: nat, j: nat :: i < j < |keys| && keys[i] != 0 ==> keys[i] != keys[j])
    && (forall k :: k in contents && k != 0 ==> k in keys)
  }

  /** A probe that meets a free slot has shown the key is absent. */
  lemma ProbeMeetsFreeSlot(keys: seq<Uint64>, values: seq<int>, contents: map<Uint64, int>, key: Uint64, d: nat)
    requires Table(keys, values, contents) && key != 0 && d < |keys|
    requires var home := Home(key, |keys|);
      keys[Slot(home, d, |keys|)] == 0
      && forall e: nat :: e < d ==> keys[Slot(home, e, |keys|)] != key
    ensures key !in contents
  {
    hide Home;
    var n := |keys|;
    forall i: nat | i < n && keys[i] != 0 ensures keys[i] != key {
      assert Unbroken(keys, i);
      var e := Distance(Home(keys[i], n), i, n);
      assert keys[Slot(Home(keys[i], n), e, n)] == keys[i];
    }
  }

  /** Filling the free slot a probe ended in adds the entry and keeps every chain whole. */
  lemma InsertKeepsTable(keys: seq<Uint64>, values: seq<int>, contents: map<Uint64, int>, key: Uint64, value: int,
                         d: nat)
    requires Table(keys, values, contents) && key != 0 && d < |keys|
    requires var home := Home(key, |keys|);
      keys[Slot(home, d, |keys|)] == 0
      && forall e: nat :: e < d ==> keys[Slot(home, e, |keys|)] != 0 && keys[Slot(home, e, |keys|)] != key
    ensures var slot := Slot(Home(key, |keys|), d, |keys|);
      key !in contents && Table(keys[slot := key], values[slot := value], contents[key := value])
  {
    hide Home;
    ProbeMeetsFreeSlot(keys, values, contents, key, d);
    var slot := Slot(Home(key, |keys|), d, |keys|);
    var after := keys[slot := key];
    forall i: nat | i < |after| && after[i] != 0 ensures Unbroken(after, i) {
      if i == slot {
        assert Distance(Home(key, |keys|), slot, |keys|) <= d;
      } else {
        assert Unbroken(keys, i);
      }
    }
    forall k | k in contents[key := value] && k != 0 ensures k in after {
      if k == key {
        assert after[slot] == key;
      } else {
        var i: nat :| i < |keys| && keys[i] == k;
        assert after[i] == k;
      }
    }
  }

  lemma UpdateKeepsTable(keys: seq<Uint64>, values: seq<int>, contents: map<Uint64, int>, slot: nat, value: int)
    requires Table(keys, values, contents) && slot < |keys| && keys[slot] != 0
    ensures keys[slot] in contents && Table(keys, values[slot := value], contents[keys[slot] := value])
  {
  }

  /** The entry of key 0 does not touch the slots. */
  lemma ZeroKeepsTable(keys: seq<Uint64>, values: seq<int>, contents: map<Uint64, int>, value: int)
    requires Table(keys, values, contents)
    ensures Table(keys, values, contents[0 := value])
  {
  }

  // ---------------------------------------------------------------- rebuilding

  /** The entries of the first i slots, on top of the entry of key 0. */
  function Loaded(keys: seq<Uint64>, values: seq<int>, zero: map<Uint64, int>, i: nat): map<Uint64, int>
    requires |keys| == |values| && i <= |keys|
  {
    if i == 0 then zero
    else
      var rest := Loaded(keys, values, zero, i - 1);
      if keys[i - 1] == 0 then rest else rest[keys[i - 1] := values[i - 1]]
  }

  lemma UsedEntry(keys: seq<Uint64>, values: seq<int>, contents: map<Uint64, int>, slot: nat)
    requires Table(keys, values, contents) && slot < |keys|
    ensures keys[slot] != 0 ==> keys[slot] in contents && contents[keys[slot]] == values[slot]
  {
  }

  lemma {:induction false} LoadedEntries(keys: seq<Uint64>, values: seq<int>, contents: map<Uint64, int>,
                                         zero: map<Uint64, int>, i: nat)
    requires Table(keys, values, contents) && i <= |keys|
    requires zero.Keys <= {0} && forall k :: k in zero ==> k in contents && zero[k] == contents[k]
    ensures var loaded := Loaded(keys, values, zero, i);
      (forall k :: k in loaded ==> k in contents && loaded[k] == contents[k])
      && (forall k :: k in loaded && k != 0 ==> k in keys[..i])
      && (forall j: nat :: j < i && keys[j] != 0 ==> keys[j] in loaded)
      && (0 in loaded <==> 0 in zero)
  {
    if i > 0 {
      UsedEntry(keys, values, contents, i - 1);
      hide Table;
      LoadedEntries(keys, values, contents, zero, i - 1);
      assert keys[..i] == keys[..i - 1] + [keys[i - 1]];
    }
  }

  lemma LoadedIsContents(keys: seq<Uint64>, values: seq<int>, contents: map<Uint64, int>, zero: map<Uint64, int>)
    requires Table(keys, values, contents)
    requires zero == (if 0 in contents then map[0 := contents[0]] else map[])
    ensures Loaded(keys, values, zero, |keys|) == contents
  {
    LoadedEntries(keys, values, contents, zero, |keys|);
    var loaded := Loaded(keys, values, zero, |keys|);
    forall k | k in contents ensures k in loaded {
      if k != 0 {
        var j: nat :| j < |keys| && keys[j] == k;
      }
    }
  }

  // ---------------------------------------------------------------- the index

  class Index {
    var keys: array<Uint64>
    var values: array<int>
    var count: nat
    var zeroValue: int
    var zeroUsed: bool
    var mask: nat

    ghost var contents: map<Uint64, int>
    ghost var bits: nat

    /** The slots refine the map; at most seven tenths of them are in use. */
    ghost predicate Valid()
      reads this, keys, values
    {
      keys as object != values as object && keys.Length == values.Length
      && keys.Length == Pow2(bits) && mask == keys.Length - 1 && keys.Length >= 16
      && Table(keys[..], values[..], contents)
      && (zeroUsed <==> 0 in contents) && zeroValue == (if zeroUsed then contents[0] else 0)
      && Used(keys[..]) + (if zeroUsed then 1 else 0) == count == |contents|
      && Used(keys[..]) * 10 < keys.Length * 7
    }

    constructor (capHint: nat)
      ensures Valid() && contents == map[] && fresh(keys) && fresh(values)
      ensures keys.Length >= capHint * 2
    {
      var size, b := 16, 4;
      assert Pow2(4) == 16 by {
        assert Pow2(2) == 4;
      }
      while size < capHint * 2
        invariant size == Pow2(b) && size >= 16
      {
        size, b := size * 2, b + 1;
      }
      keys := new Uint64[size](_ => 0);
      values := new int[size](_ => 0);
      count, zeroValue, zeroUsed, mask := 0, 0, false, size - 1;
      contents, bits := map[], b;
      new;
      NothingUsed(keys[..]);
    }

    /** The probe loop: from the home slot to the key or to the first free slot. */
    method Probe(key: Uint64) returns (slot: nat, ghost d: nat)
      requires Valid() && key != 0
      ensures slot < keys.Length && d < keys.Length && slot == Slot(Home(key, keys.Length), d, keys.Length)
      ensures keys[slot] == key || keys[slot] == 0
      ensures forall e: nat :: e < d ==> var k := keys[Slot(Home(key, keys.Length), e, keys.Length)]; k != 0 && k != key
    {
      hide Home, Table;
      ghost var size, home := keys.Length, Home(key, keys.Length);
      ghost var free := FreeSlot(keys[..]);
      assert keys[..][free] == keys[free];
      MaskIsRemainder(key, bits);
      slot, d := And(key, mask), 0;
      assert slot == home by { HomeIsMask(key, size); }
      while true
        invariant d < size && slot == Slot(home, d, size)
        invariant forall e: nat :: e < d ==> var k := keys[Slot(home, e, size)]; k != 0 && k != key
        invariant d <= Distance(home, free, size)
        decreases Distance(home, free, size) - d
      {
        var stored := keys[slot];
        if stored == 0 || stored == key {
          return;
        }
        MaskIsRemainder(slot + 1, bits);
        assert d < Distance(home, free, size);
        NextSlot(home, d, size);
        slot, d := And(slot + 1, mask), d + 1;
      }
    }

    method Get(key: Uint64) returns (value: int, ok: bool)
      requires Valid()
      ensures ok <==> key in contents
      ensures value == if ok then contents[key] else 0
    {
      if key == 0 {
        return zeroValue, zeroUsed;
      }
      var slot, d := Probe(key);
      if keys[slot] == 0 {
        ProbeMeetsFreeSlot(keys[..], values[..], contents, key, d);
        return 0, false;
      }
      assert keys[..][slot] == key;
      return values[slot], true;
    }

    /** Whether the next insertion must make room first. */
    predicate MustGrow()
      reads this, keys
    {
      (count + 1) * 10 >= keys.Length * 7
    }

    method Set(key: Uint64, value: int)
      requires Valid()
      modifies this, keys, values
      ensures Valid() && contents == old(contents)[key := value]
      ensures (keys == old(keys) && values == old(values)) || (fresh(keys) && fresh(values))
      ensures !old(MustGrow()) ==> keys == old(keys) && values == old(values)
      decreases if MustGrow() then 2 else 0
    {
      hide Home, Table;
      if key == 0 {
        if !zeroUsed {
          count := count + 1;
        }
        zeroUsed := true;
        zeroValue := value;
        ZeroKeepsTable(keys[..], values[..], contents, value);
        contents := contents[0 := value];
        return;
      }
      if (count + 1) * 10 >= keys.Length * 7 {
        Grow();
      }
      Store(key, value);
    }

    /** The probe of set, and the write that ends it. */
    method Store(key: Uint64, value: int)
      requires Valid() && key != 0 && !MustGrow()
      modifies this`count, this`contents, keys, values
      ensures Valid() && contents == old(contents)[key := value]
    {
      hide Home, Table;
      var slot, d := Probe(key);
      assert keys[..][slot] == keys[slot];
      if keys[slot] == 0 {
        InsertKeepsTable(keys[..], values[..], contents, key, value, d);
        UsedAfterInsert(keys[..], slot, key);
        keys[slot] := key;
        values[slot] := value;
        count := count + 1;
        assert keys[..] == old(keys[..])[slot := key] && values[..] == old(values[..])[slot := value];
      } else {
        UpdateKeepsTable(keys[..], values[..], contents, slot, value);
        values[slot] := value;
        assert keys[..] == old(keys[..]) && values[..] == old(values[..])[slot := value];
      }
      contents := contents[key := value];
    }

    /** Doubles the table and enters every key again. */
    method Grow()
      requires Valid()
      modifies this
      ensures Valid() && contents == old(contents) && fresh(keys) && fresh(values)
      ensures !MustGrow()
      decreases 1
    {
      hide Home, Table;
      var oldKeys, oldValues := keys, values;
      ghost var k, v, before := keys[..], values[..], contents;
      ghost var zero := if zeroUsed then map[0 := zeroValue] else map[];
      Reset();
      for i := 0 to oldKeys.Length
        invariant Valid() && fresh(keys) && fresh(values) && oldKeys[..] == k && oldValues[..] == v
        invariant |k| == |v| && keys.Length == 2 * |k| && contents == Loaded(k, v, zero, i)
      {
        var key := oldKeys[i];
        assert k[i] == key && v[i] == oldValues[i];
        LoadedSize(k, v, zero, i);
        if key != 0 {
          Set(key, oldValues[i]);
        }
      }
      LoadedSize(k, v, zero, |k|);
      LoadedIsContents(k, v, before, zero);
    }

    /** The empty table of twice the size that grow starts from. */
    method Reset()
      requires keys.Length == Pow2(bits) && keys.Length >= 16 && (!zeroUsed ==> zeroValue == 0)
      modifies this
      ensures Valid() && fresh(keys) && fresh(values) && keys.Length == 2 * old(keys.Length)
      ensures zeroUsed == old(zeroUsed) && zeroValue == old(zeroValue)
      ensures contents == (if zeroUsed then map[0 := zeroValue] else map[])
      ensures count == if zeroUsed then 1 else 0
    {
      hide Table;
      var size := keys.Length * 2;
      var k, v := new Uint64[size](_ => 0), new int[size](_ => 0);
      ghost var zero := if zeroUsed then map[0 := zeroValue] else map[];
      NothingUsed(k[..]);
      EmptyTable(k[..], v[..], zero);
      keys, values, count, mask := k, v, if zeroUsed then 1 else 0, size - 1;
      contents, bits := zero, bits + 1;
    }
  }

  lemma EmptyTable(keys: seq<Uint64>, values: seq<int>, contents: map<Uint64, int>)
    requires |keys| == |values| > 0 && contents.Keys <= {0}
    requires forall i :: 0 <= i < |keys| ==> keys[i] == 0
    ensures Table(keys, values, contents)
  {
  }

  lemma {:induction false} UsedGrows(keys: seq<Uint64>, n: nat)
    requires n <= |keys|
    ensures Used(keys[..n]) <= Used(keys)
    decreases |keys|
  {
    if n < |keys| {
      assert keys[..|keys| - 1][..n] == keys[..n];
      UsedGrows(keys[..|keys| - 1], n);
    } else {
      assert keys[..n] == keys;
    }
  }

  /** Reloading never meets more entries than the old table had. */
  lemma {:induction false} LoadedSize(keys: seq<Uint64>, values: seq<int>, zero: map<Uint64, int>, i: nat)
    requires |keys| == |values| && i <= |keys|
    ensures |Loaded(keys, values, zero, i)| <= Used(keys) + |zero|
    ensures i < |keys| && keys[i] != 0 ==> |Loaded(keys, values, zero, i)| + 1 <= Used(keys) + |zero|
  {
    LoadedSizeUpTo(keys, values, zero, i);
    UsedGrows(keys, i);
    if i < |keys| {
      assert keys[..i + 1][..i] == keys[..i];
      UsedGrows(keys, i + 1);
    }
  }

  lemma {:induction false} LoadedSizeUpTo(keys: seq<Uint64>, values: seq<int>, zero: map<Uint64, int>, i: nat)
    requires |keys| == |values| && i <= |keys|
    ensures |Loaded(keys, values, zero, i)| <= Used(keys[..i]) + |zero|
  {
    if i > 0 {
      LoadedSizeUpTo(keys, values, zero, i - 1);
      assert keys[..i][..i - 1] == keys[..i - 1];
    }
  }

  lemma HomeIsMask(key: nat, size: nat)
    requires size > 0
    ensures Home(key, size) == key % size
  {
  }

  lemma NextSlot(home: nat, d: nat, size: nat)
    requires home < size && d + 1 < size
    ensures (Slot(home, d, size) + 1) % size == Slot(home, d + 1, size)
  {
    var next := Slot(home, d, size) + 1;
    if next == size {
      assert size % size == 0;
    }
  }
}
