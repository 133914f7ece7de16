/** The `mmap`/`munmap` shim of the LVGL camera display: a fixed table of 32
    mapping records. `mmap` takes the first record whose address is NULL,
    allocates the buffer itself and records it; `munmap` looks the address
    up, frees it and clears the record. Pointers are modelled as naturals,
    0 being NULL; the allocator is a parameter (its result, 0 on failure). */
module Mman {
  import opened Common

  const MAX_MMAP_ENTRIES: nat := 32
  const NULL: nat := 0
  /** `MAP_FAILED`, `(void *) -1` on the 32-bit target. */
  const MAP_FAILED: nat := 0xFFFF_FFFF

  datatype Errno = ENOMEM | EINVAL

  /** One `struct mmap_entry`. */
  datatype MmapEntry = MmapEntry(addr: nat, length: nat, fd: int, offset: int)

  /** What `memset(…, 0, …)` leaves in a record. */
  const ZERO_ENTRY: MmapEntry := MmapEntry(NULL, 0, 0, 0)
  /** What `munmap` leaves in the record it clears. */
  const CLEARED_ENTRY: MmapEntry := MmapEntry(NULL, 0, -1, 0)

  // ---- the table as a value ----

  /** The first record at or after `from` whose address is `addr`. */
  function FindFrom(t: seq<MmapEntry>, addr: nat, from: nat): (r: Option<nat>)
    requires from <= |t|
    ensures r.None? ==> forall k :: from <= k < |t| ==> t[k].addr != addr
    ensures r.Some? ==> from <= r.value < |t| && t[r.value].addr == addr
    ensures r.Some? ==> forall k :: from <= k < r.value ==> t[k].addr != addr
    decreases |t| - from
  {
    if from == |t| then None
    else if t[from].addr == addr then Some(from)
    else FindFrom(t, addr, from + 1)
  }

  /** The number of free records (address NULL). */
  function FreeSlots(t: seq<MmapEntry>): (n: nat)
    ensures n <= |t|
  {
    if |t| == 0 then 0
    else (if t[0].addr == NULL then 1 else 0) + FreeSlots(t[1..])
  }

  /** The addresses currently mapped. */
  function Mapped(t: seq<MmapEntry>): set<nat>
  {
    set i | 0 <= i < |t| && t[i].addr != NULL :: t[i].addr
  }

  /** No address is recorded twice. */
  predicate DistinctAddrs(t: seq<MmapEntry>)
  {
    forall i, j :: 0 <= i < |t| && 0 <= j < |t| && i != j && t[i].addr != NULL ==> t[i].addr != t[j].addr
  }

  datatype MmapOutcome = MmapOutcome(table: seq<MmapEntry>, ret: nat, err: Option<Errno>)

  /** The effect of `mmap(…, length, …, fd, offset)` on the table `t` when
      the allocator answers `alloc`. */
  function MmapSpec(t: seq<MmapEntry>, length: nat, fd: int, offset: int, alloc: nat): (o: MmapOutcome)
    requires alloc != MAP_FAILED
    ensures |o.table| == |t|
    ensures o.err.Some? <==> o.ret == MAP_FAILED
    ensures o.err.Some? ==> o.err == Some(ENOMEM) && o.table == t
    ensures o.err.Some? <==> FindFrom(t, NULL, 0).None? || alloc == NULL
    ensures o.err.None? ==>
      var s := FindFrom(t, NULL, 0).value;
      o.ret == alloc && t[s].addr == NULL && o.table[s] == MmapEntry(alloc, length, fd, offset) &&
      (forall k :: 0 <= k < s ==> t[k].addr != NULL) &&
      (forall k :: 0 <= k < |t| && k != s ==> o.table[k] == t[k])
  {
    match FindFrom(t, NULL, 0)
    case None => MmapOutcome(t, MAP_FAILED, Some(ENOMEM))
    case Some(s) =>
      if alloc == NULL then MmapOutcome(t, MAP_FAILED, Some(ENOMEM))
      else MmapOutcome(t[s := MmapEntry(alloc, length, fd, offset)], alloc, None)
  }

  datatype MunmapOutcome = MunmapOutcome(table: seq<MmapEntry>, rc: int, err: Option<Errno>)

  /** The effect of `munmap(addr, …)` on the table `t`. */
  function MunmapSpec(t: seq<MmapEntry>, addr: nat): (o: MunmapOutcome)
    ensures |o.table| == |t|
    ensures o.rc == 0 || o.rc == -1
    ensures o.rc == -1 <==> addr !in (set i | 0 <= i < |t| :: t[i].addr)
    ensures o.rc == -1 ==> o.table == t && o.err == Some(EINVAL)
    ensures o.rc == 0 ==>
      var s := FindFrom(t, addr, 0).value;
      t[s].addr == addr && o.table[s] == CLEARED_ENTRY && o.err.None? &&
      (forall k :: 0 <= k < |t| && k != s ==> o.table[k] == t[k])
  {
    match FindFrom(t, addr, 0)
    case None => MunmapOutcome(t, -1, Some(EINVAL))
    case Some(s) => MunmapOutcome(t[s := CLEARED_ENTRY], 0, None)
  }

  // ---- properties of the table ----

  /** Replacing one record changes the free count by what the old and new
      record contribute. */
  lemma {:induction false} FreeSlotsUpdate(t: seq<MmapEntry>, i: nat, e: MmapEntry)
    requires i < |t|
    ensures FreeSlots(t[i := e]) ==
      FreeSlots(t) - (if t[i].addr == NULL then 1 else 0) + (if e.addr == NULL then 1 else 0)
  {
    if i == 0 {
      assert t[i := e][1..] == t[1..];
    } else {
      assert t[i := e][1..] == t[1..][i - 1 := e];
      FreeSlotsUpdate(t[1..], i - 1, e);
    }
  }

  /** A table has a free record exactly when its free count is positive. */
  lemma {:induction false} FreeSlotsPositive(t: seq<MmapEntry>)
    ensures FreeSlots(t) > 0 <==> FindFrom(t, NULL, 0).Some?
  {
    if |t| > 0 {
      FreeSlotsPositive(t[1..]);
      if t[0].addr != NULL {
        FindFromShift(t, NULL, 0);
      }
    }
  }

  /** Searching a table from index `from + 1` is searching its tail from
      `from`, shifted by one. */
  lemma {:induction false} FindFromShift(t: seq<MmapEntry>, addr: nat, from: nat)
    requires 0 < |t| && from < |t|
    ensures FindFrom(t, addr, from + 1) ==
      match FindFrom(t[1..], addr, from) case None => None case Some(k) => Some(k + 1)
    decreases |t| - from
  {
    if from + 1 < |t| {
      FindFromShift(t, addr, from + 1);
    }
  }

  /** A successful `mmap` uses up exactly one free record and adds exactly
      its address to the mapped set; a failed one changes nothing. */
  lemma MmapAccounting(t: seq<MmapEntry>, length: nat, fd: int, offset: int, alloc: nat)
    requires alloc != MAP_FAILED
    ensures var o := MmapSpec(t, length, fd, offset, alloc);
      (o.err.None? ==> FreeSlots(o.table) == FreeSlots(t) - 1 && Mapped(o.table) == Mapped(t) + {alloc}) &&
      (o.err.Some? ==> FreeSlots(o.table) == FreeSlots(t) && Mapped(o.table) == Mapped(t))
  {
    var o := MmapSpec(t, length, fd, offset, alloc);
    if o.err.None? {
      var s := FindFrom(t, NULL, 0).value;
      FreeSlotsUpdate(t, s, MmapEntry(alloc, length, fd, offset));
      assert o.table == t[s := MmapEntry(alloc, length, fd, offset)];
      assert alloc == o.table[s].addr;
      forall a | a in Mapped(o.table) ensures a in Mapped(t) + {alloc} {
        var i :| 0 <= i < |o.table| && o.table[i].addr != NULL && o.table[i].addr == a;
        if i != s { assert t[i] == o.table[i]; }
      }
      forall a | a in Mapped(t) + {alloc} ensures a in Mapped(o.table) {
        if a != alloc {
          var i :| 0 <= i < |t| && t[i].addr != NULL && t[i].addr == a;
          assert i != s;
          assert o.table[i] == t[i];
        }
      }
    }
  }

  /** With every record taken, `mmap` fails with ENOMEM whatever the
      allocator would have returned. */
  lemma FullTableRefuses(t: seq<MmapEntry>, length: nat, fd: int, offset: int, alloc: nat)
    requires alloc != MAP_FAILED
    requires FreeSlots(t) == 0
    ensures MmapSpec(t, length, fd, offset, alloc) == MmapOutcome(t, MAP_FAILED, Some(ENOMEM))
  {
    FreeSlotsPositive(t);
  }

  /** `mmap` of a fresh address keeps the recorded addresses distinct, and
      `munmap` of a recorded address then removes exactly that address and
      gives the record back. */
  lemma MmapThenMunmap(t: seq<MmapEntry>, length: nat, fd: int, offset: int, alloc: nat)
    requires alloc != MAP_FAILED && alloc != NULL
    requires DistinctAddrs(t) && alloc !in Mapped(t)
    requires FreeSlots(t) > 0
    ensures var o := MmapSpec(t, length, fd, offset, alloc);
      o.ret == alloc && DistinctAddrs(o.table) &&
      var u := MunmapSpec(o.table, alloc);
      u.rc == 0 && DistinctAddrs(u.table) &&
      Mapped(u.table) == Mapped(t) && FreeSlots(u.table) == FreeSlots(t)
  {
    FreeSlotsPositive(t);
    var o := MmapSpec(t, length, fd, offset, alloc);
    var s := FindFrom(t, NULL, 0).value;
    assert o.table[s].addr == alloc;
    forall i, j | 0 <= i < |o.table| && 0 <= j < |o.table| && i != j && o.table[i].addr != NULL
      ensures o.table[i].addr != o.table[j].addr
    {
      if i == s {
        assert o.table[j] == t[j];
        if t[j].addr != NULL { assert t[j].addr in Mapped(t); }
      } else if j == s {
        assert o.table[i] == t[i];
        assert t[i].addr in Mapped(t);
      }
    }
    MmapAccounting(t, length, fd, offset, alloc);
    assert alloc in (set i | 0 <= i < |o.table| :: o.table[i].addr);
    var u := MunmapSpec(o.table, alloc);
    var s2 := FindFrom(o.table, alloc, 0).value;
    assert s2 == s;
    assert u.table == t[s := CLEARED_ENTRY];
    FreeSlotsUpdate(o.table, s, CLEARED_ENTRY);
    FreeSlotsUpdate(t, s, MmapEntry(alloc, length, fd, offset));
    forall a | a in Mapped(u.table) ensures a in Mapped(t) {
      var i :| 0 <= i < |u.table| && u.table[i].addr != NULL && u.table[i].addr == a;
      assert u.table[i] == t[i];
    }
    forall a | a in Mapped(t) ensures a in Mapped(u.table) {
      var i :| 0 <= i < |t| && t[i].addr != NULL && t[i].addr == a;
      assert i != s;
      assert u.table[i] == t[i];
    }
  }

  /** `munmap(NULL)` is accepted whenever a free record exists: the search
      for the address NULL finds the free record, which is cleared again, and
      nothing that was mapped is lost. */
  lemma MunmapNullClearsFreeRecord(t: seq<MmapEntry>)
    requires FreeSlots(t) > 0
    ensures var u := MunmapSpec(t, NULL);
      u.rc == 0 && Mapped(u.table) == Mapped(t) && FreeSlots(u.table) == FreeSlots(t)
  {
    FreeSlotsPositive(t);
    var s := FindFrom(t, NULL, 0).value;
    assert NULL in (set i | 0 <= i < |t| :: t[i].addr);
    var u := MunmapSpec(t, NULL);
    FreeSlotsUpdate(t, s, CLEARED_ENTRY);
    forall a | a in Mapped(u.table) ensures a in Mapped(t) {
      var i :| 0 <= i < |u.table| && u.table[i].addr != NULL && u.table[i].addr == a;
      assert u.table[i] == t[i];
    }
    forall a | a in Mapped(t) ensures a in Mapped(u.table) {
      var i :| 0 <= i < |t| && t[i].addr != NULL && t[i].addr == a;
      assert u.table[i] == t[i];
    }
  }

  // ---- the table as the module's static state ----

  /** `mmap_table` and `mmap_table_init`, with the last `errno` written. */
  class MmapTable {
    const entries: array<MmapEntry>
    var tableInit: bool
    var errno: Option<Errno>

    ghost predicate Valid()
      reads this, entries
    {
      entries.Length == MAX_MMAP_ENTRIES &&
      (!tableInit ==> forall i :: 0 <= i < entries.Length ==> entries[i] == ZERO_ENTRY)
    }

    /** Static storage: zero-filled, not yet initialised. */
    constructor ()
      ensures Valid() && !tableInit && errno.None?
      ensures FreeSlots(entries[..]) == MAX_MMAP_ENTRIES && Mapped(entries[..]) == {}
      ensures fresh(entries)
    {
      entries := new MmapEntry[MAX_MMAP_ENTRIES](_ => ZERO_ENTRY);
      tableInit := false;
      errno := None;
      new;
      AllFree(entries[..]);
    }

    /** `init_mmap_table`: on first use, zero the table. */
    method InitTable()
      requires Valid()
      modifies this, entries
      ensures Valid() && tableInit && errno == old(errno)
      ensures entries[..] == old(entries[..])
    {
      if !tableInit {
        var i := 0;
        while i < entries.Length
          invariant 0 <= i <= entries.Length
          invariant forall k :: 0 <= k < entries.Length ==> entries[k] == ZERO_ENTRY
          invariant entries[..] == old(entries[..]) && errno == old(errno)
        {
          entries[i] := ZERO_ENTRY;
          i := i + 1;
        }
        tableInit := true;
      }
    }

    /** `mmap(addr, length, prot, flags, fd, offset)`; `alloc` is what
        `heap_caps_aligned_alloc` would return (NULL on failure). The
        address hint, protection and flags are ignored by the shim. */
    method Mmap(length: nat, fd: int, offset: int, alloc: nat) returns (r: nat)
      requires Valid()
      requires alloc != MAP_FAILED
      modifies this, entries
      ensures Valid() && tableInit
      ensures var o := MmapSpec(old(entries[..]), length, fd, offset, alloc);
        r == o.ret && entries[..] == o.table &&
        errno == (if o.err.Some? then o.err else old(errno))
    {
      InitTable();
      var slot := -1;
      var i := 0;
      while slot < 0 && i < entries.Length
        invariant 0 <= i <= entries.Length
        invariant slot < 0 ==> FindFrom(entries[..], NULL, 0) == FindFrom(entries[..], NULL, i)
        invariant slot >= 0 ==> FindFrom(entries[..], NULL, 0) == Some(slot)
      {
        if entries[i].addr == NULL {
          slot := i;
        }
        i := i + 1;
      }
      if slot < 0 {
        errno := Some(ENOMEM);
        return MAP_FAILED;
      }
      if alloc == NULL {
        errno := Some(ENOMEM);
        return MAP_FAILED;
      }
      entries[slot] := MmapEntry(alloc, length, fd, offset);
      r := alloc;
    }

    /** `munmap(addr, length)`: frees and clears the first record holding
        `addr`; the length is only logged. */
    method Munmap(addr: nat, length: nat) returns (rc: int)
      requires Valid()
      modifies this, entries
      ensures Valid() && tableInit
      ensures var o := MunmapSpec(old(entries[..]), addr);
        rc == o.rc && entries[..] == o.table &&
        errno == (if o.err.Some? then o.err else old(errno))
    {
      InitTable();
      var i := 0;
      while i < entries.Length
        invariant 0 <= i <= entries.Length
        invariant entries[..] == old(entries[..])
        invariant FindFrom(entries[..], addr, 0) == FindFrom(entries[..], addr, i)
      {
        if entries[i].addr == addr {
          entries[i] := CLEARED_ENTRY;
          return 0;
        }
        i := i + 1;
      }
      errno := Some(EINVAL);
      rc := -1;
    }
  }

  /** A zero-filled table is all free and maps nothing. */
  lemma {:induction false} AllFree(t: seq<MmapEntry>)
    requires forall i :: 0 <= i < |t| ==> t[i] == ZERO_ENTRY
    ensures FreeSlots(t) == |t| && Mapped(t) == {}
  {
    if |t| > 0 {
      AllFree(t[1..]);
    }
  }
}
