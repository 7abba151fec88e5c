/** The symbol table and string pool of s_table.cpp: append-only tables
    searched front to back. */
module SymbolTable {

  datatype SymbolType = SymbolNull | SymbolVar
  datatype LocationType = LocStack | LocMem | LocReg
  datatype ValueType = VtNull | VtInt4 | VtString | VtBool

  /** One symbol: its name, kind, storage class, value type and frame offset. */
  datatype SymbolData = SymbolData(name: string, symType: SymbolType, locType: LocationType,
                                   valType: ValueType, offset: int)

  /** The position of the first occurrence of x in s, or -1. */
  function IndexOf<T(==)>(s: seq<T>, x: T): (r: int)
    ensures -1 <= r < |s|
    ensures r == -1 <==> x !in s
    ensures 0 <= r ==> s[r] == x && forall j :: 0 <= j < r ==> s[j] != x
  {
    if s == [] then -1
    else if s[0] == x then 0
    else
      var k := IndexOf(s[1..], x);
      if k == -1 then -1 else k + 1
  }

  /** The names of the entries, in order. */
  function Names(entries: seq<SymbolData>): (r: seq<string>)
    ensures |r| == |entries| && forall i :: 0 <= i < |r| ==> r[i] == entries[i].name
  {
    seq(|entries|, i requires 0 <= i < |entries| => entries[i].name)
  }

  /** The entry insert appends: a stack slot just below the previous ones. */
  function NewEntry(entries: seq<SymbolData>, name: string, stype: SymbolType, vtype: ValueType): SymbolData {
    SymbolData(name, stype, LocStack, vtype, -4 * (|entries| + 1))
  }

  /** The table after insert. */
  function Inserted(entries: seq<SymbolData>, name: string, stype: SymbolType, vtype: ValueType): (r: seq<SymbolData>)
    ensures |r| == |entries| + 1 && r[..|entries|] == entries
    ensures r[|entries|] == SymbolData(name, stype, LocStack, vtype, -4 * (|entries| + 1))
  {
    entries + [NewEntry(entries, name, stype, vtype)]
  }

  /** Every entry i lives on the stack at offset -4*(i+1). */
  ghost predicate DenseOffsets(entries: seq<SymbolData>) {
    forall i :: 0 <= i < |entries| ==> entries[i].locType == LocStack && entries[i].offset == -4 * (i + 1)
  }

  /** The global sym_table. */
  class SymbolTable {
    var entries: seq<SymbolData>

    ghost predicate Valid()
      reads this
    {
      DenseOffsets(entries)
    }

    constructor ()
      ensures Valid() && entries == []
    {
      entries := [];
    }

    /** insert: append a new entry, even when the name is already present, and
        return its index. */
    method Insert(name: string, stype: SymbolType, vtype: ValueType) returns (index: int)
      requires Valid()
      modifies this
      ensures Valid()
      ensures entries == Inserted(old(entries), name, stype, vtype)
      ensures index == |old(entries)|
    {
      InsertedKeepsDense(entries, name, stype, vtype);
      entries := entries + [NewEntry(entries, name, stype, vtype)];
      index := |entries| - 1;
    }

    /** find: the index of the first entry with that name, or -1. */
    method Find(name: string) returns (index: int)
      ensures index == IndexOf(Names(entries), name)
    {
      var i := 0;
      while i < |entries|
        invariant 0 <= i <= |entries|
        invariant forall j :: 0 <= j < i ==> entries[j].name != name
      {
        if entries[i].name == name {
          return i;
        }
        i := i + 1;
      }
      return -1;
    }
  }

  /** insert keeps the offsets dense. */
  lemma InsertedKeepsDense(entries: seq<SymbolData>, name: string, stype: SymbolType, vtype: ValueType)
    requires DenseOffsets(entries)
    ensures DenseOffsets(Inserted(entries, name, stype, vtype))
  {
    var r := Inserted(entries, name, stype, vtype);
    forall i | 0 <= i < |r|
      ensures r[i].locType == LocStack && r[i].offset == -4 * (i + 1)
    {
      if i < |entries| {
        assert r[i] == r[..|entries|][i];
      }
    }
  }

  /** The names after insert are the old names followed by the new one. */
  lemma NamesInserted(entries: seq<SymbolData>, name: string, stype: SymbolType, vtype: ValueType)
    ensures Names(Inserted(entries, name, stype, vtype)) == Names(entries) + [name]
  {
    var r := Inserted(entries, name, stype, vtype);
    forall i | 0 <= i < |entries|
      ensures Names(r)[i] == Names(entries)[i]
    {
      assert r[i] == r[..|entries|][i];
    }
  }

  /** Searching a sequence with an element appended finds the same as
      before when x was present, and otherwise finds x only if it is the new
      element. */
  lemma IndexOfAppend<T>(s: seq<T>, y: T, x: T)
    ensures x in s ==> IndexOf(s + [y], x) == IndexOf(s, x)
    ensures x !in s && x == y ==> IndexOf(s + [y], x) == |s|
    ensures x !in s && x != y ==> IndexOf(s + [y], x) == -1
  {
    var t := s + [y];
    forall j | 0 <= j < |s|
      ensures t[j] == s[j]
    {
    }
    if x in s {
      var k := IndexOf(s, x);
      assert t[k] == x;
    }
  }

  /** Right after inserting a name that was absent, find returns the new index. */
  lemma FindAfterFreshInsert(entries: seq<SymbolData>, name: string, stype: SymbolType, vtype: ValueType)
    requires IndexOf(Names(entries), name) == -1
    ensures IndexOf(Names(Inserted(entries, name, stype, vtype)), name) == |entries|
  {
    NamesInserted(entries, name, stype, vtype);
    IndexOfAppend(Names(entries), name, name);
  }

  /** Inserting never changes what find returns for a name already present:
      a duplicate insert leaves find on the earlier entry. */
  lemma FindKeepsEarlier(entries: seq<SymbolData>, name: string, other: string, stype: SymbolType, vtype: ValueType)
    requires IndexOf(Names(entries), name) != -1
    ensures IndexOf(Names(Inserted(entries, other, stype, vtype)), name) == IndexOf(Names(entries), name)
  {
    NamesInserted(entries, other, stype, vtype);
    IndexOfAppend(Names(entries), other, name);
  }

  /** Inserting a different name does not make an absent name findable. */
  lemma FindOtherAbsent(entries: seq<SymbolData>, name: string, other: string, stype: SymbolType, vtype: ValueType)
    requires IndexOf(Names(entries), name) == -1 && other != name
    ensures IndexOf(Names(Inserted(entries, other, stype, vtype)), name) == -1
  {
    NamesInserted(entries, other, stype, vtype);
    IndexOfAppend(Names(entries), other, name);
  }

  // ---------------------------------------------------------------------
  // The string pool.

  /** The pool after add_string_constant and the index it returns. */
  datatype Interned = Interned(pool: seq<string>, index: int)

  /** add_string_constant on pool: the index of an equal string, or the
      string appended as the new last element. */
  function Intern(pool: seq<string>, val: string): (r: Interned)
    ensures 0 <= r.index < |r.pool| && r.pool[r.index] == val
    ensures val in pool ==> r.pool == pool && r.index == IndexOf(pool, val)
    ensures val !in pool ==> r.pool == pool + [val] && r.index == |pool|
  {
    var k := IndexOf(pool, val);
    if k != -1 then Interned(pool, k) else Interned(pool + [val], |pool|)
  }

  /** No string occurs twice. */
  ghost predicate Distinct(pool: seq<string>) {
    forall i, j :: 0 <= i < j < |pool| ==> pool[i] != pool[j]
  }

  /** Adding the same string again returns the same index and leaves the
      pool unchanged. */
  lemma InternIdempotent(pool: seq<string>, val: string)
    ensures Intern(Intern(pool, val).pool, val) == Intern(pool, val)
  {
    var r := Intern(pool, val);
    if val !in pool {
      IndexOfAppend(pool, val, val);
    }
  }

  /** The pool never holds a duplicate. */
  lemma InternKeepsDistinct(pool: seq<string>, val: string)
    requires Distinct(pool)
    ensures Distinct(Intern(pool, val).pool)
  {
  }

  /** In a pool without duplicates, the returned index is the only position
      of the string. */
  lemma InternUnique(pool: seq<string>, val: string, j: int)
    requires Distinct(pool) && 0 <= j < |Intern(pool, val).pool|
    ensures Intern(pool, val).pool[j] == val <==> j == Intern(pool, val).index
  {
    InternKeepsDistinct(pool, val);
  }

  /** The global string_table. */
  class StringPool {
    var strings: seq<string>

    ghost predicate Valid()
      reads this
    {
      Distinct(strings)
    }

    constructor ()
      ensures Valid() && strings == []
    {
      strings := [];
    }

    /** add_string_constant */
    method AddStringConstant(val: string) returns (index: int)
      requires Valid()
      modifies this
      ensures Valid()
      ensures Interned(strings, index) == Intern(old(strings), val)
    {
      InternKeepsDistinct(strings, val);
      var i := 0;
      while i < |strings|
        invariant 0 <= i <= |strings|
        invariant forall j :: 0 <= j < i ==> strings[j] != val
      {
        if strings[i] == val {
          return i;
        }
        i := i + 1;
      }
      strings := strings + [val];
      return |strings| - 1;
    }
  }
}
