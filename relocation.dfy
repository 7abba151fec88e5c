/** The linking pass code_gen::jump: every recorded displacement field is
    overwritten, in increasing order of its offset, with the distance from
    the end of the field to the address of its label, or with four INT3
    bytes when the label was never placed. */
module Relocation {
  import opened MachineInt
  import opened X86

  /** The bytes jump writes into the field at offset k: the little-endian
      distance from k + 4 to the label, or CC CC CC CC. */
  function FieldBytes(k: nat, patches: map<nat, int>, labels: map<int, nat>): (f: seq<Byte>)
    requires k in patches
    ensures |f| == 4
    ensures patches[k] in labels ==> FromLE32(f) == Wrap(labels[patches[k]] - (k + 4))
    ensures patches[k] !in labels ==> forall i :: 0 <= i < 4 ==> f[i] == 0xCC
  {
    if patches[k] in labels then
      var f := LE32(labels[patches[k]] - (k + 4));
      LE32Wrap(labels[patches[k]] - (k + 4));
      LE32RoundTrip(Wrap(labels[patches[k]] - (k + 4)));
      f
    else [0xCC, 0xCC, 0xCC, 0xCC]
  }

  /** The bytes of b with f written from offset k on. */
  function Overwrite(b: seq<Byte>, k: nat, f: seq<Byte>): (r: seq<Byte>)
    requires k + |f| <= |b|
    ensures |r| == |b|
    ensures forall i :: 0 <= i < |b| ==> r[i] == if k <= i < k + |f| then f[i - k] else b[i]
  {
    b[..k] + f + b[k + |f|..]
  }

  /** Every field in keys lies inside n bytes. */
  predicate InBounds(keys: set<nat>, n: nat) {
    forall k :: k in keys ==> k + 4 <= n
  }

  /** No two fields in keys overlap. */
  predicate Disjoint(keys: set<nat>) {
    forall k, j :: k in keys && j in keys && k < j ==> k + 4 <= j
  }

  /** Offset i lies in none of the fields in keys. */
  predicate OutsideFields(keys: set<nat>, i: int) {
    forall k :: k in keys ==> !(k <= i < k + 4)
  }

  /** The least offset of a non-empty set: the next one a std::map iterator
      visits. */
  ghost function Least(keys: set<nat>): (k: nat)
    requires keys != {}
    ensures k in keys && forall j :: j in keys ==> k <= j
    decreases |keys|
  {
    var x :| x in keys;
    if keys == {x} then x
    else
      var rest := keys - {x};
      assert |rest| < |keys|;
      var m := Least(rest);
      assert forall j :: j in keys ==> j == x || j in rest;
      if x < m then x else m
  }

  /** jump over the fields in todo: the least one first, then the rest. */
  ghost function Relocate(b: seq<Byte>, patches: map<nat, int>, labels: map<int, nat>, todo: set<nat>): (r: seq<Byte>)
    requires todo <= patches.Keys && InBounds(todo, |b|)
    ensures |r| == |b|
    decreases |todo|
  {
    if todo == {} then b
    else
      var k := Least(todo);
      Relocate(Overwrite(b, k, FieldBytes(k, patches, labels)), patches, labels, todo - {k})
  }

  /** jump leaves every byte outside the fields as it was. */
  lemma {:induction false} RelocateOutside(b: seq<Byte>, patches: map<nat, int>, labels: map<int, nat>,
                                           todo: set<nat>, i: int)
    requires todo <= patches.Keys && InBounds(todo, |b|)
    requires 0 <= i < |b| && OutsideFields(todo, i)
    ensures Relocate(b, patches, labels, todo)[i] == b[i]
    decreases |todo|
  {
    if todo != {} {
      var k := Least(todo);
      var b1 := Overwrite(b, k, FieldBytes(k, patches, labels));
      RelocateOutside(b1, patches, labels, todo - {k}, i);
    }
  }

  /** When no two fields overlap, jump leaves each field holding its own
      displacement. */
  lemma {:induction false} RelocateField(b: seq<Byte>, patches: map<nat, int>, labels: map<int, nat>,
                                         todo: set<nat>, k: nat)
    requires todo <= patches.Keys && InBounds(todo, |b|) && Disjoint(todo)
    requires k in todo
    ensures Relocate(b, patches, labels, todo)[k..k + 4] == FieldBytes(k, patches, labels)
    decreases |todo|
  {
    var k0 := Least(todo);
    var f0 := FieldBytes(k0, patches, labels);
    var b1 := Overwrite(b, k0, f0);
    var rest := todo - {k0};
    var r := Relocate(b, patches, labels, todo);
    assert r == Relocate(b1, patches, labels, rest);
    if k == k0 {
      forall i | k <= i < k + 4
        ensures r[i] == f0[i - k]
      {
        assert OutsideFields(rest, i);
        RelocateOutside(b1, patches, labels, rest, i);
      }
      assert r[k..k + 4] == f0;
    } else {
      RelocateField(b1, patches, labels, rest, k);
    }
  }

  /** The bytes append_int32 writes depend only on the value modulo 2^32, so
      the size_t difference cast to int gives the bytes of the plain
      difference. */
  lemma LE32Wrap(v: int)
    ensures LE32(Wrap(v)) == LE32(v)
  {
    var w := Wrap(v);
    var t := (w - v) / Two32;
    assert w == v + Two32 * t;
    LE32Digits(v);
    LE32Digits(w);
    var q :| v == Unsigned32(LE32(v)) + Two32 * q;
    var q' :| w == Unsigned32(LE32(w)) + Two32 * q';
    var d := q' - q - t;
    assert Unsigned32(LE32(v)) - Unsigned32(LE32(w)) == Two32 * d;
    assert d == 0;
    SameUnsigned(LE32(v), LE32(w));
  }

  /** Four bytes are determined by their unsigned value. */
  lemma SameUnsigned(a: seq<Byte>, b: seq<Byte>)
    requires |a| == 4 && |b| == 4 && Unsigned32(a) == Unsigned32(b)
    ensures a == b
  {
    FromLE32RoundTrip(a);
    FromLE32RoundTrip(b);
    assert FromLE32(a) == FromLE32(b);
  }

  /** Four single-byte stores make one field. */
  lemma WriteField(b: seq<Byte>, k: nat, f: seq<Byte>)
    requires |f| == 4 && k + 4 <= |b|
    ensures b[k := f[0]][k + 1 := f[1]][k + 2 := f[2]][k + 3 := f[3]] == Overwrite(b, k, f)
  {
  }
}
