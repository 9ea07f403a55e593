/*
 * What both serializers share about their growable byte buffer: the shape of
 * one write step (the sticky out-of-memory flag and the bytes appended) and
 * the memory provider that hands out larger buffers.
 */
module Buffers {
  import opened Wire

  function Max(a: nat, b: nat): nat
  {
    if a >= b then a else b
  }

  /**
   * One write step seen from outside: the out-of-memory flag never clears,
   * and while it is clear the contents grew by exactly `bytes`.
   */
  predicate Extends(before: seq<Byte>, oomBefore: bool, after: seq<Byte>, oomAfter: bool, bytes: seq<Byte>)
  {
    (oomBefore ==> oomAfter) && (!oomAfter ==> after == before + bytes)
  }

  /** Two steps compose: their byte strings are appended in order. */
  lemma ExtendsChain(c0: seq<Byte>, m0: bool, c1: seq<Byte>, m1: bool, a: seq<Byte>,
                     c2: seq<Byte>, m2: bool, b: seq<Byte>)
    requires Extends(c0, m0, c1, m1, a) && Extends(c1, m1, c2, m2, b)
    ensures Extends(c0, m0, c2, m2, a + b)
  {
    if !m2 {
      assert c2 == c0 + a + b;
    }
  }

  /**
   * The memory provider: a buffer of `newCapacity` zero bytes whose prefix is
   * the old buffer, or null when the request exceeds the limit.
   */
  method Reallocate(current: array?<Byte>, newCapacity: nat, memoryLimit: nat) returns (r: array?<Byte>)
    requires current != null ==> current.Length <= newCapacity
    ensures newCapacity <= memoryLimit <==> r != null
    ensures r != null ==> fresh(r) && r.Length == newCapacity
    ensures r != null && current != null ==> r[..current.Length] == current[..]
  {
    if newCapacity > memoryLimit {
      return null;
    }
    r := new Byte[newCapacity](_ => 0);
    if current != null {
      forall i | 0 <= i < current.Length {
        r[i] := current[i];
      }
    }
  }
}
