// Small shared helpers.
module Util {

  /** The conventional optional value. */
  datatype Option<+T> = None | Some(value: T)

  /** Python's `x & 0xFFFFFFFF`: for every integer, positive or negative, the low
      32 bits of its two's-complement form, which is its residue modulo 2^32. */
  const Modulus32: int := 0x1_0000_0000

  function Mask32(x: int): (r: int)
    ensures 0 <= r < Modulus32
    ensures (r - x) % Modulus32 == 0
  {
    x % Modulus32
  }

  /** The set of a sequence's elements. */
  function Elements<T>(s: seq<T>): set<T>
  {
    if s == [] then {} else {s[0]} + Elements(s[1..])
  }

  lemma {:induction false} ElementsIn<T>(s: seq<T>)
    ensures forall x :: x in Elements(s) <==> x in s
  {
    if s != [] {
      ElementsIn(s[1..]);
    }
  }

  lemma AppendAssoc<T>(a: seq<T>, b: seq<T>, c: seq<T>)
    ensures a + (b + c) == (a + b) + c
  {
  }
}
