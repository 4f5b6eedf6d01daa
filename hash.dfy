// The 32-bit string hash and the string-to-identifier conversion of
// io_aaron/hash.py.
module Hash {
  import opened Util

  /** Initial accumulator value of `binhash`. */
  const Seed: int := 0xFFFF_FFFF

  /** One step of the fold: multiply by 33, add the code point, keep the low 32 bits. */
  function Step(acc: int, c: char): (r: int)
    ensures 0 <= r < Modulus32
  {
    (acc * 33 + c as int) % Modulus32
  }

  /** The fold of `Step` over `s`, left to right, starting from `acc`. */
  function Fold(acc: int, s: string): (r: int)
    ensures 0 <= acc < Modulus32 ==> 0 <= r < Modulus32
    decreases s
  {
    if s == [] then acc else Fold(Step(acc, s[0]), s[1..])
  }

  /** The value `binhash` computes. */
  function BinHashOf(s: string): (h: int)
    ensures 0 <= h < Modulus32
  {
    Fold(Seed, s)
  }

  /** `binhash`: the loop over the characters of `s` updating the accumulator. */
  method BinHash(s: string) returns (h: int)
    ensures h == BinHashOf(s)
  {
    h := Seed;
    for i := 0 to |s|
      invariant Fold(h, s[i..]) == BinHashOf(s)
    {
      assert s[i..][1..] == s[i + 1..];
      h := (h * 33 + s[i] as int) % Modulus32;
    }
  }

  lemma {:induction false} FoldSnoc(acc: int, s: string, c: char)
    ensures Fold(acc, s + [c]) == Step(Fold(acc, s), c)
    decreases s
  {
    if s == [] {
      assert [c][1..] == [];
    } else {
      assert (s + [c])[1..] == s[1..] + [c];
      FoldSnoc(Step(acc, s[0]), s[1..], c);
    }
  }

  /** Appending one character multiplies the hash by 33 and adds the raw code point,
      modulo 2^32: the code point is not truncated to a byte first. */
  lemma BinHashAppend(s: string, c: char)
    ensures BinHashOf(s + [c]) == (BinHashOf(s) * 33 + c as int) % Modulus32
  {
    FoldSnoc(Seed, s, c);
  }

  lemma BinHashEmpty()
    ensures BinHashOf("") == 0xFFFF_FFFF
  {
  }

  /** 'Ł' (U+0141) and 'A' (U+0041) share their low byte but hash differently,
      so the full code point enters the fold. */
  lemma BinHashUsesFullCodePoint()
    ensures BinHashOf("Ł") == 288
    ensures BinHashOf("A") == 32
  {
  }

  // ---- hexadecimal parsing, the `int(string, 16)` branch ----

  predicate IsHexDigit(c: char)
  {
    '0' <= c <= '9' || 'a' <= c <= 'f' || 'A' <= c <= 'F'
  }

  function DigitValue(c: char): (v: nat)
    requires IsHexDigit(c)
    ensures v < 16
  {
    if '0' <= c <= '9' then c as int - '0' as int
    else if 'a' <= c <= 'f' then c as int - 'a' as int + 10
    else c as int - 'A' as int + 10
  }

  predicate AllHex(d: string)
  {
    forall i :: 0 <= i < |d| ==> IsHexDigit(d[i])
  }

  /** The number written by the hex digits `d`, most significant first. */
  function HexValue(d: string): nat
    requires AllHex(d)
  {
    if d == [] then 0 else HexValue(d[..|d| - 1]) * 16 + DigitValue(d[|d| - 1])
  }

  /** Lower-case hex digit for a value below 16. */
  function HexDigit(v: nat): (c: char)
    requires v < 16
    ensures IsHexDigit(c) && DigitValue(c) == v
  {
    if v < 10 then ('0' as int + v) as char else ('a' as int + v - 10) as char
  }

  /** The hex digits of `h`, most significant first, without leading zeros. */
  function HexDigits(h: nat): (d: string)
    ensures d != [] && AllHex(d)
  {
    if h < 16 then [HexDigit(h)] else HexDigits(h / 16) + [HexDigit(h % 16)]
  }

  lemma {:induction false} HexValueOfDigits(h: nat)
    ensures HexValue(HexDigits(h)) == h
  {
    if h >= 16 {
      var d := HexDigits(h);
      assert d[..|d| - 1] == HexDigits(h / 16);
      HexValueOfDigits(h / 16);
    }
  }

  /** `int(rest, 16)` restricted to plain hex digits: empty text or any other
      character is a parse failure. */
  function ParseHex(rest: string): (r: Option<nat>)
    ensures r.Some? <==> rest != [] && AllHex(rest)
  {
    if rest != [] && AllHex(rest) then Some(HexValue(rest)) else None
  }

  predicate HasHexPrefix(s: string)
  {
    |s| >= 2 && s[0] == '0' && s[1] == 'x'
  }

  /** `string_to_hash`: a "0x" string is read as hex, anything else, and every
      hex parse failure, is hashed. */
  function StringToHash(s: string): nat
  {
    if !HasHexPrefix(s) then BinHashOf(s)
    else match ParseHex(s[2..])
      case Some(v) => v
      case None => BinHashOf(s)
  }

  lemma StringToHashWithoutPrefix(s: string)
    requires !HasHexPrefix(s)
    ensures StringToHash(s) == BinHashOf(s) < Modulus32
  {
  }

  lemma StringToHashOfHex(d: string)
    requires d != [] && AllHex(d)
    ensures StringToHash("0x" + d) == HexValue(d)
  {
    assert ("0x" + d)[2..] == d;
  }

  /** The whole string, prefix included, is hashed when the hex parse fails. */
  lemma StringToHashFallback(d: string)
    requires d == [] || !AllHex(d)
    ensures StringToHash("0x" + d) == BinHashOf("0x" + d)
  {
    assert ("0x" + d)[2..] == d;
  }

  /** Round trip: writing `h` as "0x" and its hex digits and reading it back gives `h`. */
  lemma StringToHashRoundTrip(h: nat)
    ensures StringToHash("0x" + HexDigits(h)) == h
  {
    StringToHashOfHex(HexDigits(h));
    HexValueOfDigits(h);
  }

  /** The hex branch is not truncated to 32 bits. */
  lemma HexBranchUnbounded()
    ensures StringToHash("0x" + HexDigits(Modulus32)) == Modulus32
  {
    StringToHashRoundTrip(Modulus32);
  }
}
