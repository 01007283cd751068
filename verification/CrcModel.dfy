/** The CRC-32 of partition tables: fed from a table of 256 words, one for each byte. */
module CrcModel {
  import opened Bitwise

  const POLYNOMIAL := 0xEDB8_8320

  const ONES := 0xFFFF_FFFF

  /** One bit. */
  function Step(x: nat): nat {
    Xor(x / 2, if x % 2 == 1 then POLYNOMIAL else 0)
  }

  function Steps(x: nat, n: nat): nat
    decreases n
  {
    if n == 0 then x else Steps(Step(x), n - 1)
  }

  /** One byte, looked up in the table: entry `i` is what 8 steps make of `i`. */
  function Feed(crc: nat, b: Byte): nat {
    Xor(Steps(Low(Xor(crc, b), 8), 8), ShiftRight(crc, 8))
  }

  function FeedAll(crc: nat, buf: seq<Byte>): nat
    decreases |buf|
  {
    if buf == [] then crc else FeedAll(Feed(crc, buf[0]), buf[1..])
  }

  function GptCrc(buf: seq<Byte>): nat { Xor(FeedAll(ONES, buf), ONES) }

  /** The accumulation over a buffer with the CRC instruction, which takes one byte; the CRC so far is
      complemented before and after. */
  function TfCrc(crc: nat, buf: seq<Byte>): nat { Xor(ByInstruction(Xor(crc, ONES), buf), ONES) }

  /** The instruction takes the 8 bits of a byte one by one. */
  function ByInstruction(crc: nat, buf: seq<Byte>): nat { Take(crc, buf, 8) }

  function Take(crc: nat, buf: seq<Byte>, width: nat): nat
    decreases |buf|
  {
    if buf == [] then crc else Take(Steps(Xor(crc, buf[0]), width), buf[1..], width)
  }

  /* The reference: a register of 32 coefficients, the highest first, that the bits of the message are
     shifted through, the lowest bit of each byte first. */

  /** The lower `n` bits, the lowest first. */
  function ToBits(x: nat, n: nat): (s: seq<bool>)
    ensures |s| == n
  {
    if n == 0 then [] else [x % 2 == 1] + ToBits(x / 2, n - 1)
  }

  /** The polynomial of section 3.2.9 of IEEE 802.3,
      x^32 + x^26 + x^23 + x^22 + x^16 + x^12 + x^11 + x^10 + x^8 + x^7 + x^5 + x^4 + x^2 + x + 1:
      its coefficients from that of x^31 down. */
  const GENERATOR: seq<bool> :=
    [false, false, false, false] + ([false, true, false, false]
    + ([true, true, false, false] + ([false, false, false, true]
    + ([false, false, false, true] + ([true, true, false, true]
    + ([true, false, true, true] + [false, true, true, true]))))))

  function XorBits(a: seq<bool>, b: seq<bool>): (s: seq<bool>)
    requires |a| == |b|
    ensures |s| == |a| && forall i :: 0 <= i < |s| ==> s[i] == (a[i] != b[i])
  {
    if a == [] then [] else [a[0] != b[0]] + XorBits(a[1..], b[1..])
  }

  function Shift(r: seq<bool>, bit: bool): (s: seq<bool>)
    requires |r| == 32
    ensures |s| == 32
  {
    var shifted := r[1..] + [false];
    if r[0] != bit then XorBits(shifted, GENERATOR) else shifted
  }

  function ShiftAll(r: seq<bool>, bits: seq<bool>): (s: seq<bool>)
    requires |r| == 32
    ensures |s| == 32
    decreases |bits|
  {
    if bits == [] then r else ShiftAll(Shift(r, bits[0]), bits[1..])
  }

  function Message(buf: seq<Byte>): seq<bool> {
    if buf == [] then [] else ToBits(buf[0], 8) + Message(buf[1..])
  }

  /** The register starts with all ones, and its complement is the check sequence. */
  function Reference(buf: seq<Byte>): seq<bool> {
    XorBits(ShiftAll(ToBits(ONES, 32), Message(buf)), ToBits(ONES, 32))
  }
}
