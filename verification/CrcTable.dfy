/** The CRC programs as they run: a table filled on first use, and the accumulation over a buffer. */
module CrcTable {
  import opened Bitwise
  import opened CrcModel
  import opened CrcProofs

  class Crc32 {
    const table: array<nat>
    var initialized: bool

    ghost predicate Valid()
      reads this, table
    {
      table.Length == 256 && (initialized ==> forall i :: 0 <= i < 256 ==> table[i] == Steps(i, 8))
    }

    constructor ()
      ensures Valid() && !initialized && fresh(table)
    {
      table := new nat[256];
      initialized := false;
    }

    /** Fills the table. */
    method Init()
      requires Valid()
      modifies this, table
      ensures Valid() && initialized
    {
      for i := 0 to 256
        invariant forall k :: 0 <= k < i ==> table[k] == Steps(k, 8)
      {
        var crc := i;
        for j := 0 to 8
          invariant Steps(crc, 8 - j) == Steps(i, 8)
        {
          crc := Xor(crc / 2, if crc % 2 == 1 then POLYNOMIAL else 0);
        }
        table[i] := crc;
      }
      initialized := true;
    }

    /** The CRC of a buffer is its bit-by-bit CRC. */
    method GptCrc32(buf: array<Byte>) returns (crc: nat)
      requires Valid()
      modifies this, table
      ensures Valid() && initialized
      ensures crc == GptCrc(buf[..]) && Word(crc) && ToBits(crc, 32) == Reference(buf[..])
    {
      crc := ONES;
      if !initialized {
        Init();
      }
      GptCrcIsReference(buf[..]);
      WordSize();
      for i := 0 to buf.Length
        invariant Valid() && initialized
        invariant FeedAll(ONES, buf[..]) == FeedAll(crc, buf[i..])
      {
        Split(Xor(crc, buf[i]), 8);
        assert buf[i..][1..] == buf[i + 1..];
        crc := Xor(table[Low(Xor(crc, buf[i]), 8)], ShiftRight(crc, 8));
      }
      crc := Xor(crc, ONES);
    }
  }

  /** The CRC instruction on one byte. */
  method Crc32b(crc: nat, b: Byte) returns (r: nat)
    ensures forall rest: seq<Byte> {:trigger Take(r, rest, 8)} :: Take(crc, [b] + rest, 8) == Take(r, rest, 8)
  {
    r := Xor(crc, b);
    for i := 0 to 8
      invariant Steps(r, 8 - i) == Steps(Xor(crc, b), 8)
    {
      r := Step(r);
    }
    forall rest: seq<Byte>
      ensures Take(crc, [b] + rest, 8) == Take(r, rest, 8)
    {
      assert ([b] + rest)[1..] == rest;
    }
  }

  /** The accumulation of `size` bytes of a buffer onto a CRC. */
  method TfCrc32(crc: nat, buf: array<Byte>, size: nat) returns (calculated: nat)
    requires Word(crc) && size <= buf.Length
    ensures calculated == TfCrc(crc, buf[..size])
  {
    ghost var data := buf[..size];
    calculated := Xor(crc, ONES);
    var localBuf, localSize := 0, size;
    while localSize != 0
      invariant localBuf + localSize == size
      invariant Take(Xor(crc, ONES), data, 8) == Take(calculated, data[localBuf..], 8)
    {
      ghost var rest := data[localBuf + 1..];
      assert data[localBuf..] == [buf[localBuf]] + rest;
      calculated := Crc32b(calculated, buf[localBuf]);
      assert Take(Xor(crc, ONES), data, 8) == Take(calculated, rest, 8);
      localBuf := localBuf + 1;
      localSize := localSize - 1;
    }
    calculated := Xor(calculated, ONES);
  }
}
