/** The primitive reader: a byte string, a cursor into it, and the fixed-width
    little-endian reads every other decoder is built from.

    A parser is a function of the whole input and a cursor. It either fails or
    returns a value together with the cursor just past what it consumed. The
    cursor is a plain `nat` and may lie beyond the end of the input: a relative
    seek is never bounds-checked, and only a later read past the end fails. */
module Parsing {

  newtype byte = b: int | 0 <= b < 256

  datatype Option<+T> = None | Some(value: T)

  /** The outcome of running a parser at a cursor. */
  datatype Parsed<+T> = Fail | Ok(value: T, next: nat)

  const TWO_31: nat := 0x8000_0000
  const TWO_32: nat := 0x1_0000_0000
  const TWO_63: nat := 0x8000_0000_0000_0000
  const TWO_64: nat := 0x1_0000_0000_0000_0000

  function Pow256(n: nat): (r: nat)
    ensures r >= 1
  {
    if n == 0 then 1 else 256 * Pow256(n - 1)
  }

  /** The unsigned number a byte string denotes, least significant byte first. */
  function LittleEndian(bs: seq<byte>): (r: nat)
    ensures r < Pow256(|bs|)
  {
    if |bs| == 0 then 0 else bs[0] as nat + 256 * LittleEndian(bs[1..])
  }

  /** The n-byte little-endian encoding of x: the inverse of LittleEndian. */
  function ToLittleEndian(x: nat, n: nat): (bs: seq<byte>)
    requires x < Pow256(n)
    ensures |bs| == n
  {
    if n == 0 then []
    else
      assert x / 256 < Pow256(n - 1);
      [(x % 256) as byte] + ToLittleEndian(x / 256, n - 1)
  }

  /** Reading back an encoding gives the number encoded. */
  lemma {:induction false} LittleEndianOfToLittleEndian(x: nat, n: nat)
    requires x < Pow256(n)
    ensures LittleEndian(ToLittleEndian(x, n)) == x
  {
    if n > 0 {
      var bs := ToLittleEndian(x, n);
      LittleEndianOfToLittleEndian(x / 256, n - 1);
      assert bs[1..] == ToLittleEndian(x / 256, n - 1);
    }
  }

  /** Re-encoding the value of a byte string gives back the same bytes, so
      LittleEndian is injective on strings of one length. */
  lemma {:induction false} ToLittleEndianOfLittleEndian(bs: seq<byte>)
    ensures ToLittleEndian(LittleEndian(bs), |bs|) == bs
  {
    if |bs| > 0 {
      DigitSplit(bs[0] as nat, LittleEndian(bs[1..]));
      ToLittleEndianOfLittleEndian(bs[1..]);
    }
  }

  /** The lowest base-256 digit and the rest of a number, recovered. */
  lemma DigitSplit(d: nat, rest: nat)
    requires d < 256
    ensures (d + 256 * rest) % 256 == d
    ensures (d + 256 * rest) / 256 == rest
  {
  }

  /** Two's-complement reading of a 32-bit pattern (Construct's Int32sl). */
  function Int32Of(u: nat): (v: int)
    requires u < TWO_32
    ensures -(TWO_31 as int) <= v < TWO_31 as int
    ensures v >= 0 <==> u < TWO_31
  {
    if u < TWO_31 then u else u - TWO_32
  }

  /** Two's-complement reading of a 64-bit pattern (Construct's Int64sl). */
  function Int64Of(u: nat): (v: int)
    requires u < TWO_64
    ensures -(TWO_63 as int) <= v < TWO_63 as int
    ensures v >= 0 <==> u < TWO_63
  {
    if u < TWO_63 then u else u - TWO_64
  }

  predicate IsInt32(v: int) { -(TWO_31 as int) <= v < TWO_31 as int }

  predicate IsInt64(v: int) { -(TWO_63 as int) <= v < TWO_63 as int }

  /** The low 32 bits of x as 4 little-endian bytes (Construct's Int32ul
      build). */
  function EncodeU32(x: int): (bs: seq<byte>)
    ensures |bs| == 4
  {
    ToLittleEndian(x % TWO_32 as int, 4)
  }

  /** Reading a 32-bit pattern as signed and taking it back modulo 2^32
      gives the pattern again. */
  lemma Int32OfResidue(u: nat)
    requires u < TWO_32
    ensures Int32Of(u) % TWO_32 as int == u
  {
  }

  /** The two's-complement encoding of a signed 32-bit value: the same bit
      pattern as its residue modulo 2^32. */
  function EncodeI32(v: int): (bs: seq<byte>)
    ensures |bs| == 4
  {
    EncodeU32(v)
  }

  /** The two's-complement encoding of a signed 64-bit value. */
  function EncodeI64(v: int): (bs: seq<byte>)
    ensures |bs| == 8
  {
    ToLittleEndian(v % TWO_64 as int, 8)
  }

  /** The four bytes denote x modulo 2^32. */
  lemma EncodeU32Value(x: int)
    ensures LittleEndian(EncodeU32(x)) == x % TWO_32 as int
  {
    LittleEndianOfToLittleEndian(x % TWO_32 as int, 4);
  }

  /** Read as two's complement, the four bytes of a signed 32-bit value
      denote that value. */
  lemma EncodeI32Value(v: int)
    requires IsInt32(v)
    ensures Int32Of(LittleEndian(EncodeI32(v))) == v
  {
    EncodeU32Value(v);
  }

  lemma EncodeI64Value(v: int)
    requires IsInt64(v)
    ensures Int64Of(LittleEndian(EncodeI64(v))) == v
  {
    LittleEndianOfToLittleEndian(v % TWO_64 as int, 8);
  }

  /** The byte `bs[i]`, named so that IsAt's quantifier is instantiated
      only where a proof asks for one of its bytes. */
  function ByteOf(bs: seq<byte>, i: nat): byte
    requires i < |bs|
  {
    bs[i]
  }

  /** `bs` occurs in `data` starting at `pos`. */
  ghost predicate IsAt(data: seq<byte>, pos: nat, bs: seq<byte>) {
    && pos + |bs| <= |data|
    && forall i {:trigger ByteOf(bs, i)} :: 0 <= i < |bs| ==> data[pos + i] == ByteOf(bs, i)
  }

  /** Splitting the bytes splits the occurrence; `mid` names where the
      second part starts. */
  lemma IsAtSplit(data: seq<byte>, pos: nat, a: seq<byte>, b: seq<byte>, mid: nat)
    requires IsAt(data, pos, a + b) && mid == pos + |a|
    ensures IsAt(data, pos, a)
    ensures IsAt(data, mid, b)
  {
    forall i | 0 <= i < |a|
      ensures data[pos + i] == ByteOf(a, i)
    {
      assert ByteOf(a + b, i) == ByteOf(a, i);
    }
    forall i | 0 <= i < |b|
      ensures data[mid + i] == ByteOf(b, i)
    {
      assert ByteOf(a + b, |a| + i) == ByteOf(b, i);
    }
  }

  lemma IsAtSlice(data: seq<byte>, pos: nat, bs: seq<byte>)
    requires IsAt(data, pos, bs)
    ensures data[pos..pos + |bs|] == bs
  {
    forall i | 0 <= i < |bs|
      ensures data[pos..pos + |bs|][i] == bs[i]
    {
      assert ByteOf(bs, i) == bs[i];
    }
  }

  lemma IsAtIndex(data: seq<byte>, pos: nat, bs: seq<byte>, i: nat)
    requires IsAt(data, pos, bs) && i < |bs|
    ensures data[pos + i] == bs[i]
  {
    assert ByteOf(bs, i) == bs[i];
  }

  /** Every input occurs in itself at offset 0. */
  lemma IsAtWhole(data: seq<byte>)
    ensures IsAt(data, 0, data)
  {
    forall i | 0 <= i < |data|
      ensures data[i] == ByteOf(data, i)
    {
    }
  }

  /** `data` and `data2` are both defined and equal on positions [lo, hi). */
  ghost predicate Agree(data: seq<byte>, data2: seq<byte>, lo: nat, hi: nat) {
    && hi <= |data|
    && hi <= |data2|
    && forall i {:trigger AgreeAt(data, data2, i)} :: lo <= i < hi ==> AgreeAt(data, data2, i)
  }

  /** Both inputs hold the same byte at position i. */
  ghost predicate AgreeAt(data: seq<byte>, data2: seq<byte>, i: nat) {
    i < |data| && i < |data2| && data[i] == data2[i]
  }

  /** The unsigned number in the four bytes at `pos`, least significant
      byte first: LittleEndian read in place. */
  function U32At(data: seq<byte>, pos: nat): (r: nat)
    requires pos + 4 <= |data|
    ensures r < TWO_32
  {
    (data[pos] as nat) + 0x100 * (data[pos + 1] as nat)
      + 0x1_0000 * (data[pos + 2] as nat) + 0x100_0000 * (data[pos + 3] as nat)
  }

  /** The unsigned number in the eight bytes at `pos`, least significant
      byte first. */
  function U64At(data: seq<byte>, pos: nat): (r: nat)
    requires pos + 8 <= |data|
    ensures r < TWO_64
  {
    U32At(data, pos) + 0x1_0000_0000 * U32At(data, pos + 4)
  }

  /** Construct's Int8ul/Flag byte read. */
  function ReadU8(data: seq<byte>, pos: nat): (r: Parsed<nat>)
    ensures r.Ok? <==> pos < |data|
    ensures r.Ok? ==> r.next == pos + 1 && r.value < 256
  {
    if pos < |data| then Ok(data[pos] as nat, pos + 1) else Fail
  }

  /** Construct's Int32ul. */
  function ReadU32(data: seq<byte>, pos: nat): (r: Parsed<nat>)
    ensures r.Ok? <==> pos + 4 <= |data|
    ensures r.Ok? ==> r.next == pos + 4 && r.value < TWO_32
  {
    if pos + 4 <= |data| then Ok(U32At(data, pos), pos + 4) else Fail
  }

  /** Construct's Int32sl. */
  function ReadI32(data: seq<byte>, pos: nat): (r: Parsed<int>)
    ensures r.Ok? <==> pos + 4 <= |data|
    ensures r.Ok? ==> r.next == pos + 4 && IsInt32(r.value)
  {
    if pos + 4 <= |data| then Ok(Int32Of(U32At(data, pos)), pos + 4) else Fail
  }

  /** Construct's Int64sl. */
  function ReadI64(data: seq<byte>, pos: nat): (r: Parsed<int>)
    ensures r.Ok? <==> pos + 8 <= |data|
    ensures r.Ok? ==> r.next == pos + 8 && IsInt64(r.value)
  {
    if pos + 8 <= |data| then Ok(Int64Of(U64At(data, pos)), pos + 8) else Fail
  }

  /** One digit of LittleEndian, taken from the middle of a byte string. */
  lemma LittleEndianStep(bs: seq<byte>, i: nat)
    requires i < |bs|
    ensures LittleEndian(bs[i..]) == bs[i] as nat + 256 * LittleEndian(bs[i + 1..])
  {
    assert bs[i..][1..] == bs[i + 1..];
  }

  /** The four-byte case of LittleEndian, written out. */
  lemma LittleEndian4(bs: seq<byte>)
    requires |bs| == 4
    ensures LittleEndian(bs) == (bs[0] as nat) + 0x100 * (bs[1] as nat)
      + 0x1_0000 * (bs[2] as nat) + 0x100_0000 * (bs[3] as nat)
  {
    LittleEndianStep(bs, 3);
    LittleEndianStep(bs, 2);
    LittleEndianStep(bs, 1);
    LittleEndianStep(bs, 0);
    assert bs[0..] == bs;
  }

  /** An eight-byte string is worth its low four bytes plus 2^32 times its
      high four. */
  lemma LittleEndian8(bs: seq<byte>)
    requires |bs| == 8
    ensures LittleEndian(bs) == LittleEndian(bs[..4]) + 0x1_0000_0000 * LittleEndian(bs[4..])
  {
    var hi := LittleEndian(bs[4..]);
    LittleEndianStep(bs, 3);
    LittleEndianStep(bs, 2);
    LittleEndianStep(bs, 1);
    LittleEndianStep(bs, 0);
    assert bs[0..] == bs;
    LittleEndian4(bs[..4]);
  }

  lemma U32AtIsLittleEndian(data: seq<byte>, pos: nat)
    requires pos + 4 <= |data|
    ensures U32At(data, pos) == LittleEndian(data[pos..pos + 4])
  {
    LittleEndian4(data[pos..pos + 4]);
  }

  lemma U64AtIsLittleEndian(data: seq<byte>, pos: nat)
    requires pos + 8 <= |data|
    ensures U64At(data, pos) == LittleEndian(data[pos..pos + 8])
  {
    var bs := data[pos..pos + 8];
    U32AtIsLittleEndian(data, pos);
    U32AtIsLittleEndian(data, pos + 4);
    assert bs[..4] == data[pos..pos + 4] && bs[4..] == data[pos + 4..pos + 8];
    LittleEndian8(bs);
  }

  lemma ReadU8RoundTrip(data: seq<byte>, pos: nat, b: byte)
    requires IsAt(data, pos, [b])
    ensures ReadU8(data, pos) == Ok(b as nat, pos + 1)
  {
    IsAtIndex(data, pos, [b], 0);
  }

  lemma ReadU32RoundTrip(data: seq<byte>, pos: nat, x: nat)
    requires x < TWO_32
    requires IsAt(data, pos, EncodeU32(x))
    ensures ReadU32(data, pos) == Ok(x, pos + 4)
  {
    IsAtSlice(data, pos, EncodeU32(x));
    U32AtIsLittleEndian(data, pos);
    EncodeU32Value(x);
  }

  lemma ReadI32RoundTrip(data: seq<byte>, pos: nat, v: int)
    requires IsInt32(v)
    requires IsAt(data, pos, EncodeI32(v))
    ensures ReadI32(data, pos) == Ok(v, pos + 4)
  {
    IsAtSlice(data, pos, EncodeI32(v));
    U32AtIsLittleEndian(data, pos);
    EncodeI32Value(v);
  }

  lemma ReadI64RoundTrip(data: seq<byte>, pos: nat, v: int)
    requires IsInt64(v)
    requires IsAt(data, pos, EncodeI64(v))
    ensures ReadI64(data, pos) == Ok(v, pos + 8)
  {
    IsAtSlice(data, pos, EncodeI64(v));
    U64AtIsLittleEndian(data, pos);
    EncodeI64Value(v);
  }

  /** A fixed-width read looks only at the bytes it consumes: any input
      that agrees on a range covering them reads the same. */
  lemma ReadU8Frame(data: seq<byte>, data2: seq<byte>, lo: nat, hi: nat, pos: nat)
    requires Agree(data, data2, lo, hi) && lo <= pos && pos + 1 <= hi
    ensures ReadU8(data2, pos) == ReadU8(data, pos)
  {
    assert AgreeAt(data, data2, pos);
  }

  lemma U32AtFrame(data: seq<byte>, data2: seq<byte>, lo: nat, hi: nat, pos: nat)
    requires Agree(data, data2, lo, hi) && lo <= pos && pos + 4 <= hi
    ensures U32At(data2, pos) == U32At(data, pos)
  {
    assert AgreeAt(data, data2, pos) && AgreeAt(data, data2, pos + 1);
    assert AgreeAt(data, data2, pos + 2) && AgreeAt(data, data2, pos + 3);
  }

  lemma ReadU32Frame(data: seq<byte>, data2: seq<byte>, lo: nat, hi: nat, pos: nat)
    requires Agree(data, data2, lo, hi) && lo <= pos && pos + 4 <= hi
    ensures ReadU32(data2, pos) == ReadU32(data, pos)
  {
    U32AtFrame(data, data2, lo, hi, pos);
  }

  lemma ReadI32Frame(data: seq<byte>, data2: seq<byte>, lo: nat, hi: nat, pos: nat)
    requires Agree(data, data2, lo, hi) && lo <= pos && pos + 4 <= hi
    ensures ReadI32(data2, pos) == ReadI32(data, pos)
  {
    U32AtFrame(data, data2, lo, hi, pos);
  }

  lemma ReadI64Frame(data: seq<byte>, data2: seq<byte>, lo: nat, hi: nat, pos: nat)
    requires Agree(data, data2, lo, hi) && lo <= pos && pos + 8 <= hi
    ensures ReadI64(data2, pos) == ReadI64(data, pos)
  {
    U32AtFrame(data, data2, lo, hi, pos);
    U32AtFrame(data, data2, lo, hi, pos + 4);
  }
}
