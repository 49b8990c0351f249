/** `replaystring`: a signed 32-bit size followed by terminator-delimited
    content. Only the sign of the size is used: a size of zero or more selects
    the 8-bit windows-1252 encoding ended by one 0x00 byte, a negative size
    selects UTF-16-LE ended by one 0x00 0x00 unit. The read stops at the
    terminator whatever the size says.

    Content is kept as raw code units (bytes or 16-bit units) rather than
    decoded text; decoding itself is library work, but the inputs the strict
    decoders reject are modelled as parse failures. */
module ReplayStrings {
  import opened Parsing

  newtype unit16 = u: int | 0 <= u < 0x1_0000

  /** The code units found before the terminator, tagged with their width. */
  datatype Text = Narrow(bytes: seq<byte>) | Wide(units: seq<unit16>)

  datatype ReplayString = ReplayString(size: int, content: Text)

  // ---------------------------------------------------------------------
  // What the strict decoders accept.
  // ---------------------------------------------------------------------

  /** Bytes that Python's strict windows-1252 decoder maps to a character
      (five code points are left undefined by the code page). */
  predicate Cp1252Defined(b: byte) {
    b != 0x81 && b != 0x8D && b != 0x8F && b != 0x90 && b != 0x9D
  }

  predicate IsHighSurrogate(u: unit16) { 0xD800 <= u < 0xDC00 }

  predicate IsLowSurrogate(u: unit16) { 0xDC00 <= u < 0xE000 }

  /** Unit i is acceptable to a strict UTF-16 decoder: a high surrogate needs
      a low one right after it, a low surrogate a high one right before it. */
  predicate PairedAt(us: seq<unit16>, i: nat)
    requires i < |us|
  {
    && (IsHighSurrogate(us[i]) ==> i + 1 < |us| && IsLowSurrogate(us[i + 1]))
    && (IsLowSurrogate(us[i]) ==> i > 0 && IsHighSurrogate(us[i - 1]))
  }

  /** The content decodes without error in its encoding. */
  predicate Decodable(t: Text) {
    match t
    case Narrow(bs) => forall i :: 0 <= i < |bs| ==> Cp1252Defined(bs[i])
    case Wide(us) => forall i :: 0 <= i < |us| ==> PairedAt(us, i)
  }

  /** How a UTF-16 decoder walks the units: a high surrogate takes the low one
      after it, and any unit that is no surrogate stands alone. */
  predicate StrictUtf16(us: seq<unit16>)
    decreases |us|
  {
    if |us| == 0 then true
    else if IsHighSurrogate(us[0]) then |us| >= 2 && IsLowSurrogate(us[1]) && StrictUtf16(us[2..])
    else !IsLowSurrogate(us[0]) && StrictUtf16(us[1..])
  }

  /** The walk from unit j onwards succeeds exactly when every unit from j on
      is paired, provided the walk did not stop just after a high surrogate. */
  lemma {:induction false} StrictUtf16From(us: seq<unit16>, j: nat)
    requires j <= |us|
    requires j == 0 || !IsHighSurrogate(us[j - 1])
    ensures StrictUtf16(us[j..]) <==> forall i :: j <= i < |us| ==> PairedAt(us, i)
    decreases |us| - j
  {
    var rest := us[j..];
    if j < |us| {
      assert rest[0] == us[j];
      if IsHighSurrogate(us[j]) {
        if j + 1 < |us| && IsLowSurrogate(us[j + 1]) {
          assert rest[1] == us[j + 1] && rest[2..] == us[j + 2..];
          StrictUtf16From(us, j + 2);
          assert PairedAt(us, j) && PairedAt(us, j + 1);
        } else {
          assert !PairedAt(us, j);
        }
      } else if IsLowSurrogate(us[j]) {
        assert !PairedAt(us, j);
      } else {
        assert rest[1..] == us[j + 1..];
        StrictUtf16From(us, j + 1);
        assert PairedAt(us, j);
      }
    }
  }

  /** The unit-wise reading of Decodable agrees with the decoder's walk. */
  lemma StrictUtf16Decodable(us: seq<unit16>)
    ensures StrictUtf16(us) <==> Decodable(Wide(us))
  {
    StrictUtf16From(us, 0);
    assert us[0..] == us;
  }

  /** The content holds no terminator unit of its own width. */
  predicate Unterminated(t: Text) {
    match t
    case Narrow(bs) => forall i :: 0 <= i < |bs| ==> bs[i] != 0
    case Wide(us) => forall i :: 0 <= i < |us| ==> us[i] != 0
  }

  // ---------------------------------------------------------------------
  // Comparing content with a literal.
  // ---------------------------------------------------------------------

  /** The number of code units in a content. */
  function UnitCount(t: Text): nat {
    match t
    case Narrow(bs) => |bs|
    case Wide(us) => |us|
  }

  /** The i-th code unit of a content, widened to an integer. */
  function UnitAt(t: Text, i: nat): int
    requires i < UnitCount(t)
  {
    match t
    case Narrow(bs) => bs[i] as int
    case Wide(us) => us[i] as int
  }

  /** The decoded content equals the literal `s`. The literals compared against
      ("None" and the value-type names) are ASCII, and for an ASCII literal
      this is code-unit equality in both encodings: windows-1252 agrees with
      ASCII below 0x80 and maps no other byte to an ASCII character, and a
      UTF-16 surrogate pair never decodes to one. */
  predicate Spells(t: Text, s: string) {
    && UnitCount(t) == |s|
    && forall i {:trigger UnitAt(t, i)} :: 0 <= i < |s| ==> UnitAt(t, i) == s[i] as int
  }

  /** At most one literal is spelled by a content. */
  lemma SpellsUnique(t: Text, s: string, s2: string)
    requires Spells(t, s) && Spells(t, s2)
    ensures s == s2
  {
    forall i | 0 <= i < |s|
      ensures s[i] == s2[i]
    {
      assert UnitAt(t, i) == s[i] as int;
    }
  }

  // ---------------------------------------------------------------------
  // Finding the terminator.
  // ---------------------------------------------------------------------

  /** The 16-bit unit k places after `pos`, little-endian. */
  function WideUnit(data: seq<byte>, pos: nat, k: nat): unit16
    requires pos + 2 * k + 2 <= |data|
  {
    (data[pos + 2 * k] as int + 256 * data[pos + 2 * k + 1] as int) as unit16
  }

  /** NullTerminated with a one-byte terminator: the index of the first 0x00
      byte at or after i, if there is one. */
  function FirstZeroByte(data: seq<byte>, i: nat): (r: Option<nat>)
    ensures r.Some? ==> i <= r.value < |data|
    decreases |data| - i
  {
    if i >= |data| then None
    else if data[i] == 0 then Some(i)
    else FirstZeroByte(data, i + 1)
  }

  /** The scan finds the first 0x00 byte, and fails exactly when there is
      none. */
  lemma {:induction false} FirstZeroByteIsFirst(data: seq<byte>, i: nat)
    ensures var r := FirstZeroByte(data, i);
      r.Some? ==> data[r.value] == 0 && forall j :: i <= j < r.value ==> data[j] != 0
    ensures FirstZeroByte(data, i).None? <==> forall j :: i <= j < |data| ==> data[j] != 0
    decreases |data| - i
  {
    if i < |data| && data[i] != 0 {
      FirstZeroByteIsFirst(data, i + 1);
    }
  }

  lemma FirstZeroByteFinds(data: seq<byte>, i: nat, z: nat)
    requires i <= z < |data| && data[z] == 0
    requires forall j :: i <= j < z ==> data[j] != 0
    ensures FirstZeroByte(data, i) == Some(z)
  {
    FirstZeroByteIsFirst(data, i);
  }

  /** NullTerminated with a two-byte terminator: whole 16-bit units are read
      from `pos`, starting with unit k, until one is 0x0000. The result is
      the number of units before that one; a trailing odd byte is never read. */
  function FirstZeroUnit(data: seq<byte>, pos: nat, k: nat): (r: Option<nat>)
    ensures r.Some? ==> k <= r.value && pos + 2 * r.value + 2 <= |data|
    decreases |data| - (pos + 2 * k)
  {
    if pos + 2 * k + 2 > |data| then None
    else if WideUnit(data, pos, k) == 0 then Some(k)
    else FirstZeroUnit(data, pos, k + 1)
  }

  lemma {:induction false} FirstZeroUnitIsFirst(data: seq<byte>, pos: nat, k: nat)
    ensures var r := FirstZeroUnit(data, pos, k);
      r.Some? ==>
        && WideUnit(data, pos, r.value) == 0
        && forall j :: k <= j < r.value ==> WideUnit(data, pos, j) != 0
    ensures FirstZeroUnit(data, pos, k).None? <==>
      forall j :: k <= j && pos + 2 * j + 2 <= |data| ==> WideUnit(data, pos, j) != 0
    decreases |data| - (pos + 2 * k)
  {
    if pos + 2 * k + 2 <= |data| && WideUnit(data, pos, k) != 0 {
      FirstZeroUnitIsFirst(data, pos, k + 1);
    }
  }

  lemma FirstZeroUnitFinds(data: seq<byte>, pos: nat, k: nat, z: nat)
    requires k <= z && pos + 2 * z + 2 <= |data| && WideUnit(data, pos, z) == 0
    requires forall j :: k <= j < z ==> WideUnit(data, pos, j) != 0
    ensures FirstZeroUnit(data, pos, k) == Some(z)
  {
    FirstZeroUnitIsFirst(data, pos, k);
  }

  /** The first k units after `pos`. */
  function UnitsAt(data: seq<byte>, pos: nat, k: nat): (us: seq<unit16>)
    requires pos + 2 * k <= |data|
    ensures |us| == k
    decreases k
  {
    if k == 0 then [] else UnitsAt(data, pos, k - 1) + [WideUnit(data, pos, k - 1)]
  }

  lemma {:induction false} UnitsAtIndex(data: seq<byte>, pos: nat, k: nat)
    requires pos + 2 * k <= |data|
    ensures forall i :: 0 <= i < k ==> UnitsAt(data, pos, k)[i] == WideUnit(data, pos, i)
    decreases k
  {
    if k > 0 {
      UnitsAtIndex(data, pos, k - 1);
    }
  }

  // ---------------------------------------------------------------------
  // The string parser.
  // ---------------------------------------------------------------------

  /** Bytes taken by the content and its terminator. */
  function ContentSize(t: Text): nat {
    match t
    case Narrow(bs) => |bs| + 1
    case Wide(us) => 2 * |us| + 2
  }

  /** Bytes taken by a whole string: size field, content, terminator. */
  function EncodedSize(s: ReplayString): nat {
    4 + ContentSize(s.content)
  }

  /** Construct's `replaystring`. A read that succeeds consumes exactly the
      size of what it returns. */
  function ParseReplayString(data: seq<byte>, pos: nat): (r: Parsed<ReplayString>)
    ensures r.Ok? ==> r.next == pos + EncodedSize(r.value) <= |data|
  {
    match ReadI32(data, pos)
    case Fail => Fail
    case Ok(size, p) =>
      if size >= 0 then
        match FirstZeroByte(data, p)
        case None => Fail
        case Some(z) =>
          if Decodable(Narrow(data[p..z])) then Ok(ReplayString(size, Narrow(data[p..z])), z + 1) else Fail
      else
        match FirstZeroUnit(data, p, 0)
        case None => Fail
        case Some(k) =>
          if Decodable(Wide(UnitsAt(data, p, k))) then Ok(ReplayString(size, Wide(UnitsAt(data, p, k))), p + 2 * k + 2)
          else Fail
  }

  /** A string the format can carry: a 32-bit size whose sign matches the
      content's width, and content that has no terminator inside and decodes. */
  predicate WellFormed(s: ReplayString) {
    && IsInt32(s.size)
    && (s.size >= 0 <==> s.content.Narrow?)
    && Unterminated(s.content)
    && Decodable(s.content)
  }

  /** Where a parsed string's parts lie: the size field is the signed 32-bit
      value at `pos`, its sign picks the width, and the content is the units
      between the size field and the first terminator, which is consumed. */
  lemma ReplayStringLayout(data: seq<byte>, pos: nat)
    requires ParseReplayString(data, pos).Ok?
    ensures var r := ParseReplayString(data, pos);
      && ReadI32(data, pos) == Ok(r.value.size, pos + 4)
      && (r.value.size >= 0 <==> r.value.content.Narrow?)
    ensures var r := ParseReplayString(data, pos);
      r.value.content.Narrow? ==>
        && r.next == pos + 4 + |r.value.content.bytes| + 1
        && data[pos + 4..r.next - 1] == r.value.content.bytes
        && data[r.next - 1] == 0
    ensures var r := ParseReplayString(data, pos);
      r.value.content.Wide? ==>
        && r.next == pos + 4 + 2 * |r.value.content.units| + 2
        && WideUnit(data, pos + 4, |r.value.content.units|) == 0
        && forall k :: 0 <= k < |r.value.content.units| ==> r.value.content.units[k] == WideUnit(data, pos + 4, k)
  {
    if ReadI32(data, pos).value >= 0 {
      FirstZeroByteIsFirst(data, pos + 4);
    } else {
      FirstZeroUnitIsFirst(data, pos + 4, 0);
      UnitsAtIndex(data, pos + 4, FirstZeroUnit(data, pos + 4, 0).value);
    }
  }

  /** Every string the parser returns is one the format can carry. */
  lemma ParsedStringWellFormed(data: seq<byte>, pos: nat)
    requires ParseReplayString(data, pos).Ok?
    ensures WellFormed(ParseReplayString(data, pos).value)
  {
    var p := pos + 4;
    if ReadI32(data, pos).value >= 0 {
      FirstZeroByteIsFirst(data, p);
      var z := FirstZeroByte(data, p).value;
      assert forall i :: 0 <= i < z - p ==> data[p..z][i] == data[p + i];
    } else {
      FirstZeroUnitIsFirst(data, p, 0);
      UnitsAtIndex(data, p, FirstZeroUnit(data, p, 0).value);
    }
  }

  /** A string with no terminator after its size field cannot be read. */
  lemma MissingTerminatorFails(data: seq<byte>, pos: nat)
    requires pos + 4 <= |data|
    requires ReadI32(data, pos).value >= 0 ==> forall j :: pos + 4 <= j < |data| ==> data[j] != 0
    requires ReadI32(data, pos).value < 0 ==>
      forall j: nat :: pos + 4 + 2 * j + 2 <= |data| ==> WideUnit(data, pos + 4, j) != 0
    ensures ParseReplayString(data, pos).Fail?
  {
    FirstZeroByteIsFirst(data, pos + 4);
    FirstZeroUnitIsFirst(data, pos + 4, 0);
  }

  // ---------------------------------------------------------------------
  // The encoder and its round trip.
  // ---------------------------------------------------------------------

  /** The two bytes of a 16-bit unit, least significant first. */
  function LowByte(u: unit16): byte { (u as int % 256) as byte }

  function HighByte(u: unit16): byte { (u as int / 256) as byte }

  /** A unit's two bytes read back as that unit. */
  lemma UnitOfBytes(data: seq<byte>, pos: nat, k: nat, u: unit16)
    requires pos + 2 * k + 2 <= |data|
    requires data[pos + 2 * k] == LowByte(u) && data[pos + 2 * k + 1] == HighByte(u)
    ensures WideUnit(data, pos, k) == u
  {
  }

  /** The unit read at a place splits back into the bytes it was read from. */
  lemma BytesOfUnit(data: seq<byte>, pos: nat, k: nat)
    requires pos + 2 * k + 2 <= |data|
    ensures LowByte(WideUnit(data, pos, k)) == data[pos + 2 * k]
    ensures HighByte(WideUnit(data, pos, k)) == data[pos + 2 * k + 1]
  {
  }

  lemma WideUnitShift(data: seq<byte>, pos: nat, k: nat)
    requires 1 <= k && pos + 2 * k + 2 <= |data|
    ensures WideUnit(data, pos, k) == WideUnit(data, pos + 2, k - 1)
  {
  }

  /** The 16-bit units as little-endian byte pairs. */
  function UnitsToBytes(us: seq<unit16>): (bs: seq<byte>)
    ensures |bs| == 2 * |us|
  {
    if |us| == 0 then [] else [LowByte(us[0]), HighByte(us[0])] + UnitsToBytes(us[1..])
  }

  /** The bytes of a string: size field, content, terminator. */
  function Encode(s: ReplayString): (bs: seq<byte>)
    ensures |bs| == EncodedSize(s)
  {
    EncodeI32(s.size) +
    match s.content
    case Narrow(b) => b + [0]
    case Wide(us) => UnitsToBytes(us) + [0, 0]
  }

  lemma {:induction false} UnitsToBytesAt(data: seq<byte>, pos: nat, us: seq<unit16>)
    requires IsAt(data, pos, UnitsToBytes(us))
    ensures forall k :: 0 <= k < |us| ==> pos + 2 * k + 2 <= |data| && WideUnit(data, pos, k) == us[k]
    decreases us
  {
    if |us| > 0 {
      var head := [LowByte(us[0]), HighByte(us[0])];
      IsAtSplit(data, pos, head, UnitsToBytes(us[1..]), pos + 2);
      UnitsToBytesAt(data, pos + 2, us[1..]);
      IsAtIndex(data, pos, head, 0);
      IsAtIndex(data, pos, head, 1);
      UnitOfBytes(data, pos, 0, us[0]);
      forall k | 1 <= k < |us|
        ensures WideUnit(data, pos, k) == us[k]
      {
        WideUnitShift(data, pos, k);
      }
    }
  }

  lemma NarrowContentAt(data: seq<byte>, p: nat, b: seq<byte>)
    requires Unterminated(Narrow(b))
    requires IsAt(data, p, b + [0])
    ensures FirstZeroByte(data, p) == Some(p + |b|)
    ensures data[p..p + |b|] == b
  {
    IsAtSplit(data, p, b, [0], p + |b|);
    IsAtIndex(data, p + |b|, [0], 0);
    IsAtSlice(data, p, b);
    forall j | p <= j < p + |b|
      ensures data[j] != 0
    {
      IsAtIndex(data, p, b, j - p);
    }
    FirstZeroByteFinds(data, p, p + |b|);
  }

  lemma WideContentAt(data: seq<byte>, p: nat, us: seq<unit16>)
    requires Unterminated(Wide(us))
    requires IsAt(data, p, UnitsToBytes(us) + [0, 0])
    ensures FirstZeroUnit(data, p, 0) == Some(|us|)
    ensures p + 2 * |us| <= |data| && UnitsAt(data, p, |us|) == us
  {
    IsAtSplit(data, p, UnitsToBytes(us), [0, 0], p + 2 * |us|);
    UnitsToBytesAt(data, p, us);
    IsAtIndex(data, p + 2 * |us|, [0, 0], 0);
    IsAtIndex(data, p + 2 * |us|, [0, 0], 1);
    assert WideUnit(data, p, |us|) == 0;
    FirstZeroUnitFinds(data, p, 0, |us|);
    UnitsAtIndex(data, p, |us|);
  }

  /** Every well-formed string is read back from its own bytes, whatever
      surrounds them: the two-way partner of ParseReplayString. */
  lemma ReplayStringRoundTrip(data: seq<byte>, pos: nat, s: ReplayString)
    requires WellFormed(s)
    requires IsAt(data, pos, Encode(s))
    ensures ParseReplayString(data, pos) == Ok(s, pos + |Encode(s)|)
  {
    var body := match s.content
      case Narrow(b) => b + [0]
      case Wide(us) => UnitsToBytes(us) + [0, 0];
    IsAtSplit(data, pos, EncodeI32(s.size), body, pos + 4);
    ReadI32RoundTrip(data, pos, s.size);
    match s.content
    case Narrow(b) => NarrowContentAt(data, pos + 4, b);
    case Wide(us) => WideContentAt(data, pos + 4, us);
  }

  lemma {:induction false} UnitsToBytesOfScan(data: seq<byte>, pos: nat, us: seq<unit16>)
    requires pos + 2 * |us| <= |data|
    requires forall k :: 0 <= k < |us| ==> us[k] == WideUnit(data, pos, k)
    ensures data[pos..pos + 2 * |us|] == UnitsToBytes(us)
    decreases us
  {
    if |us| > 0 {
      forall k | 0 <= k < |us| - 1
        ensures us[1..][k] == WideUnit(data, pos + 2, k)
      {
        WideUnitShift(data, pos, k + 1);
      }
      UnitsToBytesOfScan(data, pos + 2, us[1..]);
      BytesOfUnit(data, pos, 0);
      assert data[pos..pos + 2] == [LowByte(us[0]), HighByte(us[0])];
      assert data[pos..pos + 2 * |us|] == data[pos..pos + 2] + data[pos + 2..pos + 2 * |us|];
    }
  }

  lemma SizeFieldReencodes(data: seq<byte>, pos: nat)
    requires pos + 4 <= |data|
    ensures data[pos..pos + 4] == EncodeI32(ReadI32(data, pos).value)
  {
    var u := U32At(data, pos);
    U32AtIsLittleEndian(data, pos);
    ToLittleEndianOfLittleEndian(data[pos..pos + 4]);
    Int32OfResidue(u);
  }

  lemma SplitThree(data: seq<byte>, a: nat, b: nat, c: nat, d: nat)
    requires a <= b <= c <= d <= |data|
    ensures data[a..d] == data[a..b] + (data[b..c] + data[c..d])
  {
  }

  /** Size field, content and terminator, laid end to end. */
  lemma ThreeParts(data: seq<byte>, pos: nat, w: seq<byte>, t: seq<byte>, q: nat)
    requires q == pos + 4 + |w| + |t| <= |data|
    requires data[pos + 4..q - |t|] == w && data[q - |t|..q] == t
    ensures data[pos..q] == data[pos..pos + 4] + (w + t)
  {
    SplitThree(data, pos, pos + 4, q - |t|, q);
  }

  lemma ZeroUnitBytes(data: seq<byte>, p: nat, k: nat)
    requires p + 2 * k + 2 <= |data|
    requires WideUnit(data, p, k) == 0
    ensures data[p + 2 * k..p + 2 * k + 2] == [0, 0]
  {
  }

  /** A parsed string re-encodes to exactly the bytes it was read from,
      including the size field as found. */
  lemma ParsedStringReencodes(data: seq<byte>, pos: nat)
    requires ParseReplayString(data, pos).Ok?
    ensures var r := ParseReplayString(data, pos);
      data[pos..r.next] == Encode(r.value)
  {
    var r := ParseReplayString(data, pos);
    var s := r.value;
    ReplayStringLayout(data, pos);
    SizeFieldReencodes(data, pos);
    match s.content
    case Narrow(b) =>
      ThreeParts(data, pos, b, [0], r.next);
    case Wide(us) =>
      UnitsToBytesOfScan(data, pos + 4, us);
      ZeroUnitBytes(data, pos + 4, |us|);
      ThreeParts(data, pos, UnitsToBytes(us), [0, 0], r.next);
  }

  // ---------------------------------------------------------------------
  // Which bytes a string read depends on.
  // ---------------------------------------------------------------------

  /** A string read looks only at the bytes it consumes: any input that
      agrees on a range covering them reads the same string. */
  lemma ReplayStringFrame(data: seq<byte>, data2: seq<byte>, lo: nat, hi: nat, pos: nat)
    requires ParseReplayString(data, pos).Ok?
    requires Agree(data, data2, lo, hi) && lo <= pos && ParseReplayString(data, pos).next <= hi
    ensures ParseReplayString(data2, pos) == ParseReplayString(data, pos)
  {
    var p := pos + 4;
    ReadI32Frame(data, data2, lo, hi, pos);
    if ReadI32(data, pos).value >= 0 {
      FirstZeroByteIsFirst(data, p);
      var z := FirstZeroByte(data, p).value;
      assert AgreeAt(data, data2, z);
      forall i | p <= i < z
        ensures data2[i] == data[i]
      {
        assert AgreeAt(data, data2, i);
      }
      FirstZeroByteFinds(data2, p, z);
      assert data2[p..z] == data[p..z];
    } else {
      FirstZeroUnitIsFirst(data, p, 0);
      var k := FirstZeroUnit(data, p, 0).value;
      assert forall j :: 0 <= j <= k ==> WideUnit(data2, p, j) == WideUnit(data, p, j) by {
        forall j | 0 <= j <= k
          ensures WideUnit(data2, p, j) == WideUnit(data, p, j)
        {
          assert AgreeAt(data, data2, p + 2 * j) && AgreeAt(data, data2, p + 2 * j + 1);
        }
      }
      FirstZeroUnitFinds(data2, p, 0, k);
      UnitsAtIndex(data, p, k);
      UnitsAtIndex(data2, p, k);
      assert UnitsAt(data2, p, k) == UnitsAt(data, p, k);
    }
  }

  lemma {:induction false} FirstZeroByteSuffix(data: seq<byte>, data2: seq<byte>, i: nat)
    requires |data| == |data2|
    requires forall j :: i <= j < |data| ==> data[j] == data2[j]
    ensures FirstZeroByte(data2, i) == FirstZeroByte(data, i)
    decreases |data| - i
  {
    if i < |data| && data[i] != 0 {
      FirstZeroByteSuffix(data, data2, i + 1);
    }
  }

  lemma {:induction false} FirstZeroUnitSuffix(data: seq<byte>, data2: seq<byte>, pos: nat, k: nat)
    requires |data| == |data2|
    requires forall j :: pos <= j < |data| ==> data[j] == data2[j]
    ensures FirstZeroUnit(data2, pos, k) == FirstZeroUnit(data, pos, k)
    decreases |data| - (pos + 2 * k)
  {
    if pos + 2 * k + 2 <= |data| {
      assert WideUnit(data2, pos, k) == WideUnit(data, pos, k);
      if WideUnit(data, pos, k) != 0 {
        FirstZeroUnitSuffix(data, data2, pos, k + 1);
      }
    }
  }

  lemma UnitsAtSuffix(data: seq<byte>, data2: seq<byte>, pos: nat, k: nat)
    requires |data| == |data2| && pos + 2 * k <= |data|
    requires forall j :: pos <= j < |data| ==> data[j] == data2[j]
    ensures UnitsAt(data2, pos, k) == UnitsAt(data, pos, k)
  {
    UnitsAtIndex(data, pos, k);
    UnitsAtIndex(data2, pos, k);
    forall i | 0 <= i < k
      ensures WideUnit(data2, pos, i) == WideUnit(data, pos, i)
    {
      assert data2[pos + 2 * i] == data[pos + 2 * i] && data2[pos + 2 * i + 1] == data[pos + 2 * i + 1];
    }
  }

  /** Only the sign of the size field matters: two inputs that differ only in
      the size value, with the same sign, read the same content and end at the
      same place (or both fail). */
  lemma SizeMagnitudeIgnored(data: seq<byte>, data2: seq<byte>, pos: nat)
    requires |data| == |data2| && pos + 4 <= |data|
    requires forall i :: 0 <= i < |data| && !(pos <= i < pos + 4) ==> data[i] == data2[i]
    requires ReadI32(data, pos).value >= 0 <==> ReadI32(data2, pos).value >= 0
    ensures ParseReplayString(data, pos).Ok? <==> ParseReplayString(data2, pos).Ok?
    ensures ParseReplayString(data, pos).Ok? ==>
      && ParseReplayString(data2, pos).value.content == ParseReplayString(data, pos).value.content
      && ParseReplayString(data2, pos).next == ParseReplayString(data, pos).next
  {
    var p := pos + 4;
    FirstZeroByteSuffix(data, data2, p);
    FirstZeroUnitSuffix(data, data2, p, 0);
    if FirstZeroByte(data, p).Some? {
      var z := FirstZeroByte(data, p).value;
      assert data2[p..z] == data[p..z];
    }
    if FirstZeroUnit(data, p, 0).Some? {
      UnitsAtSuffix(data, data2, p, FirstZeroUnit(data, p, 0).value);
    }
  }
}
