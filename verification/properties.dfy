/** Header properties: typed key-value pairs gathered into property lists
    that end at a pair whose key reads "None".

    A pair is a key string; unless the key is "None" it continues with a
    value-type string, 8 skipped bytes, and a value whose shape the value-type
    string selects from a closed table. The table's `ArrayProperty` entry is a
    u32-count-prefixed array of property lists, so the grammar is recursive;
    every key consumes at least 5 bytes, which is what makes the recursion end. */
module Properties {
  import opened Parsing
  import opened ReplayStrings

  /** The rows of the value-type dispatch table. */
  datatype ValueKind =
    | BoolProperty
    | ByteProperty
    | FloatProperty
    | IntProperty
    | NameProperty
    | StrProperty
    | QWordProperty
    | ArrayProperty

  /** The value-type string that selects each row. */
  function TagName(k: ValueKind): string {
    match k
    case BoolProperty => "BoolProperty"
    case ByteProperty => "ByteProperty"
    case FloatProperty => "FloatProperty"
    case IntProperty => "IntProperty"
    case NameProperty => "NameProperty"
    case StrProperty => "StrProperty"
    case QWordProperty => "QWordProperty"
    case ArrayProperty => "ArrayProperty"
  }

  /** The table's rows in the order the dictionary lists them. */
  const KINDS: seq<ValueKind> :=
    [BoolProperty, ByteProperty, FloatProperty, IntProperty,
     NameProperty, StrProperty, QWordProperty, ArrayProperty]

  /** The first of `rows` whose name the tag spells, if any. */
  function Lookup(tag: Text, rows: seq<ValueKind>): Option<ValueKind> {
    if |rows| == 0 then None
    else if Spells(tag, TagName(rows[0])) then Some(rows[0])
    else Lookup(tag, rows[1..])
  }

  /** What the lookup finds is a row whose name the tag spells. */
  lemma {:induction false} LookupFinds(tag: Text, rows: seq<ValueKind>)
    ensures var r := Lookup(tag, rows);
      r.Some? ==> r.value in rows && Spells(tag, TagName(r.value))
  {
    if |rows| > 0 && !Spells(tag, TagName(rows[0])) {
      LookupFinds(tag, rows[1..]);
    }
  }

  /** The lookup finds nothing exactly when no row's name is spelled. */
  lemma {:induction false} LookupMisses(tag: Text, rows: seq<ValueKind>)
    ensures Lookup(tag, rows).None? <==> forall i :: 0 <= i < |rows| ==> !Spells(tag, TagName(rows[i]))
  {
    if |rows| > 0 {
      LookupMisses(tag, rows[1..]);
      assert forall i :: 1 <= i < |rows| ==> rows[i] == rows[1..][i - 1];
    }
  }

  /** Looking a value-type string up in the table. A tag that is in no row is
      `None`: the model treats it as a parse failure. */
  function Dispatch(tag: Text): Option<ValueKind> {
    Lookup(tag, KINDS)
  }

  /** Every row of the table is listed. */
  lemma KindListed(k: ValueKind)
    ensures k in KINDS
  {
    match k
    case BoolProperty => assert KINDS[0] == k;
    case ByteProperty => assert KINDS[1] == k;
    case FloatProperty => assert KINDS[2] == k;
    case IntProperty => assert KINDS[3] == k;
    case NameProperty => assert KINDS[4] == k;
    case StrProperty => assert KINDS[5] == k;
    case QWordProperty => assert KINDS[6] == k;
    case ArrayProperty => assert KINDS[7] == k;
  }

  /** The lookup fails exactly on a tag that names no row. */
  lemma DispatchFailsIffUnknown(tag: Text)
    ensures Dispatch(tag).None? <==> forall k :: !Spells(tag, TagName(k))
  {
    LookupMisses(tag, KINDS);
    if Dispatch(tag).None? {
      forall k ensures !Spells(tag, TagName(k)) {
        KindListed(k);
      }
    }
  }

  /** A tag that names a row selects that row: no two rows share a name. */
  lemma DispatchFinds(tag: Text, k: ValueKind)
    requires Spells(tag, TagName(k))
    ensures Dispatch(tag) == Some(k)
  {
    DispatchFailsIffUnknown(tag);
    LookupFinds(tag, KINDS);
    var r := Dispatch(tag).value;
    SpellsUnique(tag, TagName(k), TagName(r));
    TagNameInjective(k, r);
  }

  /** The first two letters of a row's name tell the rows apart. */
  lemma TagNameInjective(k: ValueKind, k2: ValueKind)
    requires TagName(k) == TagName(k2)
    ensures k == k2
  {
    assert TagName(k)[..2] == TagName(k2)[..2];
  }

  /** One decoded value. Floats are kept as their raw 32-bit pattern. */
  datatype PropertyValue =
    | BoolValue(flag: bool)
    | ByteValue(first: ReplayString, second: ReplayString)
    | FloatValue(bits: nat)
    | IntValue(int32: int)
    | NameValue(name: ReplayString)
    | StrValue(str: ReplayString)
    | QWordValue(int64: int)
    | ArrayValue(elements: seq<PropertyList>)

  /** One element of a property list: either the terminating pair, which holds
      only its key, or a full key / value-type / value triple. */
  datatype KeyValuePair =
    | Sentinel(key: ReplayString)
    | Pair(key: ReplayString, valueType: ReplayString, value: PropertyValue)

  /** The pairs read by one RepeatUntil, the terminating pair included. */
  datatype PropertyList = PropertyList(entries: seq<KeyValuePair>)

  const SENTINEL: string := "None"

  /** The key that ends a property list. */
  predicate IsSentinelKey(key: ReplayString) {
    Spells(key.content, SENTINEL)
  }

  /** The table row a value belongs to. */
  function KindOf(v: PropertyValue): ValueKind {
    match v
    case BoolValue(_) => BoolProperty
    case ByteValue(_, _) => ByteProperty
    case FloatValue(_) => FloatProperty
    case IntValue(_) => IntProperty
    case NameValue(_) => NameProperty
    case StrValue(_) => StrProperty
    case QWordValue(_) => QWordProperty
    case ArrayValue(_) => ArrayProperty
  }

  /** Values the format can carry: integers in their field's range, strings
      well formed, arrays no longer than a u32 count, nested lists well formed. */
  predicate WellFormedValue(v: PropertyValue) {
    match v
    case BoolValue(_) => true
    case ByteValue(a, b) => WellFormed(a) && WellFormed(b)
    case FloatValue(bits) => bits < TWO_32
    case IntValue(i) => IsInt32(i)
    case NameValue(s) => WellFormed(s)
    case StrValue(s) => WellFormed(s)
    case QWordValue(q) => IsInt64(q)
    case ArrayValue(ls) => |ls| < TWO_32 && WellFormedLists(ls)
  }

  predicate WellFormedLists(ls: seq<PropertyList>) {
    |ls| == 0 || (WellFormedList(ls[0]) && WellFormedLists(ls[1..]))
  }

  /** A property list is non-empty, ends with the sentinel, and has no
      sentinel before its end (see WellFormedEntriesIff for the element-wise
      reading). */
  predicate WellFormedList(l: PropertyList) {
    WellFormedEntries(l.entries)
  }

  predicate WellFormedEntries(es: seq<KeyValuePair>) {
    && |es| >= 1
    && WellFormedEntry(es[0])
    && if |es| == 1 then es[0].Sentinel? else es[0].Pair? && WellFormedEntries(es[1..])
  }

  /** A pair is the sentinel exactly when its key reads "None"; a full pair's
      value-type string names the row its value belongs to. */
  predicate WellFormedEntry(kv: KeyValuePair) {
    match kv
    case Sentinel(key) => WellFormed(key) && IsSentinelKey(key)
    case Pair(key, vt, v) =>
      && WellFormed(key) && !IsSentinelKey(key)
      && WellFormed(vt) && Dispatch(vt.content) == Some(KindOf(v))
      && WellFormedValue(v)
  }

  /** The 8 bytes between a value-type string and its value. The parser skips
      them unread; the encoder writes zeros. */
  const PADDING: seq<byte> := [0, 0, 0, 0, 0, 0, 0, 0]

  /** Bytes each part takes in the stream. */
  function ValueSize(v: PropertyValue): nat {
    match v
    case BoolValue(_) => 1
    case ByteValue(a, b) => EncodedSize(a) + EncodedSize(b)
    case FloatValue(_) => 4
    case IntValue(_) => 4
    case NameValue(s) => EncodedSize(s)
    case StrValue(s) => EncodedSize(s)
    case QWordValue(_) => 8
    case ArrayValue(ls) => 4 + ListsSize(ls)
  }

  function ListsSize(ls: seq<PropertyList>): nat {
    if |ls| == 0 then 0 else ListSize(ls[0]) + ListsSize(ls[1..])
  }

  function ListSize(l: PropertyList): nat {
    EntriesSize(l.entries)
  }

  function EntriesSize(es: seq<KeyValuePair>): nat {
    if |es| == 0 then 0 else EntrySize(es[0]) + EntriesSize(es[1..])
  }

  function EntrySize(kv: KeyValuePair): nat {
    match kv
    case Sentinel(key) => EncodedSize(key)
    case Pair(key, vt, v) => EncodedSize(key) + EncodedSize(vt) + |PADDING| + ValueSize(v)
  }

  function EncodeValue(v: PropertyValue): (bs: seq<byte>)
    ensures |bs| == ValueSize(v)
  {
    match v
    case BoolValue(b) => [if b then 1 else 0]
    case ByteValue(a, b) => Encode(a) + Encode(b)
    case FloatValue(bits) => EncodeU32(bits)
    case IntValue(i) => EncodeI32(i)
    case NameValue(s) => Encode(s)
    case StrValue(s) => Encode(s)
    case QWordValue(q) => EncodeI64(q)
    case ArrayValue(ls) => EncodeU32(|ls|) + EncodeLists(ls)
  }

  function EncodeLists(ls: seq<PropertyList>): (bs: seq<byte>)
    ensures |bs| == ListsSize(ls)
  {
    if |ls| == 0 then [] else EncodeList(ls[0]) + EncodeLists(ls[1..])
  }

  function EncodeList(l: PropertyList): (bs: seq<byte>)
    ensures |bs| == ListSize(l)
  {
    EncodeEntries(l.entries)
  }

  function EncodeEntries(es: seq<KeyValuePair>): (bs: seq<byte>)
    ensures |bs| == EntriesSize(es)
  {
    if |es| == 0 then [] else EncodeEntry(es[0]) + EncodeEntries(es[1..])
  }

  function EncodeEntry(kv: KeyValuePair): (bs: seq<byte>)
    ensures |bs| == EntrySize(kv)
  {
    match kv
    case Sentinel(key) => Encode(key)
    case Pair(key, vt, v) => Encode(key) + Encode(vt) + PADDING + EncodeValue(v)
  }

  /** One value of the row `kind`, read at `pos` (the `Switch` over the
      table). Each row consumes a fixed shape: one byte, four, eight, one or
      two strings, or a u32 count followed by exactly that many lists. */
  function ParseValue(data: seq<byte>, pos: nat, kind: ValueKind): (r: Parsed<PropertyValue>)
    ensures r.Ok? ==> pos + 1 <= r.next <= |data|
    decreases |data| - pos, 1, 0
  {
    match kind
    case BoolProperty =>
      (match ReadU8(data, pos)
       case Fail => Fail
       case Ok(b, p) => Ok(BoolValue(b != 0), p))
    case ByteProperty =>
      (match ParseReplayString(data, pos)
       case Fail => Fail
       case Ok(a, p) =>
         match ParseReplayString(data, p)
         case Fail => Fail
         case Ok(b, q) => Ok(ByteValue(a, b), q))
    case FloatProperty =>
      (match ReadU32(data, pos)
       case Fail => Fail
       case Ok(bits, p) => Ok(FloatValue(bits), p))
    case IntProperty =>
      (match ReadI32(data, pos)
       case Fail => Fail
       case Ok(i, p) => Ok(IntValue(i), p))
    case NameProperty =>
      (match ParseReplayString(data, pos)
       case Fail => Fail
       case Ok(s, p) => Ok(NameValue(s), p))
    case StrProperty =>
      (match ParseReplayString(data, pos)
       case Fail => Fail
       case Ok(s, p) => Ok(StrValue(s), p))
    case QWordProperty =>
      (match ReadI64(data, pos)
       case Fail => Fail
       case Ok(q, p) => Ok(QWordValue(q), p))
    case ArrayProperty =>
      match ReadU32(data, pos)
      case Fail => Fail
      case Ok(n, p) =>
        match ParseLists(data, p, n)
        case Fail => Fail
        case Ok(ls, q) => Ok(ArrayValue(ls), q)
  }

  /** Exactly n property lists, one after another (the array part of
      `PrefixedArray(Int32ul, property_array)`). */
  function ParseLists(data: seq<byte>, pos: nat, n: nat): (r: Parsed<seq<PropertyList>>)
    requires pos <= |data|
    ensures r.Ok? ==> pos <= r.next <= |data|
    ensures r.Ok? ==> |r.value| == n
    decreases |data| - pos, 4, n
  {
    if n == 0 then Ok([], pos)
    else
      match ParsePropertyList(data, pos)
      case Fail => Fail
      case Ok(l, p) =>
        match ParseLists(data, p, n - 1)
        case Fail => Fail
        case Ok(ls, q) => Ok([l] + ls, q)
  }

  /** `key_value_pair`: a key; if it reads "None", nothing more. Otherwise a
      value-type string, a forward seek of 8 bytes, and the value its row
      describes. */
  function ParseKeyValuePair(data: seq<byte>, pos: nat): (r: Parsed<KeyValuePair>)
    ensures r.Ok? ==> pos + 5 <= r.next <= |data|
    decreases |data| - pos, 2, 0
  {
    match ParseReplayString(data, pos)
    case Fail => Fail
    case Ok(key, p1) =>
      if IsSentinelKey(key) then Ok(Sentinel(key), p1)
      else
        match ParseReplayString(data, p1)
        case Fail => Fail
        case Ok(vt, p2) =>
          match ParseTypedValue(data, p2 + |PADDING|, vt.content)
          case Fail => Fail
          case Ok(v, p3) => Ok(Pair(key, vt, v), p3)
  }

  /** The value after the skipped bytes: the row the value-type string names
      (an unknown name fails), then that row's value. */
  function ParseTypedValue(data: seq<byte>, pos: nat, tag: Text): (r: Parsed<PropertyValue>)
    ensures r.Ok? ==> pos + 1 <= r.next <= |data|
    decreases |data| - pos, 1, 1
  {
    match Dispatch(tag)
    case None => Fail
    case Some(kind) => ParseValue(data, pos, kind)
  }

  /** `RepeatUntil(obj_.key.content == 'None', key_value_pair)`: pairs up to
      and including the first whose key reads "None". */
  function ParsePropertyList(data: seq<byte>, pos: nat): (r: Parsed<PropertyList>)
    ensures r.Ok? ==> pos + 5 <= r.next <= |data|
    decreases |data| - pos, 3, 0
  {
    match ParseKeyValuePair(data, pos)
    case Fail => Fail
    case Ok(kv, p) =>
      if IsSentinelKey(kv.key) then Ok(PropertyList([kv]), p)
      else
        match ParsePropertyList(data, p)
        case Fail => Fail
        case Ok(rest, q) => Ok(PropertyList([kv] + rest.entries), q)
  }

  /** The element-wise reading of WellFormedList: at least one pair, the last
      one the sentinel, every earlier one a full pair, all of them well formed. */
  lemma {:induction false} WellFormedEntriesIff(es: seq<KeyValuePair>)
    ensures WellFormedEntries(es) <==>
      && |es| >= 1
      && es[|es| - 1].Sentinel?
      && (forall i :: 0 <= i < |es| - 1 ==> es[i].Pair?)
      && (forall i :: 0 <= i < |es| ==> WellFormedEntry(es[i]))
    decreases es
  {
    if |es| > 1 {
      WellFormedEntriesIff(es[1..]);
      assert forall i :: 1 <= i < |es| ==> es[i] == es[1..][i - 1];
    }
  }
}
