/** What a successful property read returns: a value of the row that was
    asked for, a list shaped the way RepeatUntil builds it (pairs up to and
    including the first "None" key, and nothing after it), and everything the
    encoder can write back. Each read consumes exactly the encoded size of
    what it returns. */
module PropertyShape {
  import opened Parsing
  import opened ReplayStrings
  import opened Properties
  import opened PropertyLemmas

  /** Bytes each fixed-width row consumes; strings and arrays have none. */
  function FixedWidth(kind: ValueKind): Option<nat> {
    match kind
    case BoolProperty => Some(1)
    case FloatProperty => Some(4)
    case IntProperty => Some(4)
    case QWordProperty => Some(8)
    case _ => None
  }

  /** A fixed-width row is read exactly when its bytes are there, and then
      consumes exactly that many: one byte for a flag, four for a float or an
      int, eight for a qword. */
  lemma FixedWidthValue(data: seq<byte>, pos: nat, kind: ValueKind)
    requires FixedWidth(kind).Some?
    ensures ParseValue(data, pos, kind).Ok? <==> pos + FixedWidth(kind).value <= |data|
    ensures ParseValue(data, pos, kind).Ok? ==> ParseValue(data, pos, kind).next == pos + FixedWidth(kind).value
  {
  }

  /** A value read returns a value of the row asked for, one the format can
      carry, and consumes exactly its encoded size. */
  lemma {:induction false} ParsedValueShape(data: seq<byte>, pos: nat, kind: ValueKind)
    requires ParseValue(data, pos, kind).Ok?
    ensures var v := ParseValue(data, pos, kind).value;
      && KindOf(v) == kind && WellFormedValue(v)
      && ParseValue(data, pos, kind).next == pos + ValueSize(v)
    decreases |data| - pos, 1, 0
  {
    match kind
    case ByteProperty =>
      var p := ParseReplayString(data, pos).next;
      ParsedStringWellFormed(data, pos);
      ParsedStringWellFormed(data, p);
    case NameProperty => ParsedStringWellFormed(data, pos);
    case StrProperty => ParsedStringWellFormed(data, pos);
    case ArrayProperty =>
      var p := pos + 4;
      var n := ReadU32(data, pos).value;
      ParsedListsShape(data, p, n);
    case _ =>
  }

  /** The value after the skipped bytes belongs to the row its value-type
      string names. */
  lemma {:induction false} ParsedTypedValueShape(data: seq<byte>, pos: nat, tag: Text)
    requires ParseTypedValue(data, pos, tag).Ok?
    ensures var v := ParseTypedValue(data, pos, tag).value;
      && Dispatch(tag) == Some(KindOf(v)) && WellFormedValue(v)
      && ParseTypedValue(data, pos, tag).next == pos + ValueSize(v)
    decreases |data| - pos, 1, 1
  {
    ParsedValueShape(data, pos, Dispatch(tag).value);
  }

  /** A pair read is the sentinel exactly when its key reads "None"; the
      sentinel consumes only its key, a full pair its key, its value-type
      string, the 8 skipped bytes and its value. */
  lemma {:induction false} ParsedPairShape(data: seq<byte>, pos: nat)
    requires ParseKeyValuePair(data, pos).Ok?
    ensures var kv := ParseKeyValuePair(data, pos).value;
      && (kv.Sentinel? <==> IsSentinelKey(kv.key))
      && WellFormedEntry(kv)
      && ParseKeyValuePair(data, pos).next == pos + EntrySize(kv)
    decreases |data| - pos, 2, 0
  {
    var key := ParseReplayString(data, pos).value;
    var p1 := ParseReplayString(data, pos).next;
    ParsedStringWellFormed(data, pos);
    if !IsSentinelKey(key) {
      var p2 := ParseReplayString(data, p1).next;
      var p3 := p2 + |PADDING|;
      ParsedStringWellFormed(data, p1);
      ParsedTypedValueShape(data, p3, ParseReplayString(data, p1).value.content);
    }
  }

  /** A property-list read is one RepeatUntil: it stops at the first "None"
      key, keeps that pair, and its result is a well-formed list of exactly
      the size it consumed. */
  lemma {:induction false} ParsedListShape(data: seq<byte>, pos: nat)
    requires ParsePropertyList(data, pos).Ok?
    ensures var l := ParsePropertyList(data, pos).value;
      && WellFormedList(l)
      && ParsePropertyList(data, pos).next == pos + ListSize(l)
    decreases |data| - pos, 3, 0
  {
    var kv := ParseKeyValuePair(data, pos).value;
    var p := ParseKeyValuePair(data, pos).next;
    ParsedPairShape(data, pos);
    if !IsSentinelKey(kv.key) {
      var rest := ParsePropertyList(data, p).value.entries;
      var q := ParsePropertyList(data, p).next;
      ParsedListShape(data, p);
      ConsStep(data, pos, kv, p, rest, q);
      assert ([kv] + rest)[0] == kv && ([kv] + rest)[1..] == rest;
    } else {
      assert [kv][1..] == [];
      assert ParsePropertyList(data, pos) == Ok(PropertyList([kv]), p);
      assert EntriesSize([kv]) == EntrySize(kv);
      assert p == pos + EntrySize(kv);
    }
  }

  lemma {:induction false} ParsedListsShape(data: seq<byte>, pos: nat, n: nat)
    requires pos <= |data| && ParseLists(data, pos, n).Ok?
    ensures var ls := ParseLists(data, pos, n).value;
      && WellFormedLists(ls)
      && ParseLists(data, pos, n).next == pos + ListsSize(ls)
    decreases |data| - pos, 4, n
  {
    if n > 0 {
      var l := ParsePropertyList(data, pos).value;
      var p := ParsePropertyList(data, pos).next;
      var m := n - 1;
      ParsedListShape(data, pos);
      ParsedListsShape(data, p, m);
      assert ([l] + ParseLists(data, p, m).value)[1..] == ParseLists(data, p, m).value;
    }
  }

  /** A well-formed list ends with its only "None" key. */
  lemma EntriesStopAtFirstNone(es: seq<KeyValuePair>)
    requires WellFormedEntries(es)
    ensures |es| >= 1
    ensures es[|es| - 1].Sentinel? && IsSentinelKey(es[|es| - 1].key)
    ensures forall i :: 0 <= i < |es| - 1 ==> es[i].Pair? && !IsSentinelKey(es[i].key)
  {
    WellFormedEntriesIff(es);
    assert forall i :: 0 <= i < |es| ==> WellFormedEntry(es[i]);
  }

  /** The element-wise reading of a parsed list: it is not empty, its last
      pair is the sentinel with key "None", and no earlier pair has that key. */
  lemma ParsedListStopsAtFirstNone(data: seq<byte>, pos: nat)
    requires ParsePropertyList(data, pos).Ok?
    ensures var es := ParsePropertyList(data, pos).value.entries;
      && |es| >= 1
      && es[|es| - 1].Sentinel? && IsSentinelKey(es[|es| - 1].key)
      && forall i :: 0 <= i < |es| - 1 ==> es[i].Pair? && !IsSentinelKey(es[i].key)
  {
    ParsedListShape(data, pos);
    EntriesStopAtFirstNone(ParsePropertyList(data, pos).value.entries);
  }
}
