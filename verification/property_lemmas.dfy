/** What the property decoder promises beyond its contracts: every well-formed
    property list is read back from its own encoding, a successful read looks
    only at the bytes it consumed, and the 8 skipped bytes of a pair are never
    looked at. */
module PropertyLemmas {
  import opened Parsing
  import opened ReplayStrings
  import opened Properties

  // ---------------------------------------------------------------------
  // One step of each parser, from the results of the parsers it calls.
  // ---------------------------------------------------------------------

  lemma {:induction false} SentinelStep(data: seq<byte>, pos: nat, key: ReplayString, p: nat)
    requires ParseReplayString(data, pos) == Ok(key, p) && IsSentinelKey(key)
    ensures ParseKeyValuePair(data, pos) == Ok(Sentinel(key), p)
  {
  }

  lemma {:induction false} PairStep(data: seq<byte>, pos: nat, key: ReplayString, p1: nat, vt: ReplayString, p2: nat,
                 v: PropertyValue, p3: nat)
    requires ParseReplayString(data, pos) == Ok(key, p1) && !IsSentinelKey(key)
    requires ParseReplayString(data, p1) == Ok(vt, p2)
    requires ParseTypedValue(data, p2 + |PADDING|, vt.content) == Ok(v, p3)
    ensures ParseKeyValuePair(data, pos) == Ok(Pair(key, vt, v), p3)
  {
  }

  lemma {:induction false} ConsStep(data: seq<byte>, pos: nat, kv: KeyValuePair, p: nat, rest: seq<KeyValuePair>, q: nat)
    requires ParseKeyValuePair(data, pos) == Ok(kv, p) && !IsSentinelKey(kv.key)
    requires ParsePropertyList(data, p) == Ok(PropertyList(rest), q)
    ensures ParsePropertyList(data, pos) == Ok(PropertyList([kv] + rest), q)
  {
  }

  lemma {:induction false} ListsStep(data: seq<byte>, pos: nat, n: nat, l: PropertyList, p: nat, m: nat,
                  ls: seq<PropertyList>, q: nat)
    requires n == m + 1 && pos <= |data|
    requires ParsePropertyList(data, pos) == Ok(l, p)
    requires ParseLists(data, p, m) == Ok(ls, q)
    ensures ParseLists(data, pos, n) == Ok([l] + ls, q)
  {
  }

  lemma {:induction false} LastStep(data: seq<byte>, pos: nat, kv: KeyValuePair, p: nat)
    requires ParseKeyValuePair(data, pos) == Ok(kv, p) && kv.Sentinel?
    ensures ParsePropertyList(data, pos) == Ok(PropertyList([kv]), p)
  {
  }

  // ---------------------------------------------------------------------
  // Round trip: encode, then parse, gives back the value.
  // ---------------------------------------------------------------------

  lemma {:induction false} ValueRoundTrip(data: seq<byte>, pos: nat, v: PropertyValue)
    requires WellFormedValue(v)
    requires IsAt(data, pos, EncodeValue(v))
    ensures ParseValue(data, pos, KindOf(v)) == Ok(v, pos + |EncodeValue(v)|)
    decreases v, 1
  {
    match v
    case ArrayValue(_) => ArrayRoundTrip(data, pos, v);
    case ByteValue(_, _) => TextValueRoundTrip(data, pos, v);
    case NameValue(_) => TextValueRoundTrip(data, pos, v);
    case StrValue(_) => TextValueRoundTrip(data, pos, v);
    case _ => NumberValueRoundTrip(data, pos, v);
  }

  /** The rows read by a fixed-width number reader. */
  lemma {:induction false} NumberValueRoundTrip(data: seq<byte>, pos: nat, v: PropertyValue)
    requires v.BoolValue? || v.FloatValue? || v.IntValue? || v.QWordValue?
    requires WellFormedValue(v)
    requires IsAt(data, pos, EncodeValue(v))
    ensures ParseValue(data, pos, KindOf(v)) == Ok(v, pos + |EncodeValue(v)|)
  {
    match v
    case BoolValue(b) => ReadU8RoundTrip(data, pos, if b then 1 else 0);
    case FloatValue(bits) => ReadU32RoundTrip(data, pos, bits);
    case IntValue(i) => ReadI32RoundTrip(data, pos, i);
    case QWordValue(q) => ReadI64RoundTrip(data, pos, q);
  }

  /** The rows read by one or two replay strings. */
  lemma {:induction false} TextValueRoundTrip(data: seq<byte>, pos: nat, v: PropertyValue)
    requires v.ByteValue? || v.NameValue? || v.StrValue?
    requires WellFormedValue(v)
    requires IsAt(data, pos, EncodeValue(v))
    ensures ParseValue(data, pos, KindOf(v)) == Ok(v, pos + |EncodeValue(v)|)
  {
    match v
    case ByteValue(a, b) => ByteValueRoundTrip(data, pos, a, b);
    case NameValue(s) => ReplayStringRoundTrip(data, pos, s);
    case StrValue(s) => ReplayStringRoundTrip(data, pos, s);
  }

  lemma {:induction false} ByteValueRoundTrip(data: seq<byte>, pos: nat, a: ReplayString, b: ReplayString)
    requires WellFormed(a) && WellFormed(b)
    requires IsAt(data, pos, Encode(a) + Encode(b))
    ensures ParseValue(data, pos, ByteProperty) == Ok(ByteValue(a, b), pos + |Encode(a)| + |Encode(b)|)
  {
    var p := pos + |Encode(a)|;
    TwoStringsRoundTrip(data, pos, a, b);
    ByteValueStep(data, pos, a, p, b, p + |Encode(b)|);
  }

  lemma ByteValueStep(data: seq<byte>, pos: nat, a: ReplayString, p: nat, b: ReplayString, q: nat)
    requires ParseReplayString(data, pos) == Ok(a, p)
    requires ParseReplayString(data, p) == Ok(b, q)
    ensures ParseValue(data, pos, ByteProperty) == Ok(ByteValue(a, b), q)
  {
  }

  /** Two strings one after the other read back. */
  lemma TwoStringsRoundTrip(data: seq<byte>, pos: nat, a: ReplayString, b: ReplayString)
    requires WellFormed(a) && WellFormed(b)
    requires IsAt(data, pos, Encode(a) + Encode(b))
    ensures ParseReplayString(data, pos) == Ok(a, pos + |Encode(a)|)
    ensures ParseReplayString(data, pos + |Encode(a)|) == Ok(b, pos + |Encode(a)| + |Encode(b)|)
  {
    var p := pos + |Encode(a)|;
    IsAtSplit(data, pos, Encode(a), Encode(b), p);
    ReplayStringRoundTrip(data, pos, a);
    ReplayStringRoundTrip(data, p, b);
  }

  lemma {:induction false} ArrayRoundTrip(data: seq<byte>, pos: nat, v: PropertyValue)
    requires v.ArrayValue? && WellFormedValue(v)
    requires IsAt(data, pos, EncodeValue(v))
    ensures ParseValue(data, pos, ArrayProperty) == Ok(v, pos + |EncodeValue(v)|)
    decreases v, 0
  {
    var ls := v.elements;
    var count, body := EncodeU32(|ls|), EncodeLists(ls);
    assert IsAt(data, pos, count) && IsAt(data, pos + 4, body) by {
      IsAtSplit(data, pos, count, body, pos + 4);
    }
    assert ReadU32(data, pos) == Ok(|ls|, pos + 4) by {
      ReadU32RoundTrip(data, pos, |ls|);
    }
    assert ParseLists(data, pos + 4, |ls|) == Ok(ls, pos + 4 + |body|) by {
      ListsRoundTrip(data, pos + 4, ls);
    }
  }

  lemma {:induction false} ListsRoundTrip(data: seq<byte>, pos: nat, ls: seq<PropertyList>)
    requires WellFormedLists(ls)
    requires IsAt(data, pos, EncodeLists(ls))
    ensures ParseLists(data, pos, |ls|) == Ok(ls, pos + |EncodeLists(ls)|)
    decreases ls, 0
  {
    if |ls| > 0 {
      var first, rest := EncodeList(ls[0]), EncodeLists(ls[1..]);
      var p := pos + |first|;
      assert IsAt(data, pos, first) && IsAt(data, p, rest) by {
        IsAtSplit(data, pos, first, rest, p);
      }
      assert ParsePropertyList(data, pos) == Ok(ls[0], p) by {
        ListRoundTrip(data, pos, ls[0]);
      }
      assert ParseLists(data, p, |ls| - 1) == Ok(ls[1..], p + |rest|) by {
        ListsRoundTrip(data, p, ls[1..]);
      }
      assert [ls[0]] + ls[1..] == ls;
    }
  }

  /** Every well-formed property list is read back from its own bytes,
      whatever surrounds them. */
  lemma {:induction false} ListRoundTrip(data: seq<byte>, pos: nat, l: PropertyList)
    requires WellFormedList(l)
    requires IsAt(data, pos, EncodeList(l))
    ensures ParsePropertyList(data, pos) == Ok(l, pos + |EncodeList(l)|)
    decreases l, 1
  {
    EntriesRoundTrip(data, pos, l.entries);
  }

  lemma {:induction false} EntriesRoundTrip(data: seq<byte>, pos: nat, es: seq<KeyValuePair>)
    requires WellFormedEntries(es)
    requires IsAt(data, pos, EncodeEntries(es))
    ensures ParsePropertyList(data, pos) == Ok(PropertyList(es), pos + |EncodeEntries(es)|)
    decreases es, 5
  {
    if |es| == 1 {
      LastRoundTrip(data, pos, es);
    } else {
      ConsRoundTrip(data, pos, es);
    }
  }

  lemma {:induction false} ConsRoundTrip(data: seq<byte>, pos: nat, es: seq<KeyValuePair>)
    requires |es| > 1 && WellFormedEntries(es)
    requires IsAt(data, pos, EncodeEntries(es))
    ensures ParsePropertyList(data, pos) == Ok(PropertyList(es), pos + |EncodeEntries(es)|)
    decreases es, 4
  {
    var first, rest := EncodeEntry(es[0]), EncodeEntries(es[1..]);
    var p := pos + |first|;
    var q := p + |rest|;
    assert [es[0]] + es[1..] == es;
    IsAtSplit(data, pos, first, rest, p);
    PairThenEntries(data, pos, es, es[0], es[1..], p, q);
    ConsStep(data, pos, es[0], p, es[1..], q);
  }

  /** A full pair followed by the encoding of a well-formed list: the pair
      reads back, and so does the list after it. */
  lemma {:induction false} PairThenEntries(data: seq<byte>, pos: nat, es: seq<KeyValuePair>,
                        kv: KeyValuePair, rest: seq<KeyValuePair>, p: nat, q: nat)
    requires |es| > 1 && kv == es[0] && rest == es[1..]
    requires kv.Pair? && WellFormedEntry(kv) && WellFormedEntries(rest)
    requires IsAt(data, pos, EncodeEntry(kv)) && p == pos + |EncodeEntry(kv)|
    requires IsAt(data, p, EncodeEntries(rest)) && q == p + |EncodeEntries(rest)|
    ensures ParseKeyValuePair(data, pos) == Ok(kv, p)
    ensures ParsePropertyList(data, p) == Ok(PropertyList(rest), q)
    decreases es, 3
  {
    EntryRoundTrip(data, pos, kv);
    EntriesRoundTrip(data, p, rest);
  }

  lemma {:induction false} LastRoundTrip(data: seq<byte>, pos: nat, es: seq<KeyValuePair>)
    requires |es| == 1 && WellFormedEntries(es)
    requires IsAt(data, pos, EncodeEntries(es))
    ensures ParsePropertyList(data, pos) == Ok(PropertyList(es), pos + |EncodeEntries(es)|)
    decreases es, 0
  {
    var first := EncodeEntry(es[0]);
    assert IsAt(data, pos, first) by {
      IsAtSplit(data, pos, first, [], pos + |first|);
    }
    assert ParseKeyValuePair(data, pos) == Ok(es[0], pos + |first|) by {
      EntryRoundTrip(data, pos, es[0]);
    }
    LastStep(data, pos, es[0], pos + |first|);
    assert es == [es[0]];
  }

  lemma {:induction false} EntryRoundTrip(data: seq<byte>, pos: nat, kv: KeyValuePair)
    requires WellFormedEntry(kv)
    requires IsAt(data, pos, EncodeEntry(kv))
    ensures ParseKeyValuePair(data, pos) == Ok(kv, pos + |EncodeEntry(kv)|)
    decreases kv, 2
  {
    match kv
    case Sentinel(key) =>
      ReplayStringRoundTrip(data, pos, key);
      SentinelStep(data, pos, key, pos + |Encode(key)|);
    case Pair(_, _, _) =>
      PairRoundTrip(data, pos, kv);
  }

  lemma {:induction false} PairRoundTrip(data: seq<byte>, pos: nat, kv: KeyValuePair)
    requires kv.Pair? && WellFormedEntry(kv)
    requires IsAt(data, pos, EncodeEntry(kv))
    ensures ParseKeyValuePair(data, pos) == Ok(kv, pos + |EncodeEntry(kv)|)
    decreases kv, 1
  {
    var k, t, e := Encode(kv.key), Encode(kv.valueType), EncodeValue(kv.value);
    var p1 := pos + |k|;
    var p2 := p1 + |t|;
    var p3 := p2 + |PADDING|;
    var next := p3 + |e|;
    PairLayout(data, pos, kv);
    PairPartsRoundTrip(data, pos, kv, p1, p2, p3, next);
    PairStep(data, pos, kv.key, p1, kv.valueType, p2, kv.value, next);
  }

  /** The three parts of an encoded full pair read back one by one. */
  lemma {:induction false} PairPartsRoundTrip(data: seq<byte>, pos: nat, kv: KeyValuePair,
                           p1: nat, p2: nat, p3: nat, next: nat)
    requires kv.Pair? && WellFormedEntry(kv)
    requires IsAt(data, pos, Encode(kv.key)) && p1 == pos + |Encode(kv.key)|
    requires IsAt(data, p1, Encode(kv.valueType)) && p2 == p1 + |Encode(kv.valueType)|
    requires IsAt(data, p3, EncodeValue(kv.value)) && next == p3 + |EncodeValue(kv.value)|
    ensures ParseReplayString(data, pos) == Ok(kv.key, p1)
    ensures ParseReplayString(data, p1) == Ok(kv.valueType, p2)
    ensures ParseTypedValue(data, p3, kv.valueType.content) == Ok(kv.value, next)
    decreases kv, 0
  {
    ReplayStringRoundTrip(data, pos, kv.key);
    ReplayStringRoundTrip(data, p1, kv.valueType);
    TypedValueRoundTrip(data, p3, kv.valueType, kv.value);
  }

  lemma {:induction false} TypedValueRoundTrip(data: seq<byte>, pos: nat, vt: ReplayString, v: PropertyValue)
    requires Dispatch(vt.content) == Some(KindOf(v)) && WellFormedValue(v)
    requires IsAt(data, pos, EncodeValue(v))
    ensures ParseTypedValue(data, pos, vt.content) == Ok(v, pos + |EncodeValue(v)|)
    decreases v, 2
  {
    ValueRoundTrip(data, pos, v);
  }

  /** Where the three encoded parts of a full pair lie. */
  lemma {:induction false} PairLayout(data: seq<byte>, pos: nat, kv: KeyValuePair)
    requires kv.Pair?
    requires IsAt(data, pos, EncodeEntry(kv))
    ensures var k, t := Encode(kv.key), Encode(kv.valueType);
      && IsAt(data, pos, k)
      && IsAt(data, pos + |k|, t)
      && IsAt(data, pos + |k| + |t| + |PADDING|, EncodeValue(kv.value))
  {
    var k, t, e := Encode(kv.key), Encode(kv.valueType), EncodeValue(kv.value);
    IsAtSplit(data, pos, k + t + PADDING, e, pos + |k| + |t| + |PADDING|);
    IsAtSplit(data, pos, k + t, PADDING, pos + |k| + |t|);
    IsAtSplit(data, pos, k, t, pos + |k|);
  }

  // ---------------------------------------------------------------------
  // Frame: a successful read depends only on the bytes it consumed.
  // ---------------------------------------------------------------------

  lemma {:induction false} ValueFrame(data: seq<byte>, data2: seq<byte>, lo: nat, hi: nat, pos: nat, kind: ValueKind)
    requires ParseValue(data, pos, kind).Ok?
    requires Agree(data, data2, lo, hi) && lo <= pos && ParseValue(data, pos, kind).next <= hi
    ensures ParseValue(data2, pos, kind) == ParseValue(data, pos, kind)
    decreases |data| - pos, 1, 0
  {
    match kind
    case BoolProperty =>
      ReadU8Frame(data, data2, lo, hi, pos);
    case ByteProperty =>
      ReplayStringFrame(data, data2, lo, hi, pos);
      ReplayStringFrame(data, data2, lo, hi, ParseReplayString(data, pos).next);
    case FloatProperty =>
      ReadU32Frame(data, data2, lo, hi, pos);
    case IntProperty =>
      ReadI32Frame(data, data2, lo, hi, pos);
    case NameProperty =>
      ReplayStringFrame(data, data2, lo, hi, pos);
    case StrProperty =>
      ReplayStringFrame(data, data2, lo, hi, pos);
    case QWordProperty =>
      ReadI64Frame(data, data2, lo, hi, pos);
    case ArrayProperty =>
      ReadU32Frame(data, data2, lo, hi, pos);
      ListsFrame(data, data2, lo, hi, pos + 4, ReadU32(data, pos).value);
  }

  lemma {:induction false} ListsFrame(data: seq<byte>, data2: seq<byte>, lo: nat, hi: nat, pos: nat, n: nat)
    requires pos <= |data| && pos <= |data2|
    requires ParseLists(data, pos, n).Ok?
    requires Agree(data, data2, lo, hi) && lo <= pos && ParseLists(data, pos, n).next <= hi
    ensures ParseLists(data2, pos, n) == ParseLists(data, pos, n)
    decreases |data| - pos, 4, n
  {
    if n > 0 {
      var m := n - 1;
      var l := ParsePropertyList(data, pos);
      var rest := ParseLists(data, l.next, m);
      ListsConsFrame(data, data2, lo, hi, pos, l.value, l.next, m, rest.value, rest.next);
      ListsStep(data2, pos, n, l.value, l.next, m, rest.value, rest.next);
    }
  }

  lemma {:induction false} ListsConsFrame(data: seq<byte>, data2: seq<byte>, lo: nat, hi: nat, pos: nat,
                       l: PropertyList, p: nat, m: nat, ls: seq<PropertyList>, q: nat)
    requires p <= |data| && p <= |data2|
    requires ParsePropertyList(data, pos) == Ok(l, p)
    requires ParseLists(data, p, m) == Ok(ls, q)
    requires Agree(data, data2, lo, hi) && lo <= pos && q <= hi
    ensures ParsePropertyList(data2, pos) == Ok(l, p)
    ensures ParseLists(data2, p, m) == Ok(ls, q)
    decreases |data| - pos, 3, 1
  {
    PropertyListFrame(data, data2, lo, hi, pos);
    ListsFrame(data, data2, lo, hi, p, m);
  }

  /** A successful property-list read depends only on the bytes it consumed:
      any other input that agrees on them reads the same list and ends at the
      same place. */
  lemma {:induction false} PropertyListFrame(data: seq<byte>, data2: seq<byte>, lo: nat, hi: nat, pos: nat)
    requires ParsePropertyList(data, pos).Ok?
    requires Agree(data, data2, lo, hi) && lo <= pos && ParsePropertyList(data, pos).next <= hi
    ensures ParsePropertyList(data2, pos) == ParsePropertyList(data, pos)
    decreases |data| - pos, 3, 0
  {
    var r := ParseKeyValuePair(data, pos);
    KeyValuePairFrame(data, data2, lo, hi, pos);
    if !IsSentinelKey(r.value.key) {
      PropertyListFrame(data, data2, lo, hi, r.next);
    }
  }

  lemma {:induction false} TypedValueFrame(data: seq<byte>, data2: seq<byte>, lo: nat, hi: nat, pos: nat, tag: Text)
    requires ParseTypedValue(data, pos, tag).Ok?
    requires Agree(data, data2, lo, hi) && lo <= pos && ParseTypedValue(data, pos, tag).next <= hi
    ensures ParseTypedValue(data2, pos, tag) == ParseTypedValue(data, pos, tag)
    decreases |data| - pos, 1, 1
  {
    ValueFrame(data, data2, lo, hi, pos, Dispatch(tag).value);
  }

  /** The parts a full pair was read from. */
  lemma {:induction false} PairParts(data: seq<byte>, pos: nat)
    requires ParseKeyValuePair(data, pos).Ok? && ParseKeyValuePair(data, pos).value.Pair?
    ensures var r := ParseKeyValuePair(data, pos);
      var k := ParseReplayString(data, pos);
      var t := ParseReplayString(data, k.next);
      && k == Ok(r.value.key, k.next) && !IsSentinelKey(k.value)
      && t == Ok(r.value.valueType, t.next)
      && ParseTypedValue(data, t.next + |PADDING|, t.value.content) == Ok(r.value.value, r.next)
  {
  }

  lemma {:induction false} KeyValuePairFrame(data: seq<byte>, data2: seq<byte>, lo: nat, hi: nat, pos: nat)
    requires ParseKeyValuePair(data, pos).Ok?
    requires Agree(data, data2, lo, hi) && lo <= pos && ParseKeyValuePair(data, pos).next <= hi
    ensures ParseKeyValuePair(data2, pos) == ParseKeyValuePair(data, pos)
    decreases |data| - pos, 2, 1
  {
    var r := ParseKeyValuePair(data, pos);
    if r.value.Sentinel? {
      var k := ParseReplayString(data, pos);
      ReplayStringFrame(data, data2, lo, hi, pos);
      SentinelStep(data2, pos, k.value, k.next);
    } else {
      PairParts(data, pos);
      var p1 := ParseReplayString(data, pos).next;
      var p2 := ParseReplayString(data, p1).next;
      var p3 := p2 + |PADDING|;
      PairFrame(data, data2, lo, hi, pos, r.value.key, p1, r.value.valueType, p2, p3, r.value.value, r.next);
      PairStep(data2, pos, r.value.key, p1, r.value.valueType, p2, r.value.value, r.next);
    }
  }

  /** The three reads of a full pair carry over to an input that agrees on
      the bytes they consumed. */
  lemma {:induction false} PairFrame(data: seq<byte>, data2: seq<byte>, lo: nat, hi: nat, pos: nat,
                  key: ReplayString, p1: nat, vt: ReplayString, p2: nat, p3: nat, v: PropertyValue, next: nat)
    requires ParseReplayString(data, pos) == Ok(key, p1)
    requires ParseReplayString(data, p1) == Ok(vt, p2)
    requires ParseTypedValue(data, p3, vt.content) == Ok(v, next)
    requires Agree(data, data2, lo, hi) && lo <= pos && p2 <= p3 && next <= hi
    ensures ParseReplayString(data2, pos) == Ok(key, p1)
    ensures ParseReplayString(data2, p1) == Ok(vt, p2)
    ensures ParseTypedValue(data2, p3, vt.content) == Ok(v, next)
    decreases |data| - pos, 2, 0
  {
    ReplayStringFrame(data, data2, lo, hi, pos);
    ReplayStringFrame(data, data2, lo, hi, p1);
    TypedValueFrame(data, data2, lo, hi, p3, vt.content);
  }

  /** Where the 8 skipped bytes of a full pair start: after its key and its
      value-type string. */
  function PaddingStart(data: seq<byte>, pos: nat): nat
    requires ParseKeyValuePair(data, pos).Ok? && ParseKeyValuePair(data, pos).value.Pair?
  {
    ParseReplayString(data, ParseReplayString(data, pos).next).next
  }

  /** A full pair is read again from any input that agrees with `data` on
      every byte the pair consumed except its 8 skipped ones. */
  lemma PairKept(data: seq<byte>, data2: seq<byte>, pos: nat)
    requires ParseKeyValuePair(data, pos).Ok? && ParseKeyValuePair(data, pos).value.Pair?
    requires Agree(data, data2, 0, PaddingStart(data, pos))
    requires Agree(data, data2, PaddingStart(data, pos) + |PADDING|, |data|)
    ensures ParseKeyValuePair(data2, pos) == ParseKeyValuePair(data, pos)
  {
    var r := ParseKeyValuePair(data, pos);
    PairParts(data, pos);
    var p1 := ParseReplayString(data, pos).next;
    var p2 := PaddingStart(data, pos);
    PartsKept(data, data2, pos, r.value.key, p1, r.value.valueType, p2, r.value.value, r.next);
    assert r == Ok(Pair(r.value.key, r.value.valueType, r.value.value), r.next);
  }

  /** A full pair's three reads, carried over to an input that agrees on
      everything but the 8 skipped bytes, read the same pair there. */
  lemma PartsKept(data: seq<byte>, data2: seq<byte>, pos: nat,
                  key: ReplayString, p1: nat, vt: ReplayString, p2: nat, v: PropertyValue, next: nat)
    requires ParseReplayString(data, pos) == Ok(key, p1) && !IsSentinelKey(key)
    requires ParseReplayString(data, p1) == Ok(vt, p2)
    requires ParseTypedValue(data, p2 + |PADDING|, vt.content) == Ok(v, next)
    requires Agree(data, data2, 0, p2) && Agree(data, data2, p2 + |PADDING|, |data|)
    ensures ParseKeyValuePair(data2, pos) == Ok(Pair(key, vt, v), next)
  {
    StringsFrame(data, data2, pos, key, p1, vt, p2);
    ValueKept(data, data2, pos, key, p1, vt, p2, v, next);
  }

  /** The value read after the skipped bytes carries over, and with the two
      strings already read from `data2` it completes the same pair there. */
  lemma ValueKept(data: seq<byte>, data2: seq<byte>, pos: nat,
                  key: ReplayString, p1: nat, vt: ReplayString, p2: nat, v: PropertyValue, next: nat)
    requires ParseReplayString(data2, pos) == Ok(key, p1) && !IsSentinelKey(key)
    requires ParseReplayString(data2, p1) == Ok(vt, p2)
    requires ParseTypedValue(data, p2 + |PADDING|, vt.content) == Ok(v, next)
    requires Agree(data, data2, p2 + |PADDING|, |data|)
    ensures ParseKeyValuePair(data2, pos) == Ok(Pair(key, vt, v), next)
  {
    PaddedValueFrame(data, data2, p2 + |PADDING|, vt.content, v, next);
    PairStep(data2, pos, key, p1, vt, p2, v, next);
  }

  lemma PaddedValueFrame(data: seq<byte>, data2: seq<byte>, pos: nat, tag: Text, v: PropertyValue, next: nat)
    requires ParseTypedValue(data, pos, tag) == Ok(v, next)
    requires Agree(data, data2, pos, |data|)
    ensures ParseTypedValue(data2, pos, tag) == Ok(v, next)
  {
    TypedValueFrame(data, data2, pos, |data|, pos, tag);
  }

  /** Two strings read one after the other carry over to an input that
      agrees on the bytes they consumed. */
  lemma StringsFrame(data: seq<byte>, data2: seq<byte>, pos: nat, key: ReplayString, p1: nat, vt: ReplayString, p2: nat)
    requires ParseReplayString(data, pos) == Ok(key, p1)
    requires ParseReplayString(data, p1) == Ok(vt, p2)
    requires Agree(data, data2, 0, p2)
    ensures ParseReplayString(data2, pos) == Ok(key, p1)
    ensures ParseReplayString(data2, p1) == Ok(vt, p2)
  {
    ReplayStringFrame(data, data2, 0, p2, pos);
    ReplayStringFrame(data, data2, 0, p2, p1);
  }

  lemma PaddingReplaced(data: seq<byte>, pos: nat, pad: seq<byte>)
    requires ParseKeyValuePair(data, pos).Ok? && ParseKeyValuePair(data, pos).value.Pair?
    requires |pad| == |PADDING| && PaddingStart(data, pos) + |PADDING| <= |data|
    ensures ParseKeyValuePair(data[..PaddingStart(data, pos)] + pad + data[PaddingStart(data, pos) + |PADDING|..], pos)
         == ParseKeyValuePair(data, pos)
  {
    var data2 := data[..PaddingStart(data, pos)] + pad + data[PaddingStart(data, pos) + |PADDING|..];
    SpliceAgrees(data, pad, PaddingStart(data, pos), data2);
    PairKept(data, data2, pos);
  }

  /** The 8 bytes after a value-type string are skipped, not read: putting
      any other 8 bytes in their place changes nothing about the pair read. */
  lemma PaddingIgnored(data: seq<byte>, pos: nat, pad: seq<byte>)
    requires ParseKeyValuePair(data, pos).Ok? && ParseKeyValuePair(data, pos).value.Pair?
    requires |pad| == |PADDING|
    ensures PaddingStart(data, pos) + |PADDING| <= |data|
    ensures ParseKeyValuePair(data[..PaddingStart(data, pos)] + pad + data[PaddingStart(data, pos) + |PADDING|..], pos)
         == ParseKeyValuePair(data, pos)
  {
    PairParts(data, pos);
    PaddingReplaced(data, pos, pad);
  }

  /** Splicing bytes in at `at` leaves everything before and after alone. */
  lemma SpliceAgrees(data: seq<byte>, pad: seq<byte>, at: nat, data2: seq<byte>)
    requires at + |pad| <= |data|
    requires data2 == data[..at] + pad + data[at + |pad|..]
    ensures Agree(data, data2, 0, at)
    ensures Agree(data, data2, at + |pad|, |data|)
  {
    forall i | 0 <= i < at
      ensures AgreeAt(data, data2, i)
    {
    }
    forall i | at + |pad| <= i < |data|
      ensures AgreeAt(data, data2, i)
    {
    }
  }
}
