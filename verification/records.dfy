/** The fixed records that fill the body and footer tables: keyframes, debug
    lines, tickmarks, class indices and class net caches. Each record has a
    reader, an encoder, a round trip and a frame lemma, and the `*ReadBack`
    and `*Local` lemmas package those for the generic array lemmas. */
module Records {
  import opened Parsing
  import opened ReplayStrings
  import opened Arrays

  // ---------------------------------------------------------------------
  // Keyframe: time (a 32-bit float, kept as its bit pattern), frame and
  // file position.
  // ---------------------------------------------------------------------

  datatype Keyframe = Keyframe(timeBits: nat, frame: nat, filePosition: nat)

  predicate WellFormedKeyframe(k: Keyframe) {
    k.timeBits < TWO_32 && k.frame < TWO_32 && k.filePosition < TWO_32
  }

  const KEYFRAME_SIZE: nat := 12

  /** A keyframe takes twelve bytes, and can be read wherever twelve remain. */
  function ParseKeyframe(data: seq<byte>, pos: nat): (r: Parsed<Keyframe>)
    ensures r.Ok? <==> pos + KEYFRAME_SIZE <= |data|
    ensures r.Ok? ==> r.next == pos + KEYFRAME_SIZE && WellFormedKeyframe(r.value)
  {
    match ReadU32(data, pos)
    case Fail => Fail
    case Ok(t, p1) =>
      match ReadU32(data, p1)
      case Fail => Fail
      case Ok(f, p2) =>
        match ReadU32(data, p2)
        case Fail => Fail
        case Ok(fp, p3) => Ok(Keyframe(t, f, fp), p3)
  }

  function EncodeKeyframe(k: Keyframe): (bs: seq<byte>)
    ensures |bs| == KEYFRAME_SIZE
  {
    EncodeU32(k.timeBits) + EncodeU32(k.frame) + EncodeU32(k.filePosition)
  }

  lemma KeyframeRoundTrip(data: seq<byte>, pos: nat, k: Keyframe)
    requires WellFormedKeyframe(k) && IsAt(data, pos, EncodeKeyframe(k))
    ensures ParseKeyframe(data, pos) == Ok(k, pos + |EncodeKeyframe(k)|)
  {
    var a, b, c := EncodeU32(k.timeBits), EncodeU32(k.frame), EncodeU32(k.filePosition);
    IsAtSplit(data, pos, a + b, c, pos + 8);
    IsAtSplit(data, pos, a, b, pos + 4);
    ReadU32RoundTrip(data, pos, k.timeBits);
    ReadU32RoundTrip(data, pos + 4, k.frame);
    ReadU32RoundTrip(data, pos + 8, k.filePosition);
  }

  lemma KeyframeFrame(data: seq<byte>, data2: seq<byte>, lo: nat, hi: nat, pos: nat)
    requires Agree(data, data2, lo, hi) && lo <= pos && pos + KEYFRAME_SIZE <= hi
    ensures ParseKeyframe(data2, pos) == ParseKeyframe(data, pos)
  {
    ReadU32Frame(data, data2, lo, hi, pos);
    ReadU32Frame(data, data2, lo, hi, pos + 4);
    ReadU32Frame(data, data2, lo, hi, pos + 8);
  }

  lemma KeyframesReadBack(data: seq<byte>)
    ensures ReadsBack(data, ParseKeyframe, EncodeKeyframe, WellFormedKeyframe)
  {
    forall x: Keyframe, p: nat | WellFormedKeyframe(x) && IsAt(data, p, EncodeKeyframe(x))
      ensures ParseKeyframe(data, p) == Ok(x, p + |EncodeKeyframe(x)|)
    {
      KeyframeRoundTrip(data, p, x);
    }
  }

  lemma KeyframesLocal(data: seq<byte>, data2: seq<byte>, lo: nat, hi: nat)
    requires Agree(data, data2, lo, hi)
    ensures LocalTo(data, data2, lo, hi, ParseKeyframe)
  {
    forall p: nat | lo <= p && ParseKeyframe(data, p).Ok? && ParseKeyframe(data, p).next <= hi
      ensures ParseKeyframe(data2, p) == ParseKeyframe(data, p)
    {
      KeyframeFrame(data, data2, lo, hi, p);
    }
  }

  /** A keyframe table with n entries takes 4 + 12n bytes: the count, then
      twelve bytes per keyframe. It is read exactly when those bytes are
      there, for the count the input holds. */
  lemma KeyframeTableSize(data: seq<byte>, pos: nat)
    ensures ParsePrefixed(data, pos, ParseKeyframe).Ok? <==>
      pos + 4 <= |data| && pos + 4 + KEYFRAME_SIZE * U32At(data, pos) <= |data|
    ensures ParsePrefixed(data, pos, ParseKeyframe).Ok? ==>
      ParsePrefixed(data, pos, ParseKeyframe).next == pos + 4 + KEYFRAME_SIZE * |ParsePrefixed(data, pos, ParseKeyframe).value|
  {
    if pos + 4 <= |data| {
      var n := U32At(data, pos);
      CountFixedWidth(data, pos + 4, n, ParseKeyframe, KEYFRAME_SIZE);
      CountLength(data, pos + 4, n, ParseKeyframe);
    }
  }

  // ---------------------------------------------------------------------
  // Strings as table elements.
  // ---------------------------------------------------------------------

  lemma StringsReadBack(data: seq<byte>)
    ensures ReadsBack(data, ParseReplayString, Encode, WellFormed)
  {
    forall x: ReplayString, p: nat | WellFormed(x) && IsAt(data, p, Encode(x))
      ensures ParseReplayString(data, p) == Ok(x, p + |Encode(x)|)
    {
      ReplayStringRoundTrip(data, p, x);
    }
  }

  lemma StringsLocal(data: seq<byte>, data2: seq<byte>, lo: nat, hi: nat)
    requires Agree(data, data2, lo, hi)
    ensures LocalTo(data, data2, lo, hi, ParseReplayString)
  {
    forall p: nat | lo <= p && ParseReplayString(data, p).Ok? && ParseReplayString(data, p).next <= hi
      ensures ParseReplayString(data2, p) == ParseReplayString(data, p)
    {
      ReplayStringFrame(data, data2, lo, hi, p);
    }
  }

  // ---------------------------------------------------------------------
  // Debug info: frame, user, text.
  // ---------------------------------------------------------------------

  datatype DebugInfo = DebugInfo(frame: nat, user: ReplayString, text: ReplayString)

  predicate WellFormedDebugInfo(d: DebugInfo) {
    d.frame < TWO_32 && WellFormed(d.user) && WellFormed(d.text)
  }

  /** A debug line takes its frame field and its two strings, nothing more. */
  function ParseDebugInfo(data: seq<byte>, pos: nat): (r: Parsed<DebugInfo>)
    ensures r.Ok? ==> r.next == pos + 4 + EncodedSize(r.value.user) + EncodedSize(r.value.text) <= |data|
  {
    match ReadU32(data, pos)
    case Fail => Fail
    case Ok(f, p1) =>
      match ParseReplayString(data, p1)
      case Fail => Fail
      case Ok(u, p2) =>
        match ParseReplayString(data, p2)
        case Fail => Fail
        case Ok(t, p3) => Ok(DebugInfo(f, u, t), p3)
  }

  function EncodeDebugInfo(d: DebugInfo): seq<byte> {
    EncodeU32(d.frame) + Encode(d.user) + Encode(d.text)
  }

  lemma DebugInfoRoundTrip(data: seq<byte>, pos: nat, d: DebugInfo)
    requires WellFormedDebugInfo(d) && IsAt(data, pos, EncodeDebugInfo(d))
    ensures ParseDebugInfo(data, pos) == Ok(d, pos + |EncodeDebugInfo(d)|)
  {
    var a, b, c := EncodeU32(d.frame), Encode(d.user), Encode(d.text);
    var p1 := pos + 4;
    var p2 := p1 + |b|;
    IsAtSplit(data, pos, a + b, c, p2);
    IsAtSplit(data, pos, a, b, p1);
    ReadU32RoundTrip(data, pos, d.frame);
    ReplayStringRoundTrip(data, p1, d.user);
    ReplayStringRoundTrip(data, p2, d.text);
    assert ParseReplayString(data, p1) == Ok(d.user, p2);
    assert |EncodeDebugInfo(d)| == 4 + |b| + |c|;
  }

  lemma DebugInfoFrame(data: seq<byte>, data2: seq<byte>, lo: nat, hi: nat, pos: nat)
    requires ParseDebugInfo(data, pos).Ok?
    requires Agree(data, data2, lo, hi) && lo <= pos && ParseDebugInfo(data, pos).next <= hi
    ensures ParseDebugInfo(data2, pos) == ParseDebugInfo(data, pos)
  {
    var p1 := pos + 4;
    var p2 := ParseReplayString(data, p1).next;
    ReadU32Frame(data, data2, lo, hi, pos);
    ReplayStringFrame(data, data2, lo, hi, p1);
    ReplayStringFrame(data, data2, lo, hi, p2);
  }

  lemma DebugInfosReadBack(data: seq<byte>)
    ensures ReadsBack(data, ParseDebugInfo, EncodeDebugInfo, WellFormedDebugInfo)
  {
    forall x: DebugInfo, p: nat | WellFormedDebugInfo(x) && IsAt(data, p, EncodeDebugInfo(x))
      ensures ParseDebugInfo(data, p) == Ok(x, p + |EncodeDebugInfo(x)|)
    {
      DebugInfoRoundTrip(data, p, x);
    }
  }

  lemma DebugInfosLocal(data: seq<byte>, data2: seq<byte>, lo: nat, hi: nat)
    requires Agree(data, data2, lo, hi)
    ensures LocalTo(data, data2, lo, hi, ParseDebugInfo)
  {
    forall p: nat | lo <= p && ParseDebugInfo(data, p).Ok? && ParseDebugInfo(data, p).next <= hi
      ensures ParseDebugInfo(data2, p) == ParseDebugInfo(data, p)
    {
      DebugInfoFrame(data, data2, lo, hi, p);
    }
  }

  // ---------------------------------------------------------------------
  // Tickmark: description, then frame.
  // ---------------------------------------------------------------------

  datatype Tickmark = Tickmark(description: ReplayString, frame: nat)

  predicate WellFormedTickmark(t: Tickmark) {
    WellFormed(t.description) && t.frame < TWO_32
  }

  /** A tickmark takes its string and a four-byte frame number. */
  function ParseTickmark(data: seq<byte>, pos: nat): (r: Parsed<Tickmark>)
    ensures r.Ok? ==> r.next == pos + EncodedSize(r.value.description) + 4 <= |data|
  {
    match ParseReplayString(data, pos)
    case Fail => Fail
    case Ok(s, p1) =>
      match ReadU32(data, p1)
      case Fail => Fail
      case Ok(f, p2) => Ok(Tickmark(s, f), p2)
  }

  function EncodeTickmark(t: Tickmark): seq<byte> {
    Encode(t.description) + EncodeU32(t.frame)
  }

  /** A string followed by a 32-bit word, the shape of a tickmark and of a
      class index, reads back from its own bytes. */
  lemma StringThenWordRoundTrip(data: seq<byte>, pos: nat, s: ReplayString, w: nat)
    requires WellFormed(s) && w < TWO_32 && IsAt(data, pos, Encode(s) + EncodeU32(w))
    ensures ParseReplayString(data, pos) == Ok(s, pos + |Encode(s)|)
    ensures ReadU32(data, pos + |Encode(s)|) == Ok(w, pos + |Encode(s) + EncodeU32(w)|)
  {
    var a, b := Encode(s), EncodeU32(w);
    IsAtSplit(data, pos, a, b, pos + |a|);
    ReplayStringRoundTrip(data, pos, s);
    ReadU32RoundTrip(data, pos + |a|, w);
  }

  lemma TickmarkRoundTrip(data: seq<byte>, pos: nat, t: Tickmark)
    requires WellFormedTickmark(t) && IsAt(data, pos, EncodeTickmark(t))
    ensures ParseTickmark(data, pos) == Ok(t, pos + |EncodeTickmark(t)|)
  {
    StringThenWordRoundTrip(data, pos, t.description, t.frame);
  }

  lemma TickmarkFrame(data: seq<byte>, data2: seq<byte>, lo: nat, hi: nat, pos: nat)
    requires ParseTickmark(data, pos).Ok?
    requires Agree(data, data2, lo, hi) && lo <= pos && ParseTickmark(data, pos).next <= hi
    ensures ParseTickmark(data2, pos) == ParseTickmark(data, pos)
  {
    var p1 := ParseReplayString(data, pos).next;
    ReplayStringFrame(data, data2, lo, hi, pos);
    ReadU32Frame(data, data2, lo, hi, p1);
  }

  lemma TickmarksReadBack(data: seq<byte>)
    ensures ReadsBack(data, ParseTickmark, EncodeTickmark, WellFormedTickmark)
  {
    forall x: Tickmark, p: nat | WellFormedTickmark(x) && IsAt(data, p, EncodeTickmark(x))
      ensures ParseTickmark(data, p) == Ok(x, p + |EncodeTickmark(x)|)
    {
      TickmarkRoundTrip(data, p, x);
    }
  }

  lemma TickmarksLocal(data: seq<byte>, data2: seq<byte>, lo: nat, hi: nat)
    requires Agree(data, data2, lo, hi)
    ensures LocalTo(data, data2, lo, hi, ParseTickmark)
  {
    forall p: nat | lo <= p && ParseTickmark(data, p).Ok? && ParseTickmark(data, p).next <= hi
      ensures ParseTickmark(data2, p) == ParseTickmark(data, p)
    {
      TickmarkFrame(data, data2, lo, hi, p);
    }
  }

  // ---------------------------------------------------------------------
  // Class index: class name, then its id in the network stream.
  // ---------------------------------------------------------------------

  datatype ClassIndex = ClassIndex(className: ReplayString, index: nat)

  predicate WellFormedClassIndex(c: ClassIndex) {
    WellFormed(c.className) && c.index < TWO_32
  }

  /** A class index entry takes its string and a four-byte id. */
  function ParseClassIndex(data: seq<byte>, pos: nat): (r: Parsed<ClassIndex>)
    ensures r.Ok? ==> r.next == pos + EncodedSize(r.value.className) + 4 <= |data|
  {
    match ParseReplayString(data, pos)
    case Fail => Fail
    case Ok(s, p1) =>
      match ReadU32(data, p1)
      case Fail => Fail
      case Ok(i, p2) => Ok(ClassIndex(s, i), p2)
  }

  function EncodeClassIndex(c: ClassIndex): seq<byte> {
    Encode(c.className) + EncodeU32(c.index)
  }

  lemma ClassIndexRoundTrip(data: seq<byte>, pos: nat, c: ClassIndex)
    requires WellFormedClassIndex(c) && IsAt(data, pos, EncodeClassIndex(c))
    ensures ParseClassIndex(data, pos) == Ok(c, pos + |EncodeClassIndex(c)|)
  {
    StringThenWordRoundTrip(data, pos, c.className, c.index);
  }

  lemma ClassIndexFrame(data: seq<byte>, data2: seq<byte>, lo: nat, hi: nat, pos: nat)
    requires ParseClassIndex(data, pos).Ok?
    requires Agree(data, data2, lo, hi) && lo <= pos && ParseClassIndex(data, pos).next <= hi
    ensures ParseClassIndex(data2, pos) == ParseClassIndex(data, pos)
  {
    var p1 := ParseReplayString(data, pos).next;
    ReplayStringFrame(data, data2, lo, hi, pos);
    ReadU32Frame(data, data2, lo, hi, p1);
  }

  lemma ClassIndicesReadBack(data: seq<byte>)
    ensures ReadsBack(data, ParseClassIndex, EncodeClassIndex, WellFormedClassIndex)
  {
    forall x: ClassIndex, p: nat | WellFormedClassIndex(x) && IsAt(data, p, EncodeClassIndex(x))
      ensures ParseClassIndex(data, p) == Ok(x, p + |EncodeClassIndex(x)|)
    {
      ClassIndexRoundTrip(data, p, x);
    }
  }

  lemma ClassIndicesLocal(data: seq<byte>, data2: seq<byte>, lo: nat, hi: nat)
    requires Agree(data, data2, lo, hi)
    ensures LocalTo(data, data2, lo, hi, ParseClassIndex)
  {
    forall p: nat | lo <= p && ParseClassIndex(data, p).Ok? && ParseClassIndex(data, p).next <= hi
      ensures ParseClassIndex(data2, p) == ParseClassIndex(data, p)
    {
      ClassIndexFrame(data, data2, lo, hi, p);
    }
  }

  // ---------------------------------------------------------------------
  // Class net cache: object index, parent id, cache id, then a table of
  // (object index, stream id) pairs.
  // ---------------------------------------------------------------------

  datatype CacheProperty = CacheProperty(objectIndex: nat, streamId: nat)

  datatype ClassNetCache = ClassNetCache(objectIndex: nat, parentId: nat, cacheId: nat, properties: seq<CacheProperty>)

  predicate WellFormedCacheProperty(c: CacheProperty) {
    c.objectIndex < TWO_32 && c.streamId < TWO_32
  }

  predicate WellFormedClassNetCache(c: ClassNetCache) {
    && c.objectIndex < TWO_32 && c.parentId < TWO_32 && c.cacheId < TWO_32
    && |c.properties| < TWO_32
    && AllWellFormed(c.properties, WellFormedCacheProperty)
  }

  const CACHE_PROPERTY_SIZE: nat := 8

  /** A cache property takes eight bytes, and can be read wherever eight remain. */
  function ParseCacheProperty(data: seq<byte>, pos: nat): (r: Parsed<CacheProperty>)
    ensures r.Ok? <==> pos + CACHE_PROPERTY_SIZE <= |data|
    ensures r.Ok? ==> r.next == pos + CACHE_PROPERTY_SIZE && WellFormedCacheProperty(r.value)
  {
    match ReadU32(data, pos)
    case Fail => Fail
    case Ok(o, p1) =>
      match ReadU32(data, p1)
      case Fail => Fail
      case Ok(s, p2) => Ok(CacheProperty(o, s), p2)
  }

  function EncodeCacheProperty(c: CacheProperty): (bs: seq<byte>)
    ensures |bs| == CACHE_PROPERTY_SIZE
  {
    EncodeU32(c.objectIndex) + EncodeU32(c.streamId)
  }

  lemma CachePropertyRoundTrip(data: seq<byte>, pos: nat, c: CacheProperty)
    requires WellFormedCacheProperty(c) && IsAt(data, pos, EncodeCacheProperty(c))
    ensures ParseCacheProperty(data, pos) == Ok(c, pos + |EncodeCacheProperty(c)|)
  {
    IsAtSplit(data, pos, EncodeU32(c.objectIndex), EncodeU32(c.streamId), pos + 4);
    ReadU32RoundTrip(data, pos, c.objectIndex);
    ReadU32RoundTrip(data, pos + 4, c.streamId);
  }

  lemma CachePropertiesReadBack(data: seq<byte>)
    ensures ReadsBack(data, ParseCacheProperty, EncodeCacheProperty, WellFormedCacheProperty)
  {
    forall x: CacheProperty, p: nat | WellFormedCacheProperty(x) && IsAt(data, p, EncodeCacheProperty(x))
      ensures ParseCacheProperty(data, p) == Ok(x, p + |EncodeCacheProperty(x)|)
    {
      CachePropertyRoundTrip(data, p, x);
    }
  }

  lemma CachePropertiesLocal(data: seq<byte>, data2: seq<byte>, lo: nat, hi: nat)
    requires Agree(data, data2, lo, hi)
    ensures LocalTo(data, data2, lo, hi, ParseCacheProperty)
  {
    forall p: nat | lo <= p && ParseCacheProperty(data, p).Ok? && ParseCacheProperty(data, p).next <= hi
      ensures ParseCacheProperty(data2, p) == ParseCacheProperty(data, p)
    {
      ReadU32Frame(data, data2, lo, hi, p);
      ReadU32Frame(data, data2, lo, hi, p + 4);
    }
  }

  /** Three ids, then the count-prefixed property table: a successful read
      found all sixteen fixed bytes, and the table holds as many properties
      as the count at offset twelve says. */
  function ParseClassNetCache(data: seq<byte>, pos: nat): (r: Parsed<ClassNetCache>)
    ensures r.Ok? ==> pos + 16 <= |data| && |r.value.properties| == U32At(data, pos + 12)
  {
    match ReadU32(data, pos)
    case Fail => Fail
    case Ok(o, p1) =>
      match ReadU32(data, p1)
      case Fail => Fail
      case Ok(parent, p2) =>
        match ReadU32(data, p2)
        case Fail => Fail
        case Ok(cache, p3) =>
          match ParsePrefixed(data, p3, ParseCacheProperty)
          case Fail => Fail
          case Ok(ps, p4) => Ok(ClassNetCache(o, parent, cache, ps), p4)
  }

  function EncodeClassNetCache(c: ClassNetCache): seq<byte> {
    EncodeU32(c.objectIndex) + EncodeU32(c.parentId) + EncodeU32(c.cacheId)
      + EncodePrefixed(c.properties, EncodeCacheProperty)
  }

  /** A class net cache with k properties takes 16 + 8k bytes: three ids, the
      count, and eight bytes per property. It is read exactly when those bytes
      are there, for the count the input holds. */
  lemma ClassNetCacheSize(data: seq<byte>, pos: nat)
    ensures ParseClassNetCache(data, pos).Ok? <==>
      pos + 16 <= |data| && pos + 16 + CACHE_PROPERTY_SIZE * U32At(data, pos + 12) <= |data|
    ensures ParseClassNetCache(data, pos).Ok? ==>
      ParseClassNetCache(data, pos).next == pos + 16 + CACHE_PROPERTY_SIZE * |ParseClassNetCache(data, pos).value.properties|
  {
    if pos + 16 <= |data| {
      var k := U32At(data, pos + 12);
      CountFixedWidth(data, pos + 16, k, ParseCacheProperty, CACHE_PROPERTY_SIZE);
      CountLength(data, pos + 16, k, ParseCacheProperty);
    }
  }

  /** Every well-formed class net cache reads back from its own bytes. */
  lemma ClassNetCacheRoundTrip(data: seq<byte>, pos: nat, c: ClassNetCache)
    requires WellFormedClassNetCache(c) && IsAt(data, pos, EncodeClassNetCache(c))
    ensures ParseClassNetCache(data, pos) == Ok(c, pos + |EncodeClassNetCache(c)|)
  {
    var a, b, d := EncodeU32(c.objectIndex), EncodeU32(c.parentId), EncodeU32(c.cacheId);
    var e := EncodePrefixed(c.properties, EncodeCacheProperty);
    IsAtSplit(data, pos, a + b + d, e, pos + 12);
    IsAtSplit(data, pos, a + b, d, pos + 8);
    IsAtSplit(data, pos, a, b, pos + 4);
    ReadU32RoundTrip(data, pos, c.objectIndex);
    ReadU32RoundTrip(data, pos + 4, c.parentId);
    ReadU32RoundTrip(data, pos + 8, c.cacheId);
    CachePropertiesReadBack(data);
    PrefixedRoundTrip(data, pos + 12, c.properties, ParseCacheProperty, EncodeCacheProperty, WellFormedCacheProperty);
  }

  lemma ClassNetCacheFrame(data: seq<byte>, data2: seq<byte>, lo: nat, hi: nat, pos: nat)
    requires ParseClassNetCache(data, pos).Ok?
    requires Agree(data, data2, lo, hi) && lo <= pos && ParseClassNetCache(data, pos).next <= hi
    ensures ParseClassNetCache(data2, pos) == ParseClassNetCache(data, pos)
  {
    var k := U32At(data, pos + 12);
    CountAdvances(data, pos + 16, k, ParseCacheProperty);
    ReadU32Frame(data, data2, lo, hi, pos);
    ReadU32Frame(data, data2, lo, hi, pos + 4);
    ReadU32Frame(data, data2, lo, hi, pos + 8);
    ReadU32Frame(data, data2, lo, hi, pos + 12);
    CachePropertiesLocal(data, data2, lo, hi);
    CountFrame(data, data2, lo, hi, pos + 16, k, ParseCacheProperty);
  }

  lemma ClassNetCachesAdvance(data: seq<byte>)
    ensures Advancing(data, ParseClassNetCache)
  {
    forall p: nat | ParseClassNetCache(data, p).Ok?
      ensures p <= ParseClassNetCache(data, p).next
    {
      ClassNetCacheSize(data, p);
    }
  }

  lemma ClassNetCachesReadBack(data: seq<byte>)
    ensures ReadsBack(data, ParseClassNetCache, EncodeClassNetCache, WellFormedClassNetCache)
  {
    forall x: ClassNetCache, p: nat | WellFormedClassNetCache(x) && IsAt(data, p, EncodeClassNetCache(x))
      ensures ParseClassNetCache(data, p) == Ok(x, p + |EncodeClassNetCache(x)|)
    {
      ClassNetCacheRoundTrip(data, p, x);
    }
  }

  lemma ClassNetCachesLocal(data: seq<byte>, data2: seq<byte>, lo: nat, hi: nat)
    requires Agree(data, data2, lo, hi)
    ensures LocalTo(data, data2, lo, hi, ParseClassNetCache)
  {
    forall p: nat | lo <= p && ParseClassNetCache(data, p).Ok? && ParseClassNetCache(data, p).next <= hi
      ensures ParseClassNetCache(data2, p) == ParseClassNetCache(data, p)
    {
      ClassNetCacheFrame(data, data2, lo, hi, p);
    }
  }

  // ---------------------------------------------------------------------
  // The count-prefixed tables of each record, read back and framed.
  // ---------------------------------------------------------------------

  lemma StringTableRoundTrip(data: seq<byte>, pos: nat, xs: seq<ReplayString>)
    requires |xs| < TWO_32 && AllWellFormed(xs, WellFormed)
    requires IsAt(data, pos, EncodePrefixed(xs, Encode))
    ensures ParsePrefixed(data, pos, ParseReplayString) == Ok(xs, pos + |EncodePrefixed(xs, Encode)|)
  {
    StringsReadBack(data);
    PrefixedRoundTrip(data, pos, xs, ParseReplayString, Encode, WellFormed);
  }

  lemma KeyframeTableRoundTrip(data: seq<byte>, pos: nat, xs: seq<Keyframe>)
    requires |xs| < TWO_32 && AllWellFormed(xs, WellFormedKeyframe)
    requires IsAt(data, pos, EncodePrefixed(xs, EncodeKeyframe))
    ensures ParsePrefixed(data, pos, ParseKeyframe) == Ok(xs, pos + |EncodePrefixed(xs, EncodeKeyframe)|)
  {
    KeyframesReadBack(data);
    PrefixedRoundTrip(data, pos, xs, ParseKeyframe, EncodeKeyframe, WellFormedKeyframe);
  }

  lemma DebugInfoTableRoundTrip(data: seq<byte>, pos: nat, xs: seq<DebugInfo>)
    requires |xs| < TWO_32 && AllWellFormed(xs, WellFormedDebugInfo)
    requires IsAt(data, pos, EncodePrefixed(xs, EncodeDebugInfo))
    ensures ParsePrefixed(data, pos, ParseDebugInfo) == Ok(xs, pos + |EncodePrefixed(xs, EncodeDebugInfo)|)
  {
    DebugInfosReadBack(data);
    PrefixedRoundTrip(data, pos, xs, ParseDebugInfo, EncodeDebugInfo, WellFormedDebugInfo);
  }

  lemma TickmarkTableRoundTrip(data: seq<byte>, pos: nat, xs: seq<Tickmark>)
    requires |xs| < TWO_32 && AllWellFormed(xs, WellFormedTickmark)
    requires IsAt(data, pos, EncodePrefixed(xs, EncodeTickmark))
    ensures ParsePrefixed(data, pos, ParseTickmark) == Ok(xs, pos + |EncodePrefixed(xs, EncodeTickmark)|)
  {
    TickmarksReadBack(data);
    PrefixedRoundTrip(data, pos, xs, ParseTickmark, EncodeTickmark, WellFormedTickmark);
  }

  lemma ClassIndexTableRoundTrip(data: seq<byte>, pos: nat, xs: seq<ClassIndex>)
    requires |xs| < TWO_32 && AllWellFormed(xs, WellFormedClassIndex)
    requires IsAt(data, pos, EncodePrefixed(xs, EncodeClassIndex))
    ensures ParsePrefixed(data, pos, ParseClassIndex) == Ok(xs, pos + |EncodePrefixed(xs, EncodeClassIndex)|)
  {
    ClassIndicesReadBack(data);
    PrefixedRoundTrip(data, pos, xs, ParseClassIndex, EncodeClassIndex, WellFormedClassIndex);
  }

  lemma ClassNetCacheTableRoundTrip(data: seq<byte>, pos: nat, xs: seq<ClassNetCache>)
    requires |xs| < TWO_32 && AllWellFormed(xs, WellFormedClassNetCache)
    requires IsAt(data, pos, EncodePrefixed(xs, EncodeClassNetCache))
    ensures ParsePrefixed(data, pos, ParseClassNetCache) == Ok(xs, pos + |EncodePrefixed(xs, EncodeClassNetCache)|)
  {
    ClassNetCachesReadBack(data);
    PrefixedRoundTrip(data, pos, xs, ParseClassNetCache, EncodeClassNetCache, WellFormedClassNetCache);
  }

  // ---------------------------------------------------------------------
  // Every table takes at least its four count bytes.
  // ---------------------------------------------------------------------

  lemma StringTableAdvances(data: seq<byte>, pos: nat)
    ensures ParsePrefixed(data, pos, ParseReplayString).Ok? ==> pos + 4 <= ParsePrefixed(data, pos, ParseReplayString).next
  {
    PrefixedAdvances(data, pos, ParseReplayString);
  }

  lemma KeyframeTableAdvances(data: seq<byte>, pos: nat)
    ensures ParsePrefixed(data, pos, ParseKeyframe).Ok? ==> pos + 4 <= ParsePrefixed(data, pos, ParseKeyframe).next
  {
    PrefixedAdvances(data, pos, ParseKeyframe);
  }

  lemma DebugInfoTableAdvances(data: seq<byte>, pos: nat)
    ensures ParsePrefixed(data, pos, ParseDebugInfo).Ok? ==> pos + 4 <= ParsePrefixed(data, pos, ParseDebugInfo).next
  {
    PrefixedAdvances(data, pos, ParseDebugInfo);
  }

  lemma TickmarkTableAdvances(data: seq<byte>, pos: nat)
    ensures ParsePrefixed(data, pos, ParseTickmark).Ok? ==> pos + 4 <= ParsePrefixed(data, pos, ParseTickmark).next
  {
    PrefixedAdvances(data, pos, ParseTickmark);
  }

  lemma ClassIndexTableAdvances(data: seq<byte>, pos: nat)
    ensures ParsePrefixed(data, pos, ParseClassIndex).Ok? ==> pos + 4 <= ParsePrefixed(data, pos, ParseClassIndex).next
  {
    PrefixedAdvances(data, pos, ParseClassIndex);
  }

  lemma ClassNetCacheTableAdvances(data: seq<byte>, pos: nat)
    ensures ParsePrefixed(data, pos, ParseClassNetCache).Ok? ==> pos + 4 <= ParsePrefixed(data, pos, ParseClassNetCache).next
  {
    ClassNetCachesAdvance(data);
    PrefixedAdvances(data, pos, ParseClassNetCache);
  }

  lemma StringTableFrame(data: seq<byte>, data2: seq<byte>, lo: nat, hi: nat, pos: nat)
    requires Agree(data, data2, lo, hi)
    requires ParsePrefixed(data, pos, ParseReplayString).Ok? && lo <= pos && ParsePrefixed(data, pos, ParseReplayString).next <= hi
    ensures ParsePrefixed(data2, pos, ParseReplayString) == ParsePrefixed(data, pos, ParseReplayString)
    ensures pos + 4 <= ParsePrefixed(data, pos, ParseReplayString).next
  {
    StringsLocal(data, data2, lo, hi);
    PrefixedAdvances(data, pos, ParseReplayString);
    PrefixedFrame(data, data2, lo, hi, pos, ParseReplayString);
  }

  lemma KeyframeTableFrame(data: seq<byte>, data2: seq<byte>, lo: nat, hi: nat, pos: nat)
    requires Agree(data, data2, lo, hi)
    requires ParsePrefixed(data, pos, ParseKeyframe).Ok? && lo <= pos && ParsePrefixed(data, pos, ParseKeyframe).next <= hi
    ensures ParsePrefixed(data2, pos, ParseKeyframe) == ParsePrefixed(data, pos, ParseKeyframe)
    ensures pos + 4 <= ParsePrefixed(data, pos, ParseKeyframe).next
  {
    KeyframesLocal(data, data2, lo, hi);
    PrefixedAdvances(data, pos, ParseKeyframe);
    PrefixedFrame(data, data2, lo, hi, pos, ParseKeyframe);
  }

  lemma DebugInfoTableFrame(data: seq<byte>, data2: seq<byte>, lo: nat, hi: nat, pos: nat)
    requires Agree(data, data2, lo, hi)
    requires ParsePrefixed(data, pos, ParseDebugInfo).Ok? && lo <= pos && ParsePrefixed(data, pos, ParseDebugInfo).next <= hi
    ensures ParsePrefixed(data2, pos, ParseDebugInfo) == ParsePrefixed(data, pos, ParseDebugInfo)
    ensures pos + 4 <= ParsePrefixed(data, pos, ParseDebugInfo).next
  {
    DebugInfosLocal(data, data2, lo, hi);
    PrefixedAdvances(data, pos, ParseDebugInfo);
    PrefixedFrame(data, data2, lo, hi, pos, ParseDebugInfo);
  }

  lemma TickmarkTableFrame(data: seq<byte>, data2: seq<byte>, lo: nat, hi: nat, pos: nat)
    requires Agree(data, data2, lo, hi)
    requires ParsePrefixed(data, pos, ParseTickmark).Ok? && lo <= pos && ParsePrefixed(data, pos, ParseTickmark).next <= hi
    ensures ParsePrefixed(data2, pos, ParseTickmark) == ParsePrefixed(data, pos, ParseTickmark)
    ensures pos + 4 <= ParsePrefixed(data, pos, ParseTickmark).next
  {
    TickmarksLocal(data, data2, lo, hi);
    PrefixedAdvances(data, pos, ParseTickmark);
    PrefixedFrame(data, data2, lo, hi, pos, ParseTickmark);
  }

  lemma ClassIndexTableFrame(data: seq<byte>, data2: seq<byte>, lo: nat, hi: nat, pos: nat)
    requires Agree(data, data2, lo, hi)
    requires ParsePrefixed(data, pos, ParseClassIndex).Ok? && lo <= pos && ParsePrefixed(data, pos, ParseClassIndex).next <= hi
    ensures ParsePrefixed(data2, pos, ParseClassIndex) == ParsePrefixed(data, pos, ParseClassIndex)
    ensures pos + 4 <= ParsePrefixed(data, pos, ParseClassIndex).next
  {
    ClassIndicesLocal(data, data2, lo, hi);
    PrefixedAdvances(data, pos, ParseClassIndex);
    PrefixedFrame(data, data2, lo, hi, pos, ParseClassIndex);
  }

  lemma ClassNetCacheTableFrame(data: seq<byte>, data2: seq<byte>, lo: nat, hi: nat, pos: nat)
    requires Agree(data, data2, lo, hi)
    requires ParsePrefixed(data, pos, ParseClassNetCache).Ok? && lo <= pos && ParsePrefixed(data, pos, ParseClassNetCache).next <= hi
    ensures ParsePrefixed(data2, pos, ParseClassNetCache) == ParsePrefixed(data, pos, ParseClassNetCache)
    ensures pos + 4 <= ParsePrefixed(data, pos, ParseClassNetCache).next
  {
    ClassNetCachesLocal(data, data2, lo, hi);
    ClassNetCachesAdvance(data);
    PrefixedAdvances(data, pos, ParseClassNetCache);
    PrefixedFrame(data, data2, lo, hi, pos, ParseClassNetCache);
  }

  // ---------------------------------------------------------------------
  // What a successful read returns: a record the encoder can write back,
  // of exactly its encoded size, and tables of such records.
  // ---------------------------------------------------------------------

  lemma StringsWellFormed(data: seq<byte>)
    ensures ReadsWellFormed(data, ParseReplayString, Encode, WellFormed)
  {
    forall p: nat | ParseReplayString(data, p).Ok?
      ensures WellFormed(ParseReplayString(data, p).value)
    {
      ParsedStringWellFormed(data, p);
    }
  }

  lemma KeyframesWellFormed(data: seq<byte>)
    ensures ReadsWellFormed(data, ParseKeyframe, EncodeKeyframe, WellFormedKeyframe)
  {
  }

  lemma CachePropertiesWellFormed(data: seq<byte>)
    ensures ReadsWellFormed(data, ParseCacheProperty, EncodeCacheProperty, WellFormedCacheProperty)
  {
  }

  /** A debug line read returns a frame below 2^32 and two well-formed
      strings, and consumes exactly their encoded size. */
  lemma ParsedDebugInfoShape(data: seq<byte>, pos: nat)
    requires ParseDebugInfo(data, pos).Ok?
    ensures WellFormedDebugInfo(ParseDebugInfo(data, pos).value)
    ensures ParseDebugInfo(data, pos).next == pos + |EncodeDebugInfo(ParseDebugInfo(data, pos).value)|
  {
    ParsedStringWellFormed(data, pos + 4);
    ParsedStringWellFormed(data, ParseReplayString(data, pos + 4).next);
  }

  lemma DebugInfosWellFormed(data: seq<byte>)
    ensures ReadsWellFormed(data, ParseDebugInfo, EncodeDebugInfo, WellFormedDebugInfo)
  {
    forall p: nat | ParseDebugInfo(data, p).Ok?
      ensures WellFormedDebugInfo(ParseDebugInfo(data, p).value)
      ensures ParseDebugInfo(data, p).next == p + |EncodeDebugInfo(ParseDebugInfo(data, p).value)|
    {
      ParsedDebugInfoShape(data, p);
    }
  }

  /** A tickmark read returns a well-formed description and a frame below
      2^32, and consumes exactly their encoded size. */
  lemma ParsedTickmarkShape(data: seq<byte>, pos: nat)
    requires ParseTickmark(data, pos).Ok?
    ensures WellFormedTickmark(ParseTickmark(data, pos).value)
    ensures ParseTickmark(data, pos).next == pos + |EncodeTickmark(ParseTickmark(data, pos).value)|
  {
    ParsedStringWellFormed(data, pos);
  }

  lemma TickmarksWellFormed(data: seq<byte>)
    ensures ReadsWellFormed(data, ParseTickmark, EncodeTickmark, WellFormedTickmark)
  {
    forall p: nat | ParseTickmark(data, p).Ok?
      ensures WellFormedTickmark(ParseTickmark(data, p).value)
      ensures ParseTickmark(data, p).next == p + |EncodeTickmark(ParseTickmark(data, p).value)|
    {
      ParsedTickmarkShape(data, p);
    }
  }

  /** A class index read returns a well-formed class name and an id below
      2^32, and consumes exactly their encoded size. */
  lemma ParsedClassIndexShape(data: seq<byte>, pos: nat)
    requires ParseClassIndex(data, pos).Ok?
    ensures WellFormedClassIndex(ParseClassIndex(data, pos).value)
    ensures ParseClassIndex(data, pos).next == pos + |EncodeClassIndex(ParseClassIndex(data, pos).value)|
  {
    ParsedStringWellFormed(data, pos);
  }

  lemma ClassIndicesWellFormed(data: seq<byte>)
    ensures ReadsWellFormed(data, ParseClassIndex, EncodeClassIndex, WellFormedClassIndex)
  {
    forall p: nat | ParseClassIndex(data, p).Ok?
      ensures WellFormedClassIndex(ParseClassIndex(data, p).value)
      ensures ParseClassIndex(data, p).next == p + |EncodeClassIndex(ParseClassIndex(data, p).value)|
    {
      ParsedClassIndexShape(data, p);
    }
  }

  /** A class net cache read returns three ids and a property table the
      encoder can write back, and consumes exactly their encoded size. */
  lemma ParsedClassNetCacheShape(data: seq<byte>, pos: nat)
    requires ParseClassNetCache(data, pos).Ok?
    ensures WellFormedClassNetCache(ParseClassNetCache(data, pos).value)
    ensures ParseClassNetCache(data, pos).next == pos + |EncodeClassNetCache(ParseClassNetCache(data, pos).value)|
  {
    CachePropertiesWellFormed(data);
    ParsedPrefixedShape(data, pos + 12, ParseCacheProperty, EncodeCacheProperty, WellFormedCacheProperty);
  }

  lemma ClassNetCachesWellFormed(data: seq<byte>)
    ensures ReadsWellFormed(data, ParseClassNetCache, EncodeClassNetCache, WellFormedClassNetCache)
  {
    forall p: nat | ParseClassNetCache(data, p).Ok?
      ensures WellFormedClassNetCache(ParseClassNetCache(data, p).value)
      ensures ParseClassNetCache(data, p).next == p + |EncodeClassNetCache(ParseClassNetCache(data, p).value)|
    {
      ParsedClassNetCacheShape(data, p);
    }
  }

  lemma StringTableShape(data: seq<byte>, pos: nat)
    requires ParsePrefixed(data, pos, ParseReplayString).Ok?
    ensures var xs := ParsePrefixed(data, pos, ParseReplayString).value;
      && |xs| < TWO_32 && AllWellFormed(xs, WellFormed)
      && ParsePrefixed(data, pos, ParseReplayString).next == pos + |EncodePrefixed(xs, Encode)|
  {
    StringsWellFormed(data);
    ParsedPrefixedShape(data, pos, ParseReplayString, Encode, WellFormed);
  }

  lemma KeyframeTableShape(data: seq<byte>, pos: nat)
    requires ParsePrefixed(data, pos, ParseKeyframe).Ok?
    ensures var xs := ParsePrefixed(data, pos, ParseKeyframe).value;
      && |xs| < TWO_32 && AllWellFormed(xs, WellFormedKeyframe)
      && ParsePrefixed(data, pos, ParseKeyframe).next == pos + |EncodePrefixed(xs, EncodeKeyframe)|
  {
    KeyframesWellFormed(data);
    ParsedPrefixedShape(data, pos, ParseKeyframe, EncodeKeyframe, WellFormedKeyframe);
  }

  lemma DebugInfoTableShape(data: seq<byte>, pos: nat)
    requires ParsePrefixed(data, pos, ParseDebugInfo).Ok?
    ensures var xs := ParsePrefixed(data, pos, ParseDebugInfo).value;
      && |xs| < TWO_32 && AllWellFormed(xs, WellFormedDebugInfo)
      && ParsePrefixed(data, pos, ParseDebugInfo).next == pos + |EncodePrefixed(xs, EncodeDebugInfo)|
  {
    DebugInfosWellFormed(data);
    ParsedPrefixedShape(data, pos, ParseDebugInfo, EncodeDebugInfo, WellFormedDebugInfo);
  }

  lemma TickmarkTableShape(data: seq<byte>, pos: nat)
    requires ParsePrefixed(data, pos, ParseTickmark).Ok?
    ensures var xs := ParsePrefixed(data, pos, ParseTickmark).value;
      && |xs| < TWO_32 && AllWellFormed(xs, WellFormedTickmark)
      && ParsePrefixed(data, pos, ParseTickmark).next == pos + |EncodePrefixed(xs, EncodeTickmark)|
  {
    TickmarksWellFormed(data);
    ParsedPrefixedShape(data, pos, ParseTickmark, EncodeTickmark, WellFormedTickmark);
  }

  lemma ClassIndexTableShape(data: seq<byte>, pos: nat)
    requires ParsePrefixed(data, pos, ParseClassIndex).Ok?
    ensures var xs := ParsePrefixed(data, pos, ParseClassIndex).value;
      && |xs| < TWO_32 && AllWellFormed(xs, WellFormedClassIndex)
      && ParsePrefixed(data, pos, ParseClassIndex).next == pos + |EncodePrefixed(xs, EncodeClassIndex)|
  {
    ClassIndicesWellFormed(data);
    ParsedPrefixedShape(data, pos, ParseClassIndex, EncodeClassIndex, WellFormedClassIndex);
  }

  lemma ClassNetCacheTableShape(data: seq<byte>, pos: nat)
    requires ParsePrefixed(data, pos, ParseClassNetCache).Ok?
    ensures var xs := ParsePrefixed(data, pos, ParseClassNetCache).value;
      && |xs| < TWO_32 && AllWellFormed(xs, WellFormedClassNetCache)
      && ParsePrefixed(data, pos, ParseClassNetCache).next == pos + |EncodePrefixed(xs, EncodeClassNetCache)|
  {
    ClassNetCachesWellFormed(data);
    ParsedPrefixedShape(data, pos, ParseClassNetCache, EncodeClassNetCache, WellFormedClassNetCache);
  }
}
