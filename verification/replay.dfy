/** The whole `replay` structure: a header (metadata, game type and the
    header properties), a body (levels, keyframes and the network stream,
    which is skipped by its size field and never read) and a footer of seven
    count-prefixed tables and a signed `end` word, after which the input
    must be exhausted. */
module Replay {
  import opened Parsing
  import opened ReplayStrings
  import opened Properties
  import opened PropertyLemmas
  import opened PropertyShape
  import opened Arrays
  import opened Records

  // ---------------------------------------------------------------------
  // Header.
  // ---------------------------------------------------------------------

  /** A network version field is present only when the major version is above
      865 and the minor version above 17. */
  const NETWORK_VERSION_MAJOR: nat := 865
  const NETWORK_VERSION_MINOR: nat := 17

  predicate HasNetworkVersion(major: nat, minor: nat) {
    major > NETWORK_VERSION_MAJOR && minor > NETWORK_VERSION_MINOR
  }

  datatype Versions = Versions(major: nat, minor: nat, network: Option<nat>)

  datatype Header = Header(size: nat, crc: nat, versions: Versions, gameType: ReplayString, properties: PropertyList)

  predicate WellFormedVersions(v: Versions) {
    && v.major < TWO_32 && v.minor < TWO_32
    && (v.network.Some? <==> HasNetworkVersion(v.major, v.minor))
    && (v.network.Some? ==> v.network.value < TWO_32)
  }

  predicate WellFormedHeader(h: Header) {
    && h.size < TWO_32 && h.crc < TWO_32
    && WellFormedVersions(h.versions)
    && WellFormed(h.gameType)
    && WellFormedList(h.properties)
  }

  /** The major and minor versions, then the optional network version. The
      network version is read exactly when the versions call for it, and it
      takes four bytes then; otherwise nothing is read. */
  function ParseVersions(data: seq<byte>, pos: nat): (r: Parsed<Versions>)
    ensures r.Ok? <==>
      && pos + 8 <= |data|
      && (HasNetworkVersion(U32At(data, pos), U32At(data, pos + 4)) ==> pos + 12 <= |data|)
    ensures r.Ok? ==>
      && r.value.major == U32At(data, pos) && r.value.minor == U32At(data, pos + 4)
      && (r.value.network.Some? <==> HasNetworkVersion(r.value.major, r.value.minor))
      && r.next == pos + 8 + (if r.value.network.Some? then 4 else 0)
  {
    match ReadU32(data, pos)
    case Fail => Fail
    case Ok(major, p1) =>
      match ReadU32(data, p1)
      case Fail => Fail
      case Ok(minor, p2) =>
        if HasNetworkVersion(major, minor) then
          match ReadU32(data, p2)
          case Fail => Fail
          case Ok(nv, p3) => Ok(Versions(major, minor, Some(nv)), p3)
        else Ok(Versions(major, minor, None), p2)
  }

  function EncodeVersions(v: Versions): seq<byte> {
    EncodeU32(v.major) + EncodeU32(v.minor) +
    match v.network
    case Some(nv) => EncodeU32(nv)
    case None => []
  }

  /** The header: size, CRC, versions, game type and the property list. It
      takes at least 26 bytes: four each for size and CRC, eight for the
      versions, five for the shortest string and five for the shortest
      property list, the lone "None" key. */
  function ParseHeader(data: seq<byte>, pos: nat): (r: Parsed<Header>)
    ensures r.Ok? ==> pos + 26 <= r.next <= |data|
  {
    match ReadU32(data, pos)
    case Fail => Fail
    case Ok(size, p1) =>
      match ReadU32(data, p1)
      case Fail => Fail
      case Ok(crc, p2) =>
        match ParseVersions(data, p2)
        case Fail => Fail
        case Ok(v, p3) =>
          match ParseReplayString(data, p3)
          case Fail => Fail
          case Ok(gt, p4) =>
            match ParsePropertyList(data, p4)
            case Fail => Fail
            case Ok(props, p5) => Ok(Header(size, crc, v, gt, props), p5)
  }

  function EncodeHeader(h: Header): seq<byte> {
    EncodeU32(h.size) + (EncodeU32(h.crc) + (EncodeVersions(h.versions) + (Encode(h.gameType) + EncodeList(h.properties))))
  }

  lemma VersionsRoundTrip(data: seq<byte>, pos: nat, v: Versions)
    requires WellFormedVersions(v) && IsAt(data, pos, EncodeVersions(v))
    ensures ParseVersions(data, pos) == Ok(v, pos + |EncodeVersions(v)|)
  {
    var tail := match v.network case Some(nv) => EncodeU32(nv) case None => [];
    IsAtSplit(data, pos, EncodeU32(v.major) + EncodeU32(v.minor), tail, pos + 8);
    IsAtSplit(data, pos, EncodeU32(v.major), EncodeU32(v.minor), pos + 4);
    ReadU32RoundTrip(data, pos, v.major);
    ReadU32RoundTrip(data, pos + 4, v.minor);
    if v.network.Some? {
      ReadU32RoundTrip(data, pos + 8, v.network.value);
    }
  }

  ghost predicate PropertiesAt(data: seq<byte>, pos: nat, l: PropertyList, next: nat) {
    ParsePropertyList(data, pos) == Ok(l, next)
  }

  lemma HeaderStep(data: seq<byte>, pos: nat, h: Header, p1: nat, p2: nat, p3: nat, p4: nat, p5: nat)
    requires ReadU32(data, pos) == Ok(h.size, p1)
    requires ReadU32(data, p1) == Ok(h.crc, p2)
    requires ParseVersions(data, p2) == Ok(h.versions, p3)
    requires ParseReplayString(data, p3) == Ok(h.gameType, p4)
    requires PropertiesAt(data, p4, h.properties, p5)
    ensures ParseHeader(data, pos) == Ok(h, p5)
  {
  }

  /** Where the five parts of an encoded header lie. */
  lemma HeaderSplit(data: seq<byte>, pos: nat, h: Header)
    requires IsAt(data, pos, EncodeHeader(h))
    ensures IsAt(data, pos, EncodeU32(h.size))
    ensures IsAt(data, pos + 4, EncodeU32(h.crc))
    ensures IsAt(data, pos + 8, EncodeVersions(h.versions))
    ensures IsAt(data, pos + 8 + |EncodeVersions(h.versions)|, Encode(h.gameType))
    ensures IsAt(data, pos + 8 + |EncodeVersions(h.versions)| + |Encode(h.gameType)|, EncodeList(h.properties))
  {
    var e1, e2, e3, e4, e5 := EncodeU32(h.size), EncodeU32(h.crc), EncodeVersions(h.versions), Encode(h.gameType), EncodeList(h.properties);
    IsAtSplit(data, pos, e1, e2 + (e3 + (e4 + e5)), pos + 4);
    IsAtSplit(data, pos + 4, e2, e3 + (e4 + e5), pos + 8);
    IsAtSplit(data, pos + 8, e3, e4 + e5, pos + 8 + |e3|);
    IsAtSplit(data, pos + 8 + |e3|, e4, e5, pos + 8 + |e3| + |e4|);
  }

  /** Every well-formed header reads back from its own bytes. */
  lemma HeaderRoundTrip(data: seq<byte>, pos: nat, h: Header)
    requires WellFormedHeader(h) && IsAt(data, pos, EncodeHeader(h))
    ensures ParseHeader(data, pos) == Ok(h, pos + |EncodeHeader(h)|)
  {
    HeaderFrontAt(data, pos, h);
    HeaderBackAt(data, pos, h);
    HeaderStep(data, pos, h, pos + 4, pos + 8, pos + 8 + |EncodeVersions(h.versions)|,
               pos + 8 + |EncodeVersions(h.versions)| + |Encode(h.gameType)|,
               pos + 8 + |EncodeVersions(h.versions)| + |Encode(h.gameType)| + |EncodeList(h.properties)|);
  }

  lemma HeaderFrontAt(data: seq<byte>, pos: nat, h: Header)
    requires WellFormedHeader(h) && IsAt(data, pos, EncodeHeader(h))
    ensures ReadU32(data, pos) == Ok(h.size, pos + 4)
    ensures ReadU32(data, pos + 4) == Ok(h.crc, pos + 8)
    ensures ParseVersions(data, pos + 8) == Ok(h.versions, pos + 8 + |EncodeVersions(h.versions)|)
  {
    HeaderSplit(data, pos, h);
    HeaderFrontRead(data, pos, h);
  }

  lemma HeaderBackAt(data: seq<byte>, pos: nat, h: Header)
    requires WellFormedHeader(h) && IsAt(data, pos, EncodeHeader(h))
    ensures ParseReplayString(data, pos + 8 + |EncodeVersions(h.versions)|)
         == Ok(h.gameType, pos + 8 + |EncodeVersions(h.versions)| + |Encode(h.gameType)|)
    ensures PropertiesAt(data, pos + 8 + |EncodeVersions(h.versions)| + |Encode(h.gameType)|,
                         h.properties, pos + 8 + |EncodeVersions(h.versions)| + |Encode(h.gameType)| + |EncodeList(h.properties)|)
  {
    HeaderSplit(data, pos, h);
    HeaderBackRead(data, pos + 8 + |EncodeVersions(h.versions)|, h);
  }

  /** The size, the CRC and the versions read back. */
  lemma HeaderFrontRead(data: seq<byte>, pos: nat, h: Header)
    requires WellFormedHeader(h)
    requires IsAt(data, pos, EncodeU32(h.size))
    requires IsAt(data, pos + 4, EncodeU32(h.crc))
    requires IsAt(data, pos + 8, EncodeVersions(h.versions))
    ensures ReadU32(data, pos) == Ok(h.size, pos + 4)
    ensures ReadU32(data, pos + 4) == Ok(h.crc, pos + 8)
    ensures ParseVersions(data, pos + 8) == Ok(h.versions, pos + 8 + |EncodeVersions(h.versions)|)
  {
    ReadU32RoundTrip(data, pos, h.size);
    ReadU32RoundTrip(data, pos + 4, h.crc);
    VersionsRoundTrip(data, pos + 8, h.versions);
  }

  /** The game type and the property list read back. */
  lemma HeaderBackRead(data: seq<byte>, pos: nat, h: Header)
    requires WellFormedHeader(h)
    requires IsAt(data, pos, Encode(h.gameType))
    requires IsAt(data, pos + |Encode(h.gameType)|, EncodeList(h.properties))
    ensures ParseReplayString(data, pos) == Ok(h.gameType, pos + |Encode(h.gameType)|)
    ensures PropertiesAt(data, pos + |Encode(h.gameType)|, h.properties, pos + |Encode(h.gameType)| + |EncodeList(h.properties)|)
  {
    GameTypeRead(data, pos, h);
    PropertiesRead(data, pos + |Encode(h.gameType)|, h);
  }

  lemma GameTypeRead(data: seq<byte>, pos: nat, h: Header)
    requires WellFormedHeader(h)
    requires IsAt(data, pos, Encode(h.gameType))
    ensures ParseReplayString(data, pos) == Ok(h.gameType, pos + |Encode(h.gameType)|)
  {
    ReplayStringRoundTrip(data, pos, h.gameType);
  }

  lemma PropertiesRead(data: seq<byte>, pos: nat, h: Header)
    requires WellFormedHeader(h)
    requires IsAt(data, pos, EncodeList(h.properties))
    ensures PropertiesAt(data, pos, h.properties, pos + |EncodeList(h.properties)|)
  {
    ListRoundTrip(data, pos, h.properties);
  }

  lemma VersionsFrame(data: seq<byte>, data2: seq<byte>, lo: nat, hi: nat, pos: nat)
    requires ParseVersions(data, pos).Ok?
    requires Agree(data, data2, lo, hi) && lo <= pos && ParseVersions(data, pos).next <= hi
    ensures ParseVersions(data2, pos) == ParseVersions(data, pos)
  {
    ReadU32Frame(data, data2, lo, hi, pos);
    ReadU32Frame(data, data2, lo, hi, pos + 4);
    if ParseVersions(data, pos).value.network.Some? {
      ReadU32Frame(data, data2, lo, hi, pos + 8);
    }
  }

  lemma HeaderFrame(data: seq<byte>, data2: seq<byte>, lo: nat, hi: nat, pos: nat)
    requires ParseHeader(data, pos).Ok?
    requires Agree(data, data2, lo, hi) && lo <= pos && ParseHeader(data, pos).next <= hi
    ensures ParseHeader(data2, pos) == ParseHeader(data, pos)
  {
    var h := ParseHeader(data, pos).value;
    var p1 := pos + 4;
    var p2 := p1 + 4;
    var p3 := ParseVersions(data, p2).next;
    var p4 := ParseReplayString(data, p3).next;
    var p5 := ParseHeader(data, pos).next;
    ReadU32Frame(data, data2, lo, hi, pos);
    ReadU32Frame(data, data2, lo, hi, p1);
    VersionsFrame(data, data2, lo, hi, p2);
    ReplayStringFrame(data, data2, lo, hi, p3);
    PropertyListFrame(data, data2, lo, hi, p4);
    HeaderStep(data2, pos, h, p1, p2, p3, p4, p5);
  }

  /** A versions read returns words below 2^32, a network version exactly
      when the versions call for one, and consumes exactly their encoded size. */
  lemma ParsedVersionsShape(data: seq<byte>, pos: nat)
    requires ParseVersions(data, pos).Ok?
    ensures WellFormedVersions(ParseVersions(data, pos).value)
    ensures ParseVersions(data, pos).next == pos + |EncodeVersions(ParseVersions(data, pos).value)|
  {
  }

  /** A header read returns a well-formed header, one the encoder accepts, and
      consumes exactly its encoded size. */
  lemma ParsedHeaderShape(data: seq<byte>, pos: nat)
    requires ParseHeader(data, pos).Ok?
    ensures WellFormedHeader(ParseHeader(data, pos).value)
    ensures ParseHeader(data, pos).next == pos + |EncodeHeader(ParseHeader(data, pos).value)|
  {
    var p3 := ParseVersions(data, pos + 8).next;
    var p4 := ParseReplayString(data, p3).next;
    ParsedVersionsShape(data, pos + 8);
    ParsedStringWellFormed(data, p3);
    ParsedListShape(data, p4);
  }

  // ---------------------------------------------------------------------
  // Body.
  // ---------------------------------------------------------------------

  datatype Body = Body(size: nat, crc: nat, levels: seq<ReplayString>, keyframes: seq<Keyframe>, networkStreamSize: nat)

  predicate WellFormedBody(b: Body) {
    && b.size < TWO_32 && b.crc < TWO_32
    && |b.levels| < TWO_32 && AllWellFormed(b.levels, WellFormed)
    && |b.keyframes| < TWO_32 && AllWellFormed(b.keyframes, WellFormedKeyframe)
    && b.networkStreamSize < TWO_32
  }

  /** The body's fields, up to and including the network stream's size. */
  function ParseBodyFields(data: seq<byte>, pos: nat): (r: Parsed<Body>)
    ensures r.Ok? ==> r.next <= |data|
  {
    match ReadU32(data, pos)
    case Fail => Fail
    case Ok(size, p1) =>
      match ReadU32(data, p1)
      case Fail => Fail
      case Ok(crc, p2) =>
        match ParsePrefixed(data, p2, ParseReplayString)
        case Fail => Fail
        case Ok(levels, p3) =>
          match ParsePrefixed(data, p3, ParseKeyframe)
          case Fail => Fail
          case Ok(kfs, p4) =>
            match ReadU32(data, p4)
            case Fail => Fail
            case Ok(n, p5) => Ok(Body(size, crc, levels, kfs, n), p5)
  }

  /** The body fields take at least their four words: size, CRC and the two
      table counts. */
  lemma BodyFieldsLayout(data: seq<byte>, pos: nat)
    requires ParseBodyFields(data, pos).Ok?
    ensures pos + 20 <= ParseBodyFields(data, pos).next
  {
    var p3 := ParsePrefixed(data, pos + 8, ParseReplayString).next;
    StringTableAdvances(data, pos + 8);
    KeyframeTableAdvances(data, p3);
  }

  /** The body: its fields, then a forward seek over the network stream. The
      stream's bytes are not read, and the seek itself never fails, even past
      the end of the input. */
  function ParseBody(data: seq<byte>, pos: nat): (r: Parsed<Body>)
    ensures r.Ok? <==> ParseBodyFields(data, pos).Ok?
    ensures r.Ok? ==>
      && r.value == ParseBodyFields(data, pos).value
      && r.next == ParseBodyFields(data, pos).next + r.value.networkStreamSize
  {
    match ParseBodyFields(data, pos)
    case Fail => Fail
    case Ok(b, p) => Ok(b, p + b.networkStreamSize)
  }

  function EncodeBodyFields(b: Body): seq<byte> {
    EncodeU32(b.size) + (EncodeU32(b.crc) + (EncodePrefixed(b.levels, Encode)
      + (EncodePrefixed(b.keyframes, EncodeKeyframe) + EncodeU32(b.networkStreamSize))))
  }

  lemma BodyFieldsStep(data: seq<byte>, pos: nat, b: Body, p1: nat, p2: nat, p3: nat, p4: nat, p5: nat)
    requires ReadU32(data, pos) == Ok(b.size, p1)
    requires ReadU32(data, p1) == Ok(b.crc, p2)
    requires ParsePrefixed(data, p2, ParseReplayString) == Ok(b.levels, p3)
    requires ParsePrefixed(data, p3, ParseKeyframe) == Ok(b.keyframes, p4)
    requires ReadU32(data, p4) == Ok(b.networkStreamSize, p5)
    ensures ParseBodyFields(data, pos) == Ok(b, p5)
  {
  }

  /** Every well-formed body reads back from its own field bytes. */
  lemma BodyFieldsRoundTrip(data: seq<byte>, pos: nat, b: Body)
    requires WellFormedBody(b) && IsAt(data, pos, EncodeBodyFields(b))
    ensures ParseBodyFields(data, pos) == Ok(b, pos + |EncodeBodyFields(b)|)
  {
    var e1, e2, e3 := EncodeU32(b.size), EncodeU32(b.crc), EncodePrefixed(b.levels, Encode);
    var e4, e5 := EncodePrefixed(b.keyframes, EncodeKeyframe), EncodeU32(b.networkStreamSize);
    var p1 := pos + 4;
    var p2 := p1 + 4;
    var p3 := p2 + |e3|;
    var p4 := p3 + |e4|;
    var p5 := p4 + 4;
    IsAtSplit(data, pos, e1, e2 + (e3 + (e4 + e5)), p1);
    IsAtSplit(data, p1, e2, e3 + (e4 + e5), p2);
    IsAtSplit(data, p2, e3, e4 + e5, p3);
    IsAtSplit(data, p3, e4, e5, p4);
    ReadU32RoundTrip(data, pos, b.size);
    ReadU32RoundTrip(data, p1, b.crc);
    StringTableRoundTrip(data, p2, b.levels);
    KeyframeTableRoundTrip(data, p3, b.keyframes);
    ReadU32RoundTrip(data, p4, b.networkStreamSize);
    BodyFieldsStep(data, pos, b, p1, p2, p3, p4, p5);
  }

  /** Every well-formed body reads back: its fields from their own bytes,
      then a skip over as many bytes as the stream size says. */
  lemma BodyRoundTrip(data: seq<byte>, pos: nat, b: Body)
    requires WellFormedBody(b) && IsAt(data, pos, EncodeBodyFields(b))
    ensures ParseBody(data, pos) == Ok(b, pos + |EncodeBodyFields(b)| + b.networkStreamSize)
  {
    BodyFieldsRoundTrip(data, pos, b);
  }

  lemma BodyFieldsFrame(data: seq<byte>, data2: seq<byte>, lo: nat, hi: nat, pos: nat)
    requires ParseBodyFields(data, pos).Ok?
    requires Agree(data, data2, lo, hi) && lo <= pos && ParseBodyFields(data, pos).next <= hi
    ensures ParseBodyFields(data2, pos) == ParseBodyFields(data, pos)
  {
    var b := ParseBodyFields(data, pos).value;
    var p1 := pos + 4;
    var p2 := p1 + 4;
    var p3 := ParsePrefixed(data, p2, ParseReplayString).next;
    var p4 := ParsePrefixed(data, p3, ParseKeyframe).next;
    var p5 := p4 + 4;
    KeyframeTableAdvances(data, p3);
    StringTableFrame(data, data2, lo, hi, p2);
    KeyframeTableFrame(data, data2, lo, hi, p3);
    ReadU32Frame(data, data2, lo, hi, pos);
    ReadU32Frame(data, data2, lo, hi, p1);
    ReadU32Frame(data, data2, lo, hi, p4);
    BodyFieldsStep(data2, pos, b, p1, p2, p3, p4, p5);
  }

  /** A body fields read returns a body the encoder can write back, and
      consumes exactly its encoded size. */
  lemma ParsedBodyFieldsShape(data: seq<byte>, pos: nat)
    requires ParseBodyFields(data, pos).Ok?
    ensures WellFormedBody(ParseBodyFields(data, pos).value)
    ensures ParseBodyFields(data, pos).next == pos + |EncodeBodyFields(ParseBodyFields(data, pos).value)|
  {
    var b := ParseBodyFields(data, pos).value;
    var p3 := ParsePrefixed(data, pos + 8, ParseReplayString).next;
    var p4 := ParsePrefixed(data, p3, ParseKeyframe).next;
    assert ParsePrefixed(data, pos + 8, ParseReplayString).value == b.levels;
    assert ParsePrefixed(data, p3, ParseKeyframe).value == b.keyframes;
    StringTableShape(data, pos + 8);
    KeyframeTableShape(data, p3);
    assert ParseBodyFields(data, pos).next == p4 + 4;
  }

  // ---------------------------------------------------------------------
  // Footer.
  // ---------------------------------------------------------------------

  datatype Footer = Footer(
    debugInfo: seq<DebugInfo>,
    tickmarks: seq<Tickmark>,
    packages: seq<ReplayString>,
    objects: seq<ReplayString>,
    names: seq<ReplayString>,
    classIndices: seq<ClassIndex>,
    netCaches: seq<ClassNetCache>,
    end: int)

  predicate WellFormedFooter(f: Footer) {
    && |f.debugInfo| < TWO_32 && AllWellFormed(f.debugInfo, WellFormedDebugInfo)
    && |f.tickmarks| < TWO_32 && AllWellFormed(f.tickmarks, WellFormedTickmark)
    && |f.packages| < TWO_32 && AllWellFormed(f.packages, WellFormed)
    && |f.objects| < TWO_32 && AllWellFormed(f.objects, WellFormed)
    && |f.names| < TWO_32 && AllWellFormed(f.names, WellFormed)
    && |f.classIndices| < TWO_32 && AllWellFormed(f.classIndices, WellFormedClassIndex)
    && |f.netCaches| < TWO_32 && AllWellFormed(f.netCaches, WellFormedClassNetCache)
    && IsInt32(f.end)
  }

  /** The seven tables in order, then the signed `end` word, which must lie
      inside the input. */
  function ParseFooter(data: seq<byte>, pos: nat): (r: Parsed<Footer>)
    ensures r.Ok? ==> r.next <= |data| && IsInt32(r.value.end)
  {
    match ParsePrefixed(data, pos, ParseDebugInfo)
    case Fail => Fail
    case Ok(debug, p1) =>
      match ParsePrefixed(data, p1, ParseTickmark)
      case Fail => Fail
      case Ok(ticks, p2) =>
        match ParsePrefixed(data, p2, ParseReplayString)
        case Fail => Fail
        case Ok(packages, p3) =>
          match ParsePrefixed(data, p3, ParseReplayString)
          case Fail => Fail
          case Ok(objects, p4) =>
            match ParsePrefixed(data, p4, ParseReplayString)
            case Fail => Fail
            case Ok(names, p5) =>
              match ParsePrefixed(data, p5, ParseClassIndex)
              case Fail => Fail
              case Ok(classes, p6) =>
                match ParsePrefixed(data, p6, ParseClassNetCache)
                case Fail => Fail
                case Ok(caches, p7) =>
                  match ReadI32(data, p7)
                  case Fail => Fail
                  case Ok(end, p8) => Ok(Footer(debug, ticks, packages, objects, names, classes, caches, end), p8)
  }

  function EncodeFooter(f: Footer): seq<byte> {
    EncodePrefixed(f.debugInfo, EncodeDebugInfo) +
    (EncodePrefixed(f.tickmarks, EncodeTickmark) +
    (EncodePrefixed(f.packages, Encode) +
    (EncodePrefixed(f.objects, Encode) +
    (EncodePrefixed(f.names, Encode) +
    (EncodePrefixed(f.classIndices, EncodeClassIndex) +
    (EncodePrefixed(f.netCaches, EncodeClassNetCache) +
     EncodeI32(f.end)))))))
  }

  /** The positions where each footer part ends. */
  datatype FooterMarks = FooterMarks(p1: nat, p2: nat, p3: nat, p4: nat, p5: nat, p6: nat, p7: nat, p8: nat)

  lemma FooterStep(data: seq<byte>, pos: nat, f: Footer, m: FooterMarks)
    requires ParsePrefixed(data, pos, ParseDebugInfo) == Ok(f.debugInfo, m.p1)
    requires ParsePrefixed(data, m.p1, ParseTickmark) == Ok(f.tickmarks, m.p2)
    requires ParsePrefixed(data, m.p2, ParseReplayString) == Ok(f.packages, m.p3)
    requires ParsePrefixed(data, m.p3, ParseReplayString) == Ok(f.objects, m.p4)
    requires ParsePrefixed(data, m.p4, ParseReplayString) == Ok(f.names, m.p5)
    requires ParsePrefixed(data, m.p5, ParseClassIndex) == Ok(f.classIndices, m.p6)
    requires ParsePrefixed(data, m.p6, ParseClassNetCache) == Ok(f.netCaches, m.p7)
    requires ReadI32(data, m.p7) == Ok(f.end, m.p8)
    ensures ParseFooter(data, pos) == Ok(f, m.p8)
  {
  }

  lemma FooterHead(data: seq<byte>, pos: nat, f: Footer, m: FooterMarks)
    requires |f.debugInfo| < TWO_32 && AllWellFormed(f.debugInfo, WellFormedDebugInfo)
    requires |f.tickmarks| < TWO_32 && AllWellFormed(f.tickmarks, WellFormedTickmark)
    requires |f.packages| < TWO_32 && AllWellFormed(f.packages, WellFormed)
    requires |f.objects| < TWO_32 && AllWellFormed(f.objects, WellFormed)
    requires IsAt(data, pos, EncodePrefixed(f.debugInfo, EncodeDebugInfo))
    requires IsAt(data, m.p1, EncodePrefixed(f.tickmarks, EncodeTickmark))
    requires IsAt(data, m.p2, EncodePrefixed(f.packages, Encode))
    requires IsAt(data, m.p3, EncodePrefixed(f.objects, Encode))
    requires m.p1 == pos + |EncodePrefixed(f.debugInfo, EncodeDebugInfo)|
    requires m.p2 == m.p1 + |EncodePrefixed(f.tickmarks, EncodeTickmark)|
    requires m.p3 == m.p2 + |EncodePrefixed(f.packages, Encode)|
    requires m.p4 == m.p3 + |EncodePrefixed(f.objects, Encode)|
    ensures ParsePrefixed(data, pos, ParseDebugInfo) == Ok(f.debugInfo, m.p1)
    ensures ParsePrefixed(data, m.p1, ParseTickmark) == Ok(f.tickmarks, m.p2)
    ensures ParsePrefixed(data, m.p2, ParseReplayString) == Ok(f.packages, m.p3)
    ensures ParsePrefixed(data, m.p3, ParseReplayString) == Ok(f.objects, m.p4)
  {
    DebugInfoTableRoundTrip(data, pos, f.debugInfo);
    TickmarkTableRoundTrip(data, m.p1, f.tickmarks);
    StringTableRoundTrip(data, m.p2, f.packages);
    StringTableRoundTrip(data, m.p3, f.objects);
  }

  lemma FooterTail(data: seq<byte>, f: Footer, m: FooterMarks)
    requires |f.names| < TWO_32 && AllWellFormed(f.names, WellFormed)
    requires |f.classIndices| < TWO_32 && AllWellFormed(f.classIndices, WellFormedClassIndex)
    requires |f.netCaches| < TWO_32 && AllWellFormed(f.netCaches, WellFormedClassNetCache)
    requires IsInt32(f.end)
    requires IsAt(data, m.p4, EncodePrefixed(f.names, Encode))
    requires IsAt(data, m.p5, EncodePrefixed(f.classIndices, EncodeClassIndex))
    requires IsAt(data, m.p6, EncodePrefixed(f.netCaches, EncodeClassNetCache))
    requires IsAt(data, m.p7, EncodeI32(f.end))
    requires m.p5 == m.p4 + |EncodePrefixed(f.names, Encode)|
    requires m.p6 == m.p5 + |EncodePrefixed(f.classIndices, EncodeClassIndex)|
    requires m.p7 == m.p6 + |EncodePrefixed(f.netCaches, EncodeClassNetCache)|
    requires m.p8 == m.p7 + 4
    ensures ParsePrefixed(data, m.p4, ParseReplayString) == Ok(f.names, m.p5)
    ensures ParsePrefixed(data, m.p5, ParseClassIndex) == Ok(f.classIndices, m.p6)
    ensures ParsePrefixed(data, m.p6, ParseClassNetCache) == Ok(f.netCaches, m.p7)
    ensures ReadI32(data, m.p7) == Ok(f.end, m.p8)
  {
    StringTableRoundTrip(data, m.p4, f.names);
    ClassIndexTableRoundTrip(data, m.p5, f.classIndices);
    ClassNetCacheTableRoundTrip(data, m.p6, f.netCaches);
    ReadI32RoundTrip(data, m.p7, f.end);
  }

  /** Where each footer field starts when the footer is laid out from pos. */
  function FooterMarksOf(f: Footer, pos: nat): FooterMarks {
    var p1 := pos + |EncodePrefixed(f.debugInfo, EncodeDebugInfo)|;
    var p2 := p1 + |EncodePrefixed(f.tickmarks, EncodeTickmark)|;
    var p3 := p2 + |EncodePrefixed(f.packages, Encode)|;
    var p4 := p3 + |EncodePrefixed(f.objects, Encode)|;
    var p5 := p4 + |EncodePrefixed(f.names, Encode)|;
    var p6 := p5 + |EncodePrefixed(f.classIndices, EncodeClassIndex)|;
    var p7 := p6 + |EncodePrefixed(f.netCaches, EncodeClassNetCache)|;
    FooterMarks(p1, p2, p3, p4, p5, p6, p7, p7 + 4)
  }

  lemma FooterSplit(data: seq<byte>, pos: nat, f: Footer)
    requires IsAt(data, pos, EncodeFooter(f))
    ensures var m := FooterMarksOf(f, pos);
      && m.p8 == pos + |EncodeFooter(f)|
      && IsAt(data, pos, EncodePrefixed(f.debugInfo, EncodeDebugInfo))
      && IsAt(data, m.p1, EncodePrefixed(f.tickmarks, EncodeTickmark))
      && IsAt(data, m.p2, EncodePrefixed(f.packages, Encode))
      && IsAt(data, m.p3, EncodePrefixed(f.objects, Encode))
      && IsAt(data, m.p4, EncodePrefixed(f.names, Encode))
      && IsAt(data, m.p5, EncodePrefixed(f.classIndices, EncodeClassIndex))
      && IsAt(data, m.p6, EncodePrefixed(f.netCaches, EncodeClassNetCache))
      && IsAt(data, m.p7, EncodeI32(f.end))
  {
    var m := FooterMarksOf(f, pos);
    var e1, e2 := EncodePrefixed(f.debugInfo, EncodeDebugInfo), EncodePrefixed(f.tickmarks, EncodeTickmark);
    var e3, e4, e5 := EncodePrefixed(f.packages, Encode), EncodePrefixed(f.objects, Encode), EncodePrefixed(f.names, Encode);
    var e6, e7 := EncodePrefixed(f.classIndices, EncodeClassIndex), EncodePrefixed(f.netCaches, EncodeClassNetCache);
    var r7 := EncodeI32(f.end);
    var r6 := e7 + r7;
    var r5 := e6 + r6;
    var r4 := e5 + r5;
    var r3 := e4 + r4;
    var r2 := e3 + r3;
    var r1 := e2 + r2;
    IsAtSplit(data, pos, e1, r1, m.p1);
    IsAtSplit(data, m.p1, e2, r2, m.p2);
    IsAtSplit(data, m.p2, e3, r3, m.p3);
    IsAtSplit(data, m.p3, e4, r4, m.p4);
    IsAtSplit(data, m.p4, e5, r5, m.p5);
    IsAtSplit(data, m.p5, e6, r6, m.p6);
    IsAtSplit(data, m.p6, e7, r7, m.p7);
  }

  lemma FooterHeadAt(data: seq<byte>, pos: nat, f: Footer)
    requires WellFormedFooter(f) && IsAt(data, pos, EncodeFooter(f))
    ensures var m := FooterMarksOf(f, pos);
      && ParsePrefixed(data, pos, ParseDebugInfo) == Ok(f.debugInfo, m.p1)
      && ParsePrefixed(data, m.p1, ParseTickmark) == Ok(f.tickmarks, m.p2)
      && ParsePrefixed(data, m.p2, ParseReplayString) == Ok(f.packages, m.p3)
      && ParsePrefixed(data, m.p3, ParseReplayString) == Ok(f.objects, m.p4)
  {
    FooterSplit(data, pos, f);
    FooterHead(data, pos, f, FooterMarksOf(f, pos));
  }

  lemma FooterTailAt(data: seq<byte>, pos: nat, f: Footer)
    requires WellFormedFooter(f) && IsAt(data, pos, EncodeFooter(f))
    ensures var m := FooterMarksOf(f, pos);
      && ParsePrefixed(data, m.p4, ParseReplayString) == Ok(f.names, m.p5)
      && ParsePrefixed(data, m.p5, ParseClassIndex) == Ok(f.classIndices, m.p6)
      && ParsePrefixed(data, m.p6, ParseClassNetCache) == Ok(f.netCaches, m.p7)
      && ReadI32(data, m.p7) == Ok(f.end, m.p8)
      && m.p8 == pos + |EncodeFooter(f)|
  {
    FooterSplit(data, pos, f);
    FooterTail(data, f, FooterMarksOf(f, pos));
  }

  /** Every well-formed footer reads back from its own bytes. */
  lemma FooterRoundTrip(data: seq<byte>, pos: nat, f: Footer)
    requires WellFormedFooter(f) && IsAt(data, pos, EncodeFooter(f))
    ensures ParseFooter(data, pos) == Ok(f, pos + |EncodeFooter(f)|)
  {
    FooterHeadAt(data, pos, f);
    FooterTailAt(data, pos, f);
    FooterStep(data, pos, f, FooterMarksOf(f, pos));
  }

  /** Where each footer part ends in a successful read. */
  function FooterMarksIn(data: seq<byte>, pos: nat): FooterMarks
    requires ParseFooter(data, pos).Ok?
  {
    var p1 := ParsePrefixed(data, pos, ParseDebugInfo).next;
    var p2 := ParsePrefixed(data, p1, ParseTickmark).next;
    var p3 := ParsePrefixed(data, p2, ParseReplayString).next;
    var p4 := ParsePrefixed(data, p3, ParseReplayString).next;
    var p5 := ParsePrefixed(data, p4, ParseReplayString).next;
    var p6 := ParsePrefixed(data, p5, ParseClassIndex).next;
    var p7 := ParsePrefixed(data, p6, ParseClassNetCache).next;
    FooterMarks(p1, p2, p3, p4, p5, p6, p7, p7 + 4)
  }

  /** A footer read is the seven tables read one after another, in the
      order debug info, tickmarks, packages, objects, names, class indices,
      net caches, then the `end` word. */
  lemma FooterParts(data: seq<byte>, pos: nat)
    requires ParseFooter(data, pos).Ok?
    ensures var f, m := ParseFooter(data, pos).value, FooterMarksIn(data, pos);
      && ParsePrefixed(data, pos, ParseDebugInfo) == Ok(f.debugInfo, m.p1)
      && ParsePrefixed(data, m.p1, ParseTickmark) == Ok(f.tickmarks, m.p2)
      && ParsePrefixed(data, m.p2, ParseReplayString) == Ok(f.packages, m.p3)
      && ParsePrefixed(data, m.p3, ParseReplayString) == Ok(f.objects, m.p4)
      && ParsePrefixed(data, m.p4, ParseReplayString) == Ok(f.names, m.p5)
      && ParsePrefixed(data, m.p5, ParseClassIndex) == Ok(f.classIndices, m.p6)
      && ParsePrefixed(data, m.p6, ParseClassNetCache) == Ok(f.netCaches, m.p7)
      && ReadI32(data, m.p7) == Ok(f.end, m.p8)
      && m.p8 == ParseFooter(data, pos).next
  {
  }

  /** Each table takes at least its four count bytes, so the marks climb by
      at least four each time, and the footer ends inside the input. */
  lemma FooterLayout(data: seq<byte>, pos: nat)
    requires ParseFooter(data, pos).Ok?
    ensures var m := FooterMarksIn(data, pos);
      && pos + 4 <= m.p1 && m.p1 + 4 <= m.p2 && m.p2 + 4 <= m.p3 && m.p3 + 4 <= m.p4
      && m.p4 + 4 <= m.p5 && m.p5 + 4 <= m.p6 && m.p6 + 4 <= m.p7
      && m.p8 == ParseFooter(data, pos).next == m.p7 + 4 <= |data|
  {
    var m := FooterMarksIn(data, pos);
    FooterParts(data, pos);
    DebugInfoTableAdvances(data, pos);
    TickmarkTableAdvances(data, m.p1);
    StringTableAdvances(data, m.p2);
    StringTableAdvances(data, m.p3);
    StringTableAdvances(data, m.p4);
    ClassIndexTableAdvances(data, m.p5);
    ClassNetCacheTableAdvances(data, m.p6);
  }

  /** A footer is never shorter than its seven count fields and `end`. */
  lemma FooterMinimumSize(data: seq<byte>, pos: nat)
    requires ParseFooter(data, pos).Ok?
    ensures pos + 32 <= ParseFooter(data, pos).next <= |data|
  {
    FooterLayout(data, pos);
  }

  lemma FooterHeadFrame(data: seq<byte>, data2: seq<byte>, lo: nat, hi: nat, pos: nat)
    requires ParseFooter(data, pos).Ok?
    requires Agree(data, data2, lo, hi) && lo <= pos && ParseFooter(data, pos).next <= hi
    ensures var f, m := ParseFooter(data, pos).value, FooterMarksIn(data, pos);
      && ParsePrefixed(data2, pos, ParseDebugInfo) == Ok(f.debugInfo, m.p1)
      && ParsePrefixed(data2, m.p1, ParseTickmark) == Ok(f.tickmarks, m.p2)
      && ParsePrefixed(data2, m.p2, ParseReplayString) == Ok(f.packages, m.p3)
      && ParsePrefixed(data2, m.p3, ParseReplayString) == Ok(f.objects, m.p4)
  {
    var m := FooterMarksIn(data, pos);
    FooterParts(data, pos);
    FooterLayout(data, pos);
    DebugInfoTableFrame(data, data2, lo, hi, pos);
    TickmarkTableFrame(data, data2, lo, hi, m.p1);
    StringTableFrame(data, data2, lo, hi, m.p2);
    StringTableFrame(data, data2, lo, hi, m.p3);
  }

  lemma FooterTailFrame(data: seq<byte>, data2: seq<byte>, lo: nat, hi: nat, pos: nat)
    requires ParseFooter(data, pos).Ok?
    requires Agree(data, data2, lo, hi) && lo <= pos && ParseFooter(data, pos).next <= hi
    ensures var f, m := ParseFooter(data, pos).value, FooterMarksIn(data, pos);
      && ParsePrefixed(data2, m.p4, ParseReplayString) == Ok(f.names, m.p5)
      && ParsePrefixed(data2, m.p5, ParseClassIndex) == Ok(f.classIndices, m.p6)
      && ParsePrefixed(data2, m.p6, ParseClassNetCache) == Ok(f.netCaches, m.p7)
      && ReadI32(data2, m.p7) == Ok(f.end, m.p8)
  {
    var m := FooterMarksIn(data, pos);
    FooterParts(data, pos);
    FooterLayout(data, pos);
    StringTableFrame(data, data2, lo, hi, m.p4);
    ClassIndexTableFrame(data, data2, lo, hi, m.p5);
    ClassNetCacheTableFrame(data, data2, lo, hi, m.p6);
    ReadI32Frame(data, data2, lo, hi, m.p7);
  }

  /** A footer read depends only on the bytes it consumed. */
  lemma FooterFrame(data: seq<byte>, data2: seq<byte>, lo: nat, hi: nat, pos: nat)
    requires ParseFooter(data, pos).Ok?
    requires Agree(data, data2, lo, hi) && lo <= pos && ParseFooter(data, pos).next <= hi
    ensures ParseFooter(data2, pos) == ParseFooter(data, pos)
  {
    FooterHeadFrame(data, data2, lo, hi, pos);
    FooterTailFrame(data, data2, lo, hi, pos);
    FooterParts(data, pos);
    FooterStep(data2, pos, ParseFooter(data, pos).value, FooterMarksIn(data, pos));
  }

  /** A footer read returns a footer the encoder can write back, and
      consumes exactly its encoded size. */
  lemma ParsedFooterShape(data: seq<byte>, pos: nat)
    requires ParseFooter(data, pos).Ok?
    ensures WellFormedFooter(ParseFooter(data, pos).value)
    ensures ParseFooter(data, pos).next == pos + |EncodeFooter(ParseFooter(data, pos).value)|
  {
    var m := FooterMarksIn(data, pos);
    FooterParts(data, pos);
    DebugInfoTableShape(data, pos);
    TickmarkTableShape(data, m.p1);
    StringTableShape(data, m.p2);
    StringTableShape(data, m.p3);
    StringTableShape(data, m.p4);
    ClassIndexTableShape(data, m.p5);
    ClassNetCacheTableShape(data, m.p6);
  }

  // ---------------------------------------------------------------------
  // The whole replay.
  // ---------------------------------------------------------------------

  datatype Replay = Replay(header: Header, body: Body, footer: Footer)

  predicate WellFormedReplay(r: Replay) {
    WellFormedHeader(r.header) && WellFormedBody(r.body) && WellFormedFooter(r.footer)
  }

  /** The header from offset 0, the body, and the footer where the skipped
      network stream ends; `Terminated` then demands that the footer end
      exactly at the end of the input. A replay therefore takes at least
      78 bytes besides its network stream: 26 of header, 20 of body fields
      and 32 of footer. */
  function ParseReplay(data: seq<byte>): (r: Option<Replay>)
    ensures r.Some? ==> 78 + r.value.body.networkStreamSize <= |data|
  {
    match ParseHeader(data, 0)
    case Fail => None
    case Ok(h, p1) =>
      match ParseBody(data, p1)
      case Fail => None
      case Ok(b, p2) =>
        match ParseFooter(data, p2)
        case Fail => None
        case Ok(f, p3) =>
          if p3 == |data| then
            BodyFieldsLayout(data, p1);
            FooterMinimumSize(data, p2);
            Some(Replay(h, b, f))
          else None
  }

  /** The replay's bytes, with `stream` standing for the network stream the
      body skips. */
  function EncodeReplay(r: Replay, stream: seq<byte>): seq<byte> {
    EncodeHeader(r.header) + (EncodeBodyFields(r.body) + (stream + EncodeFooter(r.footer)))
  }

  /** Where the network stream starts: right after its size field. */
  function StreamStart(data: seq<byte>): nat
    requires ParseReplay(data).Some?
  {
    ParseBodyFields(data, ParseHeader(data, 0).next).next
  }

  /** Three sections read one after another make a replay exactly when the
      footer ends where the input does. */
  lemma ReplayStep(data: seq<byte>, r: Replay, p1: nat, p3: nat, q: nat)
    requires ParseHeader(data, 0) == Ok(r.header, p1)
    requires ParseBody(data, p1) == Ok(r.body, p3)
    requires ParseFooter(data, p3) == Ok(r.footer, q)
    ensures ParseReplay(data) == if q == |data| then Some(r) else None
  {
  }

  /** Where the footer starts: where the body's seek over the stream ends. */
  function FooterStart(data: seq<byte>): nat
    requires ParseReplay(data).Some?
  {
    ParseBody(data, ParseHeader(data, 0).next).next
  }

  /** A successful read is the header, the body fields, the skipped stream
      and the footer, one after another, and the footer ends the input. */
  lemma ReplayParts(data: seq<byte>)
    requires ParseReplay(data).Some?
    ensures var r, p1 := ParseReplay(data).value, ParseHeader(data, 0).next;
      && ParseHeader(data, 0) == Ok(r.header, p1)
      && p1 + 20 <= StreamStart(data)
      && ParseBodyFields(data, p1) == Ok(r.body, StreamStart(data))
      && FooterStart(data) == StreamStart(data) + r.body.networkStreamSize
      && ParseFooter(data, FooterStart(data)) == Ok(r.footer, |data|)
  {
    BodyFieldsLayout(data, ParseHeader(data, 0).next);
  }

  /** Where the sections of an encoded replay lie. */
  lemma ReplayLayout(r: Replay, stream: seq<byte>)
    ensures var data := EncodeReplay(r, stream);
      var p1 := |EncodeHeader(r.header)|;
      var p2 := p1 + |EncodeBodyFields(r.body)|;
      && IsAt(data, 0, EncodeHeader(r.header))
      && IsAt(data, p1, EncodeBodyFields(r.body))
      && IsAt(data, p2 + |stream|, EncodeFooter(r.footer))
      && |data| == p2 + |stream| + |EncodeFooter(r.footer)|
  {
    var data := EncodeReplay(r, stream);
    var eh, eb, ef := EncodeHeader(r.header), EncodeBodyFields(r.body), EncodeFooter(r.footer);
    var p1 := |eh|;
    var p2 := p1 + |eb|;
    IsAtWhole(data);
    IsAtSplit(data, 0, eh, eb + (stream + ef), p1);
    IsAtSplit(data, p1, eb, stream + ef, p2);
    IsAtSplit(data, p2, stream, ef, p2 + |stream|);
  }

  /** Three sections lying one after another, with room for the stream
      between the body and the footer, each read back where they lie. */
  lemma SectionsRead(data: seq<byte>, r: Replay, p1: nat, p3: nat)
    requires WellFormedReplay(r)
    requires IsAt(data, 0, EncodeHeader(r.header)) && p1 == |EncodeHeader(r.header)|
    requires IsAt(data, p1, EncodeBodyFields(r.body))
    requires p3 == p1 + |EncodeBodyFields(r.body)| + r.body.networkStreamSize
    requires IsAt(data, p3, EncodeFooter(r.footer)) && |data| == p3 + |EncodeFooter(r.footer)|
    ensures ParseHeader(data, 0) == Ok(r.header, p1)
    ensures ParseBody(data, p1) == Ok(r.body, p3)
    ensures ParseFooter(data, p3) == Ok(r.footer, |data|)
  {
    HeaderRead(data, r.header, p1);
    BodyRead(data, r.body, p1, p3);
    FooterRead(data, r.footer, p3);
  }

  /** A header at the start of the input reads back, ending at p1. */
  lemma HeaderRead(data: seq<byte>, h: Header, p1: nat)
    requires WellFormedHeader(h)
    requires IsAt(data, 0, EncodeHeader(h)) && p1 == |EncodeHeader(h)|
    ensures ParseHeader(data, 0) == Ok(h, p1)
  {
    HeaderRoundTrip(data, 0, h);
  }

  /** Body fields at p1 read back, and the seek lands at p3. */
  lemma BodyRead(data: seq<byte>, b: Body, p1: nat, p3: nat)
    requires WellFormedBody(b)
    requires IsAt(data, p1, EncodeBodyFields(b))
    requires p3 == p1 + |EncodeBodyFields(b)| + b.networkStreamSize
    ensures ParseBody(data, p1) == Ok(b, p3)
  {
    BodyRoundTrip(data, p1, b);
  }

  /** A footer at p3 that runs to the end of the input reads back. */
  lemma FooterRead(data: seq<byte>, f: Footer, p3: nat)
    requires WellFormedFooter(f)
    requires IsAt(data, p3, EncodeFooter(f)) && |data| == p3 + |EncodeFooter(f)|
    ensures ParseFooter(data, p3) == Ok(f, |data|)
  {
    FooterRoundTrip(data, p3, f);
  }

  /** A replay whose three sections lie one after another, with room for
      the stream between the body and the footer, reads back. */
  lemma ReplayFromSections(data: seq<byte>, r: Replay, p1: nat, p3: nat)
    requires WellFormedReplay(r)
    requires IsAt(data, 0, EncodeHeader(r.header)) && p1 == |EncodeHeader(r.header)|
    requires IsAt(data, p1, EncodeBodyFields(r.body))
    requires p3 == p1 + |EncodeBodyFields(r.body)| + r.body.networkStreamSize
    requires IsAt(data, p3, EncodeFooter(r.footer)) && |data| == p3 + |EncodeFooter(r.footer)|
    ensures ParseReplay(data) == Some(r)
  {
    SectionsRead(data, r, p1, p3);
    ReplayStep(data, r, p1, p3, |data|);
  }

  /** Every well-formed replay reads back from its own bytes, whatever bytes
      stand in for the network stream, as long as there are as many as its
      size field says. */
  lemma ReplayRoundTrip(r: Replay, stream: seq<byte>)
    requires WellFormedReplay(r) && |stream| == r.body.networkStreamSize
    ensures ParseReplay(EncodeReplay(r, stream)) == Some(r)
  {
    var p1 := |EncodeHeader(r.header)|;
    ReplayLayout(r, stream);
    ReplayFromSections(EncodeReplay(r, stream), r, p1, p1 + |EncodeBodyFields(r.body)| + |stream|);
  }

  /** The network stream must fit: a replay is read only when the bytes its
      size field skips still leave room for a footer of at least 32 bytes. */
  lemma StreamFits(data: seq<byte>)
    requires ParseReplay(data).Some?
    ensures StreamStart(data) + ParseReplay(data).value.body.networkStreamSize + 32 <= |data|
  {
    ReplayParts(data);
    FooterMinimumSize(data, FooterStart(data));
  }

  /** A replay read returns a well-formed replay, and the input's length is
      exactly the encoded sizes of its three sections plus the network
      stream's size. The bytes themselves need not be the encoding: a Flag
      byte above 1 and the 8 skipped bytes of a pair are not reproduced. */
  lemma ParsedReplayShape(data: seq<byte>)
    requires ParseReplay(data).Some?
    ensures WellFormedReplay(ParseReplay(data).value)
    ensures |data| == |EncodeHeader(ParseReplay(data).value.header)| + |EncodeBodyFields(ParseReplay(data).value.body)|
                      + ParseReplay(data).value.body.networkStreamSize + |EncodeFooter(ParseReplay(data).value.footer)|
  {
    ReplayParts(data);
    ParsedHeaderShape(data, 0);
    ParsedBodyFieldsShape(data, ParseHeader(data, 0).next);
    ParsedFooterShape(data, FooterStart(data));
  }

  /** The header is read again from `data2` when it agrees with `data` on
      every byte before the network stream. */
  lemma HeaderKept(data: seq<byte>, data2: seq<byte>)
    requires ParseReplay(data).Some?
    requires Agree(data, data2, 0, StreamStart(data))
    requires Agree(data, data2, FooterStart(data), |data|)
    ensures ParseHeader(data2, 0) == ParseHeader(data, 0)
  {
    ReplayParts(data);
    HeaderFrame(data, data2, 0, StreamStart(data), 0);
  }

  lemma BodyKept(data: seq<byte>, data2: seq<byte>)
    requires ParseReplay(data).Some?
    requires Agree(data, data2, 0, StreamStart(data))
    requires Agree(data, data2, FooterStart(data), |data|)
    ensures ParseBody(data2, ParseHeader(data, 0).next) == ParseBody(data, ParseHeader(data, 0).next)
  {
    ReplayParts(data);
    BodyFieldsFrame(data, data2, 0, StreamStart(data), ParseHeader(data, 0).next);
  }

  lemma FooterKept(data: seq<byte>, data2: seq<byte>)
    requires ParseReplay(data).Some?
    requires Agree(data, data2, 0, StreamStart(data))
    requires Agree(data, data2, FooterStart(data), |data|)
    ensures ParseFooter(data2, FooterStart(data)) == ParseFooter(data, FooterStart(data))
  {
    ReplayParts(data);
    FooterFrame(data, data2, FooterStart(data), |data|, FooterStart(data));
  }

  /** A replay depends only on the bytes outside its network stream: any
      input agreeing with it there reads the same replay when it has the same
      length, and nothing otherwise. */
  lemma ReplayKept(data: seq<byte>, data2: seq<byte>)
    requires ParseReplay(data).Some?
    requires Agree(data, data2, 0, StreamStart(data))
    requires Agree(data, data2, FooterStart(data), |data|)
    ensures ParseReplay(data2) == if |data2| == |data| then ParseReplay(data) else None
  {
    HeaderKept(data, data2);
    BodyKept(data, data2);
    FooterKept(data, data2);
    ReplayParts(data);
    ReplayStep(data2, ParseReplay(data).value, ParseHeader(data, 0).next, FooterStart(data), |data|);
  }

  /** `Terminated`: a replay followed by any further bytes is not a replay. */
  lemma TrailingBytesRejected(data: seq<byte>, extra: seq<byte>)
    requires ParseReplay(data).Some? && |extra| > 0
    ensures ParseReplay(data + extra).None?
  {
    var data2 := data + extra;
    ReplayParts(data);
    StreamFits(data);
    forall i | 0 <= i < |data|
      ensures AgreeAt(data, data2, i)
    {
    }
    ReplayKept(data, data2);
  }

  /** Replacing exactly the bytes between the stream start and the footer
      start keeps the replay. */
  lemma StreamReplaced(data: seq<byte>, stream: seq<byte>)
    requires ParseReplay(data).Some?
    requires StreamStart(data) + |stream| == FooterStart(data) <= |data|
    ensures ParseReplay(data[..StreamStart(data)] + stream + data[StreamStart(data) + |stream|..]) == ParseReplay(data)
  {
    var data2 := data[..StreamStart(data)] + stream + data[StreamStart(data) + |stream|..];
    SpliceAgrees(data, stream, StreamStart(data), data2);
    ReplayKept(data, data2);
  }

  /** The network stream is skipped, never read: putting any other bytes of
      the same length in its place reads the same replay. */
  lemma StreamIgnored(data: seq<byte>, stream: seq<byte>)
    requires ParseReplay(data).Some?
    requires |stream| == ParseReplay(data).value.body.networkStreamSize
    ensures StreamStart(data) + |stream| <= |data|
    ensures ParseReplay(data[..StreamStart(data)] + stream + data[StreamStart(data) + |stream|..]) == ParseReplay(data)
  {
    ReplayParts(data);
    StreamFits(data);
    StreamReplaced(data, stream);
  }
}
