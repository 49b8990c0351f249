/** The earlier, shorter draft of the grammar. Its strings, pairs, property
    lists and header are those of the final grammar, and its keyframe has the
    same three 32-bit fields in the same order (the third is called `position`
    there), so both share one reader. Its body ends with `Tell`, which
    records the cursor after the seek over the network stream, and its footer
    is an empty structure: nothing is read after the body, and nothing
    demands that the input end there. */
module Draft {
  import opened Parsing
  import opened Replay

  /** The body fields and the offset `Tell` records after the seek. */
  datatype DraftBody = DraftBody(fields: Body, current: nat)

  /** The header and the body; the empty footer holds nothing. */
  datatype DraftReplay = DraftReplay(header: Header, body: DraftBody)

  /** The fields and the seek of the final grammar, then `Tell`: the
      recorded offset is where the cursor stands, which may lie past the end
      of the input, since the seek is not checked. */
  function ParseDraftBody(data: seq<byte>, pos: nat): (r: Parsed<DraftBody>)
    ensures r.Ok? <==> ParseBodyFields(data, pos).Ok?
    ensures r.Ok? ==>
      && r.value.fields == ParseBodyFields(data, pos).value
      && r.next == r.value.current
  {
    match ParseBody(data, pos)
    case Fail => Fail
    case Ok(b, p) => Ok(DraftBody(b, p), p)
  }

  /** The header from offset 0, then the body. The empty footer reads
      nothing and there is no `Terminated`. The header's 26 bytes and the
      body fields' 20 must be in the input; the recorded offset lies the
      stream's size beyond them, and possibly past the end. */
  function ParseDraft(data: seq<byte>): (r: Option<DraftReplay>)
    ensures r.Some? ==> 46 <= |data| && 46 + r.value.body.fields.networkStreamSize <= r.value.body.current
  {
    match ParseHeader(data, 0)
    case Fail => None
    case Ok(h, p1) =>
      match ParseDraftBody(data, p1)
      case Fail => None
      case Ok(b, _) =>
        BodyFieldsLayout(data, p1);
        Some(DraftReplay(h, b))
  }

  lemma DraftStep(data: seq<byte>, d: DraftReplay, p1: nat)
    requires ParseHeader(data, 0) == Ok(d.header, p1)
    requires ParseBody(data, p1) == Ok(d.body.fields, d.body.current)
    ensures ParseDraft(data) == Some(d)
  {
  }

  /** Where the draft's sections lie: the header, then the body fields
      ending in the stream's four-byte size field, then the recorded offset
      that many bytes further on. */
  lemma DraftParts(data: seq<byte>)
    requires ParseDraft(data).Some?
    ensures var d, p1 := ParseDraft(data).value, ParseHeader(data, 0).next;
      && ParseHeader(data, 0) == Ok(d.header, p1)
      && ParseBodyFields(data, p1) == Ok(d.body.fields, d.body.current - d.body.fields.networkStreamSize)
      && ParseBody(data, p1) == Ok(d.body.fields, d.body.current)
  {
  }

  /** `current` is the offset just after the network stream's size field,
      plus that size: the body fields read where the draft body does and end
      that many bytes before `current`, the four bytes before the skipped
      stream hold its size, and the body fields before them take at least
      twenty bytes. */
  lemma DraftCurrent(data: seq<byte>, pos: nat)
    requires ParseDraftBody(data, pos).Ok?
    ensures ParseBodyFields(data, pos).Ok?
    ensures ParseBodyFields(data, pos).next + ParseDraftBody(data, pos).value.fields.networkStreamSize
         == ParseDraftBody(data, pos).value.current
    ensures pos + 20 + ParseDraftBody(data, pos).value.fields.networkStreamSize
         <= ParseDraftBody(data, pos).value.current
    ensures ReadU32(data, ParseDraftBody(data, pos).value.current - ParseDraftBody(data, pos).value.fields.networkStreamSize - 4)
         == Ok(ParseDraftBody(data, pos).value.fields.networkStreamSize,
               ParseDraftBody(data, pos).value.current - ParseDraftBody(data, pos).value.fields.networkStreamSize)
  {
    var d := ParseDraftBody(data, pos).value;
    BodySizeField(data, pos, d.fields, d.current - d.fields.networkStreamSize);
  }

  /** The body fields take at least twenty bytes and end with the stream
      size, read from their last four bytes. */
  lemma BodySizeField(data: seq<byte>, pos: nat, b: Body, next: nat)
    requires ParseBodyFields(data, pos) == Ok(b, next)
    ensures pos + 20 <= next
    ensures ReadU32(data, next - 4) == Ok(b.networkStreamSize, next)
  {
    BodyFieldsLayout(data, pos);
  }

  /** A draft read returns a header and body fields the encoder can write
      back; both lie in the input, and the recorded offset is their encoded
      size plus the skipped stream's. */
  lemma ParsedDraftShape(data: seq<byte>)
    requires ParseDraft(data).Some?
    ensures WellFormedHeader(ParseDraft(data).value.header)
    ensures WellFormedBody(ParseDraft(data).value.body.fields)
    ensures |EncodeHeader(ParseDraft(data).value.header)| + |EncodeBodyFields(ParseDraft(data).value.body.fields)| <= |data|
    ensures ParseDraft(data).value.body.current
         == |EncodeHeader(ParseDraft(data).value.header)| + |EncodeBodyFields(ParseDraft(data).value.body.fields)|
            + ParseDraft(data).value.body.fields.networkStreamSize
  {
    DraftParts(data);
    ParsedHeaderShape(data, 0);
    ParsedBodyFieldsShape(data, ParseHeader(data, 0).next);
  }

  /** The empty footer and the missing `Terminated`: bytes after a draft
      replay change nothing. */
  lemma DraftIgnoresTrailing(data: seq<byte>, extra: seq<byte>)
    requires ParseDraft(data).Some?
    ensures ParseDraft(data + extra) == ParseDraft(data)
  {
    var data2 := data + extra;
    var d, p1 := ParseDraft(data).value, ParseHeader(data, 0).next;
    DraftParts(data);
    forall i | 0 <= i < |data|
      ensures AgreeAt(data, data2, i)
    {
    }
    HeaderFrame(data, data2, 0, |data|, 0);
    BodyFieldsFrame(data, data2, 0, |data|, p1);
    DraftStep(data2, d, p1);
  }

  /** The final grammar is the draft followed by the footer and
      `Terminated`: a replay is read exactly when the draft is read, a footer
      is read where the draft's recorded offset lies, and that footer ends the
      input; and then both agree on the header and the body. */
  lemma FinalIsDraftThenFooter(data: seq<byte>)
    ensures ParseReplay(data) ==
      match ParseDraft(data)
      case None => None
      case Some(d) =>
        match ParseFooter(data, d.body.current)
        case Fail => None
        case Ok(f, q) => if q == |data| then Some(Replay(d.header, d.body.fields, f)) else None
  {
    if ParseDraft(data).Some? {
      DraftParts(data);
    }
  }

  /** Every replay the final grammar reads, the draft reads too, with the
      same header and body, recording the offset where the footer starts. */
  lemma DraftOfFinal(data: seq<byte>)
    requires ParseReplay(data).Some?
    ensures var r := ParseReplay(data).value;
      ParseDraft(data) == Some(DraftReplay(r.header, DraftBody(r.body, FooterStart(data))))
  {
    var r := ParseReplay(data).value;
    ReplayParts(data);
    DraftStep(data, DraftReplay(r.header, DraftBody(r.body, FooterStart(data))), ParseHeader(data, 0).next);
  }

  /** The draft's bytes: the header, the body fields and the stream. */
  function EncodeDraft(h: Header, b: Body, stream: seq<byte>): seq<byte> {
    EncodeHeader(h) + (EncodeBodyFields(b) + stream)
  }

  /** Every well-formed header and body read back from their bytes, whatever
      stream bytes follow and whatever comes after them, and `current` is the
      length of the draft's own bytes. */
  lemma DraftRoundTrip(h: Header, b: Body, stream: seq<byte>, rest: seq<byte>)
    requires WellFormedHeader(h) && WellFormedBody(b) && |stream| == b.networkStreamSize
    ensures ParseDraft(EncodeDraft(h, b, stream) + rest)
         == Some(DraftReplay(h, DraftBody(b, |EncodeDraft(h, b, stream)|)))
  {
    DraftLayout(h, b, stream, rest);
    DraftFromSections(EncodeDraft(h, b, stream) + rest,
                      DraftReplay(h, DraftBody(b, |EncodeDraft(h, b, stream)|)), |EncodeHeader(h)|);
  }

  /** A header and body fields lying one after another read back as a draft
      whose recorded offset is the stream size further on. */
  lemma DraftFromSections(data: seq<byte>, d: DraftReplay, p1: nat)
    requires WellFormedHeader(d.header) && WellFormedBody(d.body.fields)
    requires IsAt(data, 0, EncodeHeader(d.header)) && p1 == |EncodeHeader(d.header)|
    requires IsAt(data, p1, EncodeBodyFields(d.body.fields))
    requires d.body.current == p1 + |EncodeBodyFields(d.body.fields)| + d.body.fields.networkStreamSize
    ensures ParseDraft(data) == Some(d)
  {
    HeaderRead(data, d.header, p1);
    BodyRead(data, d.body.fields, p1, d.body.current);
    DraftStep(data, d, p1);
  }

  /** Where the header and the body fields of an encoded draft lie. */
  lemma DraftLayout(h: Header, b: Body, stream: seq<byte>, rest: seq<byte>)
    ensures var data := EncodeDraft(h, b, stream) + rest;
      && IsAt(data, 0, EncodeHeader(h))
      && IsAt(data, |EncodeHeader(h)|, EncodeBodyFields(b))
      && |EncodeDraft(h, b, stream)| == |EncodeHeader(h)| + |EncodeBodyFields(b)| + |stream|
  {
    var data := EncodeDraft(h, b, stream) + rest;
    var eh, eb := EncodeHeader(h), EncodeBodyFields(b);
    IsAtWhole(data);
    IsAtSplit(data, 0, EncodeDraft(h, b, stream), rest, |EncodeDraft(h, b, stream)|);
    IsAtSplit(data, 0, eh, eb + stream, |eh|);
    IsAtSplit(data, |eh|, eb, stream, |eh| + |eb|);
  }
}
