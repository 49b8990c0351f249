# Rocket League replay grammar, modelled in Dafny

This project models the binary grammar of Rocket League `.replay` files. The
repository declares that grammar with the Construct library in `parse.py`. An
earlier, shorter draft of it is in `python_scripts/replayfileformat.py`. Each
Construct declaration becomes a pure Dafny parser. A parser takes the whole
input (`seq<byte>`) and a cursor (`nat`). It either fails, or returns a value
together with the cursor just past what it consumed. The cursor may lie past
the end of the input, because Construct's relative `Seek` is not
bounds-checked; only a later read past the end fails.

The modules follow the grammar:

- `Parsing`: the cursor, `Parsed`, and the fixed-width little-endian reads (`Flag`, `Int32ul`, `Int32sl`, `Int64sl`).
- `ReplayStrings`: `replaystring`. A signed 32-bit size whose sign selects windows-1252 (one-byte terminator) or UTF-16-LE (two-byte terminator). The content runs up to the first terminator.
- `Properties`: the value-type dispatch table, `key_value_pair` and the `RepeatUntil` property list. The table's `ArrayProperty` row makes these mutually recursive.
- `PropertyLemmas` and `PropertyShape`: the round trips, frame lemmas and result shapes for those parsers.
- `Arrays`: `PrefixedArray(Int32ul, …)`, generic over the element parser.
- `Records`: keyframes, debug lines, tickmarks, class indices and class net caches, with their tables.
- `Replay`: the header, the body (with the skip over the network stream), the footer and `Terminated`.
- `Draft`: the earlier draft's `replay`. It ends its body with `Tell`, has an empty footer and no `Terminated`.

Every parser has an encoder as its partner. A round-trip lemma says every
well-formed value reads back from its own bytes, wherever they lie. The
"shape" lemmas go the other way: every successful read returns a well-formed
value and consumes exactly its encoded size. The frame lemmas say that a
read depends only on the bytes it consumed.

Where a declaration leaves a choice open, the model follows what Construct
does with it:

- A property list keeps its terminating `"None"` pair, as Construct's `RepeatUntil` returns the element that ended the loop.
- A `PrefixedArray` reads exactly as many elements as its count field says.
- A string's size field is read, and its sign chooses the encoding. Its magnitude never limits the read (`SizeMagnitudeIgnored`).
- The draft names a keyframe's third field `position`, and the final grammar names it `file_position`. The bytes are the same, so both share `Records.ParseKeyframe`.

## Model

| member | source | states |
|---|---|---|
| Parsing.ReadU8RoundTrip | parse.py:42 | A `Flag` byte reads back as the byte it was written from and takes one byte |
| Parsing.ReadU32RoundTrip | parse.py:130-133 | An `Int32ul` field reads back as the unsigned number encoded, four bytes on |
| Parsing.ReadI32RoundTrip | parse.py:28 | An `Int32sl` field reads back as the signed number encoded, by two's complement |
| Parsing.ReadI64RoundTrip | parse.py:48 | An `Int64sl` field reads back as the signed 64-bit number encoded, eight bytes on |
| ReplayStrings.ParseReplayString | parse.py:27-33 | A successful string read consumes exactly the size field, the content and its terminator, within the input |
| ReplayStrings.ReplayStringLayout | parse.py:27-33 | The sign of the size field picks the width; a narrow content is the bytes up to the first 0x00, a wide one the units up to the first 0x0000, and the terminator is consumed |
| ReplayStrings.FirstZeroByteIsFirst | parse.py:30 | The one-byte terminator scan finds the first 0x00, and fails exactly when there is none |
| ReplayStrings.FirstZeroUnitIsFirst | parse.py:31 | The two-byte terminator scan finds the first whole 0x0000 unit, and fails exactly when there is none |
| ReplayStrings.MissingTerminatorFails | parse.py:29-31 | A string whose terminator never comes cannot be read |
| ReplayStrings.ParsedStringWellFormed | python_scripts/replayfileformat.py:14-20 | A parsed string has a size whose sign matches its width, no terminator inside, and content that decodes |
| ReplayStrings.StrictUtf16Decodable | parse.py:31 | The unit-wise decodability test agrees with a strict UTF-16 decoder's walk over surrogate pairs |
| ReplayStrings.ReplayStringRoundTrip | parse.py:27-33 | Every well-formed string reads back from its own bytes, consuming exactly them |
| ReplayStrings.ParsedStringReencodes | parse.py:27-33 | A parsed string re-encodes to exactly the bytes it was read from |
| ReplayStrings.SizeMagnitudeIgnored | parse.py:25-31 | Two inputs that differ only in the size value, with the same sign, read the same content and end at the same place |
| ReplayStrings.ReplayStringFrame | parse.py:27-33 | A string read depends only on the bytes it consumed |
| ReplayStrings.SpellsUnique | parse.py:54 | A content spells at most one literal, so the `"None"` test and the tag lookup are well defined |
| Properties.Dispatch | parse.py:41-57 | The `Switch` on the value-type content over the table; what it selects is stated by the two rows below: no row exactly for a tag naming none, and the named row otherwise |
| Properties.DispatchFailsIffUnknown | parse.py:41-49 | The table lookup fails exactly on a value-type string that names none of the eight rows |
| Properties.DispatchFinds | parse.py:63 | A value-type string naming a row selects exactly that row, `ArrayProperty` included |
| Properties.TagNameInjective | parse.py:41-49 | No two rows share a name |
| Properties.ParseLists | parse.py:63 | An array read returns exactly as many property lists as its count field says |
| Properties.ParseValue | parse.py:41-49 | A value read under any row takes at least one byte and ends inside the input |
| Properties.ParseTypedValue | parse.py:57 | The value read under a value-type string takes at least one byte and ends inside the input |
| Properties.ParseKeyValuePair | parse.py:52-58 | A pair read, even the lone "None" key, takes at least five bytes and ends inside the input |
| Properties.ParsePropertyList | parse.py:62 | A property-list read takes at least the five bytes of its "None" key and ends inside the input |
| Properties.WellFormedEntriesIff | parse.py:62 | The recursive definition of a well-formed list equals the element-wise one: non-empty, ending in the sentinel, full pairs before it |
| PropertyShape.FixedWidthValue | parse.py:41-49 | Flag reads one byte, Float and Int four, QWord eight, each exactly when those bytes are there |
| PropertyShape.ParsedValueShape | parse.py:41-49 | A value read returns a value of the row asked for, one the format can carry, and consumes exactly its encoded size |
| PropertyShape.ParsedTypedValueShape | parse.py:57 | The value after the skipped bytes belongs to the row its value-type string names |
| PropertyShape.ParsedPairShape | python_scripts/replayfileformat.py:32-38 | A pair read is the sentinel exactly when its key reads "None"; the sentinel consumes only its key, a full pair key, value type, 8 bytes and value |
| PropertyShape.ParsedListShape | parse.py:62 | A property-list read returns a well-formed list of exactly the size it consumed |
| PropertyShape.ParsedListsShape | parse.py:63 | The lists of an array read are all well formed, and together take exactly the bytes consumed |
| PropertyShape.ParsedListStopsAtFirstNone | python_scripts/replayfileformat.py:40-42 | A parsed list is non-empty, its last pair has key "None", and no earlier pair does |
| PropertyShape.EntriesStopAtFirstNone | parse.py:137 | Every well-formed list ends with its only "None" key |
| PropertyLemmas.ValueRoundTrip | parse.py:41-49 | Every well-formed value reads back under its own row from its own bytes |
| PropertyLemmas.TypedValueRoundTrip | parse.py:57 | A value reads back under any value-type string that names its row |
| PropertyLemmas.ArrayRoundTrip | parse.py:63 | An array value reads back: its count, then exactly that many lists |
| PropertyLemmas.EntryRoundTrip | parse.py:52-58 | Every well-formed pair, the sentinel or a full pair, reads back from its own bytes |
| PropertyLemmas.ListRoundTrip | parse.py:62 | Every well-formed property list reads back from its own bytes |
| PropertyLemmas.PropertyListFrame | parse.py:137 | A property-list read depends only on the bytes it consumed |
| PropertyLemmas.KeyValuePairFrame | parse.py:52-58 | A pair read depends only on the bytes it consumed |
| PropertyLemmas.PaddingIgnored | parse.py:56 | The 8 bytes after a value-type string are skipped, never read: any other 8 bytes there give the same pair |
| Arrays.ParsePrefixed | parse.py:144 | A successful count-prefixed read found its four count bytes and returns exactly as many elements as they say |
| Arrays.CountLength | parse.py:144 | A successful array read returns exactly as many elements as its count |
| Arrays.PrefixedLength | parse.py:163 | The count field of a successful array read is the number of elements returned |
| Arrays.PrefixedRoundTrip | parse.py:163-165 | A count-prefixed array of readable elements reads back from its own bytes |
| Arrays.PrefixedFrame | parse.py:163-165 | An array read depends only on the bytes it consumed, when its elements do |
| Arrays.CountFixedWidth | parse.py:120-123 | Elements of one fixed width w make an array of n elements take w·n bytes, read exactly when they are there |
| Arrays.ParsedCountShape | parse.py:144-145 | When every element read returns a well-formed element of its encoded size, n reads return n well-formed elements taking exactly their encoded size |
| Arrays.ParsedPrefixedShape | parse.py:163 | Under the same condition, a count-prefixed read returns fewer than 2^32 well-formed elements and consumes exactly their encoded size, count included |
| Records.ParseKeyframe | parse.py:70-74 | A keyframe is read exactly when twelve bytes remain and then takes twelve bytes |
| Records.KeyframeRoundTrip | parse.py:70-74 | A keyframe's time bits, frame and file position read back from their twelve bytes |
| Records.KeyframeTableSize | python_scripts/replayfileformat.py:44-48 | A keyframe table of n entries takes 4 + 12n bytes and is read exactly when they are there |
| Records.KeyframeTableShape | parse.py:145 | A keyframe table read returns fewer than 2^32 keyframes of 32-bit fields and consumes exactly their encoded size |
| Records.ParseDebugInfo | parse.py:152-157 | A debug line read takes the frame word and both strings' encoded sizes, within the input |
| Records.ParsedDebugInfoShape | parse.py:152-157 | A debug line read returns a 32-bit frame and two well-formed strings, consuming exactly their encoded size |
| Records.DebugInfoTableShape | parse.py:152-157 | A debug-info table read returns well-formed lines and consumes exactly their encoded size |
| Records.DebugInfoRoundTrip | parse.py:152-157 | A debug line (frame, user, text) reads back from its own bytes |
| Records.ParseTickmark | parse.py:158-162 | A tickmark read takes the description's encoded size and the frame word, within the input |
| Records.ParsedTickmarkShape | parse.py:158-162 | A tickmark read returns a well-formed description and a 32-bit frame, consuming exactly their encoded size |
| Records.TickmarkTableShape | parse.py:158-162 | A tickmark table read returns well-formed tickmarks and consumes exactly their encoded size |
| Records.TickmarkRoundTrip | parse.py:158-162 | A tickmark (description, frame) reads back from its own bytes |
| Records.StringTableShape | parse.py:163-165 | A string table read (levels, packages, objects, names) returns well-formed strings and consumes exactly their encoded size |
| Records.ParseClassIndex | parse.py:166-171 | A class index read takes the class name's encoded size and the index word, within the input |
| Records.ParsedClassIndexShape | parse.py:166-171 | A class index read returns a well-formed class name and a 32-bit index, consuming exactly their encoded size |
| Records.ClassIndexTableShape | parse.py:166-171 | A class index table read returns well-formed entries and consumes exactly their encoded size |
| Records.ClassIndexRoundTrip | parse.py:166-171 | A class index entry (class, index) reads back from its own bytes |
| Records.ParseCacheProperty | parse.py:120-123 | A cache property is read exactly when eight bytes remain, and then takes eight bytes and two 32-bit ids |
| Records.CachePropertyRoundTrip | parse.py:120-123 | A cache property (object index, stream id) reads back from its eight bytes |
| Records.ClassNetCacheSize | parse.py:116-125 | A class net cache with k properties takes 16 + 8k bytes and is read exactly when they are there |
| Records.ParseClassNetCache | parse.py:116-125 | A class net cache read needs its sixteen fixed bytes, and holds as many properties as the count at offset twelve says |
| Records.ParsedClassNetCacheShape | parse.py:116-125 | A class net cache read returns three 32-bit ids and well-formed properties, consuming exactly their encoded size |
| Records.ClassNetCacheTableShape | parse.py:172 | The net cache table read returns well-formed caches and consumes exactly their encoded size |
| Records.ClassNetCacheRoundTrip | parse.py:116-125 | Every well-formed class net cache reads back from its own bytes |
| Replay.ParseVersions | parse.py:132-134 | The network version is read exactly when major > 865 and minor > 17, and then takes four more bytes |
| Replay.VersionsRoundTrip | python_scripts/replayfileformat.py:55-57 | Versions whose network field is present exactly when the rule asks read back from their own bytes |
| Replay.ParsedVersionsShape | parse.py:132-134 | A versions read returns 32-bit words, with a network version exactly when the rule asks, and consumes exactly their encoded size |
| Replay.ParseHeader | parse.py:128-138 | A header read takes at least 26 bytes and ends inside the input |
| Replay.ParsedHeaderShape | parse.py:128-138 | A header read returns a well-formed header, one the encoder accepts, and consumes exactly its encoded size |
| Replay.HeaderRoundTrip | parse.py:128-138 | Every well-formed header reads back: size, CRC, versions, game type and property list in that order |
| Replay.HeaderFrame | parse.py:128-138 | A header read depends only on the bytes it consumed |
| Replay.ParseBodyFields | parse.py:141-147 | The body fields, up to the stream size, end inside the input |
| Replay.ParsedBodyFieldsShape | parse.py:141-147 | A body fields read returns a body the encoder can write back, and consumes exactly its encoded size |
| Replay.ParseBody | parse.py:139-149 | The body is read exactly when its fields are; the seek then moves the cursor by exactly the stream size, without checking it against the input |
| Replay.BodyFieldsLayout | parse.py:141-147 | The body fields take at least size, CRC, two table counts and the stream size |
| Replay.BodyRoundTrip | parse.py:139-149 | Every well-formed body reads back, followed by a skip of exactly the stream size |
| Replay.ParseFooter | parse.py:150-175 | A footer read ends inside the input, with a signed 32-bit `end` |
| Replay.ParsedFooterShape | parse.py:150-173 | A footer read returns a footer the encoder can write back, and consumes exactly its encoded size |
| Replay.FooterLayout | parse.py:152-173 | Each footer table takes at least its four count bytes, and the footer ends inside the input |
| Replay.FooterMinimumSize | parse.py:152-173 | A footer takes at least 32 bytes |
| Replay.FooterRoundTrip | parse.py:150-175 | Every well-formed footer reads back from its own bytes |
| Replay.FooterFrame | parse.py:150-175 | A footer read depends only on the bytes it consumed |
| Replay.ParseReplay | parse.py:127-176 | A replay read takes at least 78 bytes besides its network stream: 26 of header, 20 of body fields and 32 of footer |
| Replay.ParsedReplayShape | parse.py:127-176 | A replay read returns a well-formed replay, and the input's length is exactly the three sections' encoded sizes plus the stream's |
| Replay.ReplayParts | parse.py:127-176 | A replay is header, body fields, skipped stream and footer, one after another, and the footer ends the input |
| Replay.ReplayRoundTrip | parse.py:127-176 | Every well-formed replay reads back from its bytes, whatever stream bytes of the declared size sit in the middle |
| Replay.StreamFits | parse.py:147-148 | The skipped stream must leave room for a footer of at least 32 bytes |
| Replay.ReplayKept | parse.py:147-174 | A replay depends only on the bytes outside its network stream, and on the input's length |
| Replay.StreamIgnored | parse.py:147-148 | The network stream is never read: any other bytes of the same length in its place give the same replay |
| Replay.TrailingBytesRejected | parse.py:174 | `Terminated`: a replay followed by any further bytes is not a replay |
| Draft.ParseDraftBody | python_scripts/replayfileformat.py:62-69 | The draft body is read exactly when the body fields are, with the final grammar's fields, and `current` is where the cursor is left |
| Draft.ParseDraft | python_scripts/replayfileformat.py:50-72 | A draft read needs the header's 26 bytes and the body fields' 20, and `current` lies at least the stream size beyond them |
| Draft.DraftParts | python_scripts/replayfileformat.py:50-69 | A draft read is the header from offset 0, then body fields ending the stream size before `current`, then the seek to `current` |
| Draft.ParsedDraftShape | python_scripts/replayfileformat.py:50-69 | A draft read returns a header and body fields the encoder can write back, and `current` is their encoded size plus the stream size |
| Draft.DraftCurrent | python_scripts/replayfileformat.py:67-69 | In a draft body read from any offset, the body fields read there and end exactly the stream size before `current`; the size sits in their last four bytes, and they take at least twenty bytes |
| Draft.DraftIgnoresTrailing | python_scripts/replayfileformat.py:72 | The empty footer and missing `Terminated`: bytes after a draft replay change nothing |
| Draft.FinalIsDraftThenFooter | python_scripts/replayfileformat.py:50-73 | The final grammar reads a replay exactly when the draft reads, a footer follows at `current`, and it ends the input |
| Draft.DraftOfFinal | python_scripts/replayfileformat.py:62-72 | Every replay the final grammar reads, the draft reads too, with the same header and body |
| Draft.DraftRoundTrip | python_scripts/replayfileformat.py:50-73 | A well-formed header and body read back as a draft whatever follows, with `current` the draft's own length |

## Left out

- Network-frame bit structures (`vector3i`, `rotation`, `new_actor`, `network_frame`, parse.py:81-109): bit-level declarations that `replay` never uses.
- File and directory I/O (parse.py:179-186, python_scripts/replayfileformat.py:76-77): the input is an in-memory byte sequence.
- The `parse_replay_to_df.py` scripts (lib/ and python_scripts/, the same file): an unfinished hand-written reader that the model does not follow. It reads the major and minor versions as signed (`'<iIii'`, lib/parse_replay_to_df.py:21), where parse.py:132-133 reads `Int32ul`; the two agree on the network-version test whenever both versions are below 2^31. Its `decode_string` (lib/parse_replay_to_df.py:34-44) takes the string's length from its size field, which parse.py ignores, and it has no case for a zero size. Its header loop (lib/parse_replay_to_df.py:47-54) never advances its position and passes the unpacked tuple to `read`, so it defines no grammar beyond parse.py's.
- Nesting depth: an `ArrayProperty` value holds property lists that may hold further arrays. Construct parses this nesting by recursion, so deep enough nesting ends in Python's `RecursionError`. The model parses any depth, bounded only by the input's length.
- Text decoding: string content is kept as raw bytes or 16-bit units. Decoding errors are modelled as a predicate (`Decodable`): the five bytes windows-1252 leaves undefined, and unpaired UTF-16 surrogates.
- Re-encoding a parsed header or replay: the shape lemmas promise that a read consumes exactly the encoded size of what it returns, not that the consumed bytes are that encoding. A `Flag` byte above 1 reads as true and is written back as 1, and the 8 skipped bytes of a pair are written back as zeros (`PaddingIgnored`), so such inputs do not re-encode byte for byte. Strings, by contrast, do (`ParsedStringReencodes`).
- Float values (keyframe time, `FloatProperty`): kept as their 32-bit pattern, with no numeric meaning.
- `Probe()` (python_scripts/replayfileformat.py:70): debug printing, no effect on the parse.
- Size and CRC fields: read but never checked by the code, so not checked here.
- Unknown value types: a value-type string missing from the table is a parse failure. What Construct's `Switch` does for a missing key is not visible in the repository.
