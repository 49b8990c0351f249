/** Construct's `PrefixedArray(Int32ul, subcon)`: an unsigned 32-bit element
    count, then exactly that many elements, each read where the previous one
    ended. The element parser is a parameter, so the container tables and
    their elements share one definition and one set of lemmas. */
module Arrays {
  import opened Parsing

  /** Exactly n elements, one after another. */
  function ParseCount<T>(data: seq<byte>, pos: nat, n: nat, elem: (seq<byte>, nat) -> Parsed<T>): (r: Parsed<seq<T>>)
    decreases n
  {
    if n == 0 then Ok([], pos)
    else
      match elem(data, pos)
      case Fail => Fail
      case Ok(x, p) =>
        match ParseCount(data, p, n - 1, elem)
        case Fail => Fail
        case Ok(xs, q) => Ok([x] + xs, q)
  }

  /** The count, then that many elements: a successful read found its four
      count bytes and returns exactly as many elements as they say. */
  function ParsePrefixed<T>(data: seq<byte>, pos: nat, elem: (seq<byte>, nat) -> Parsed<T>): (r: Parsed<seq<T>>)
    ensures r.Ok? ==> pos + 4 <= |data| && |r.value| == U32At(data, pos)
  {
    match ReadU32(data, pos)
    case Fail => Fail
    case Ok(n, p) =>
      CountLength(data, p, n, elem);
      ParseCount(data, p, n, elem)
  }

  /** A successful read returns exactly as many elements as the count field
      says, so never more than a u32 can count. */
  lemma {:induction false} CountLength<T>(data: seq<byte>, pos: nat, n: nat, elem: (seq<byte>, nat) -> Parsed<T>)
    ensures ParseCount(data, pos, n, elem).Ok? ==> |ParseCount(data, pos, n, elem).value| == n
    decreases n
  {
    if n > 0 {
      var e := elem(data, pos);
      if e.Ok? {
        CountLength(data, e.next, n - 1, elem);
      }
    }
  }

  lemma PrefixedLength<T>(data: seq<byte>, pos: nat, elem: (seq<byte>, nat) -> Parsed<T>)
    requires ParsePrefixed(data, pos, elem).Ok?
    ensures ReadU32(data, pos) == Ok(|ParsePrefixed(data, pos, elem).value|, pos + 4)
    ensures |ParsePrefixed(data, pos, elem).value| < TWO_32
  {
    CountLength(data, pos + 4, ReadU32(data, pos).value, elem);
  }

  function EncodeCount<T>(xs: seq<T>, enc: T -> seq<byte>): seq<byte>
  {
    if |xs| == 0 then [] else enc(xs[0]) + EncodeCount(xs[1..], enc)
  }

  function EncodePrefixed<T>(xs: seq<T>, enc: T -> seq<byte>): seq<byte>
  {
    EncodeU32(|xs|) + EncodeCount(xs, enc)
  }

  /** Every element the format can carry is read back from its own encoding,
      wherever in `data` that encoding lies. */
  ghost predicate ReadsBack<T(!new)>(data: seq<byte>, elem: (seq<byte>, nat) -> Parsed<T>, enc: T -> seq<byte>, wf: T -> bool) {
    forall x: T, p: nat {:trigger elem(data, p), enc(x)} ::
      wf(x) && IsAt(data, p, enc(x)) ==> elem(data, p) == Ok(x, p + |enc(x)|)
  }

  /** Every element satisfies wf. */
  predicate AllWellFormed<T>(xs: seq<T>, wf: T -> bool) {
    forall i :: 0 <= i < |xs| ==> wf(xs[i])
  }

  lemma {:induction false} CountRoundTrip<T(!new)>(data: seq<byte>, pos: nat, xs: seq<T>,
                                          elem: (seq<byte>, nat) -> Parsed<T>, enc: T -> seq<byte>, wf: T -> bool)
    requires ReadsBack(data, elem, enc, wf) && AllWellFormed(xs, wf)
    requires IsAt(data, pos, EncodeCount(xs, enc))
    ensures ParseCount(data, pos, |xs|, elem) == Ok(xs, pos + |EncodeCount(xs, enc)|)
    decreases |xs|
  {
    if |xs| > 0 {
      var first, rest := enc(xs[0]), EncodeCount(xs[1..], enc);
      var p := pos + |first|;
      IsAtSplit(data, pos, first, rest, p);
      assert wf(xs[0]);
      assert elem(data, pos) == Ok(xs[0], p);
      assert AllWellFormed(xs[1..], wf) by {
        forall i | 0 <= i < |xs| - 1 ensures wf(xs[1..][i]) {
          assert xs[1..][i] == xs[i + 1];
        }
      }
      CountRoundTrip(data, p, xs[1..], elem, enc, wf);
      assert [xs[0]] + xs[1..] == xs;
    }
  }

  /** A count-prefixed array of readable elements reads back. */
  lemma PrefixedRoundTrip<T(!new)>(data: seq<byte>, pos: nat, xs: seq<T>,
                             elem: (seq<byte>, nat) -> Parsed<T>, enc: T -> seq<byte>, wf: T -> bool)
    requires |xs| < TWO_32
    requires ReadsBack(data, elem, enc, wf) && AllWellFormed(xs, wf)
    requires IsAt(data, pos, EncodePrefixed(xs, enc))
    ensures ParsePrefixed(data, pos, elem) == Ok(xs, pos + |EncodePrefixed(xs, enc)|)
  {
    var p := pos + 4;
    IsAtSplit(data, pos, EncodeU32(|xs|), EncodeCount(xs, enc), p);
    ReadU32RoundTrip(data, pos, |xs|);
    CountRoundTrip(data, p, xs, elem, enc, wf);
  }

  /** Every successful element read returns an element the format can carry
      and consumes exactly that element's encoding. */
  ghost predicate ReadsWellFormed<T>(data: seq<byte>, elem: (seq<byte>, nat) -> Parsed<T>, enc: T -> seq<byte>, wf: T -> bool) {
    forall p: nat {:trigger elem(data, p)} ::
      elem(data, p).Ok? ==> wf(elem(data, p).value) && elem(data, p).next == p + |enc(elem(data, p).value)|
  }

  /** The other direction of CountRoundTrip: when every element read returns
      a well-formed element of its encoded size, so does the array read. */
  lemma {:induction false} ParsedCountShape<T>(data: seq<byte>, pos: nat, n: nat,
                                             elem: (seq<byte>, nat) -> Parsed<T>, enc: T -> seq<byte>, wf: T -> bool)
    requires ReadsWellFormed(data, elem, enc, wf)
    requires ParseCount(data, pos, n, elem).Ok?
    ensures AllWellFormed(ParseCount(data, pos, n, elem).value, wf)
    ensures ParseCount(data, pos, n, elem).next == pos + |EncodeCount(ParseCount(data, pos, n, elem).value, enc)|
    decreases n
  {
    if n > 0 {
      var e := elem(data, pos);
      var rest := ParseCount(data, e.next, n - 1, elem);
      ParsedCountShape(data, e.next, n - 1, elem, enc, wf);
      var xs := [e.value] + rest.value;
      assert xs[1..] == rest.value;
      forall i | 0 <= i < |xs|
        ensures wf(xs[i])
      {
        if i > 0 {
          assert xs[i] == rest.value[i - 1];
        }
      }
    }
  }

  /** A successful count-prefixed read returns at most a u32's worth of
      well-formed elements, and consumes exactly their encoded size: the count
      field, then each element's bytes. */
  lemma ParsedPrefixedShape<T>(data: seq<byte>, pos: nat,
                               elem: (seq<byte>, nat) -> Parsed<T>, enc: T -> seq<byte>, wf: T -> bool)
    requires ReadsWellFormed(data, elem, enc, wf)
    requires ParsePrefixed(data, pos, elem).Ok?
    ensures |ParsePrefixed(data, pos, elem).value| < TWO_32
    ensures AllWellFormed(ParsePrefixed(data, pos, elem).value, wf)
    ensures ParsePrefixed(data, pos, elem).next == pos + |EncodePrefixed(ParsePrefixed(data, pos, elem).value, enc)|
  {
    PrefixedLength(data, pos, elem);
    ParsedCountShape(data, pos + 4, ReadU32(data, pos).value, elem, enc, wf);
  }

  /** Element reads never move the cursor backwards. */
  ghost predicate Advancing<T>(data: seq<byte>, elem: (seq<byte>, nat) -> Parsed<T>) {
    forall p: nat {:trigger elem(data, p)} :: elem(data, p).Ok? ==> p <= elem(data, p).next
  }

  /** Every successful element read inside [lo, hi) gives the same result
      on `data2`. */
  ghost predicate LocalTo<T>(data: seq<byte>, data2: seq<byte>, lo: nat, hi: nat, elem: (seq<byte>, nat) -> Parsed<T>) {
    forall p: nat {:trigger elem(data, p)} ::
      lo <= p && elem(data, p).Ok? && elem(data, p).next <= hi ==> elem(data2, p) == elem(data, p)
  }

  /** Elements that never look backwards make an array that never looks
      backwards: the array read depends only on the bytes it consumed. */
  lemma {:induction false} CountFrame<T>(data: seq<byte>, data2: seq<byte>, lo: nat, hi: nat, pos: nat, n: nat,
                                      elem: (seq<byte>, nat) -> Parsed<T>)
    requires LocalTo(data, data2, lo, hi, elem)
    requires Advancing(data, elem)
    requires ParseCount(data, pos, n, elem).Ok? && lo <= pos && ParseCount(data, pos, n, elem).next <= hi
    ensures ParseCount(data2, pos, n, elem) == ParseCount(data, pos, n, elem)
    decreases n
  {
    if n > 0 {
      var e := elem(data, pos);
      CountAdvances(data, e.next, n - 1, elem);
      CountFrame(data, data2, lo, hi, e.next, n - 1, elem);
    }
  }

  /** An array read ends no earlier than it starts, when its elements do. */
  lemma {:induction false} CountAdvances<T>(data: seq<byte>, pos: nat, n: nat, elem: (seq<byte>, nat) -> Parsed<T>)
    requires Advancing(data, elem)
    ensures ParseCount(data, pos, n, elem).Ok? ==> pos <= ParseCount(data, pos, n, elem).next
    decreases n
  {
    if n > 0 && elem(data, pos).Ok? {
      CountAdvances(data, elem(data, pos).next, n - 1, elem);
    }
  }

  /** Elements of one fixed width make an array whose width is the count
      times that width, and which can be read exactly when that many bytes
      remain (an empty array is read anywhere, even past the end). */
  lemma {:induction false} CountFixedWidth<T>(data: seq<byte>, pos: nat, n: nat, elem: (seq<byte>, nat) -> Parsed<T>, w: nat)
    requires forall p: nat {:trigger elem(data, p)} ::
      && (elem(data, p).Ok? <==> p + w <= |data|)
      && (elem(data, p).Ok? ==> elem(data, p).next == p + w)
    ensures ParseCount(data, pos, n, elem).Ok? <==> n == 0 || pos + w * n <= |data|
    ensures ParseCount(data, pos, n, elem).Ok? ==> ParseCount(data, pos, n, elem).next == pos + w * n
    decreases n
  {
    if n > 0 {
      assert w * n == w + w * (n - 1);
      var e := elem(data, pos);
      if e.Ok? {
        CountFixedWidth(data, pos + w, n - 1, elem, w);
      }
    }
  }

  /** A count-prefixed array takes at least its four count bytes. */
  lemma PrefixedAdvances<T>(data: seq<byte>, pos: nat, elem: (seq<byte>, nat) -> Parsed<T>)
    requires Advancing(data, elem)
    ensures ParsePrefixed(data, pos, elem).Ok? ==> pos + 4 <= ParsePrefixed(data, pos, elem).next
  {
    if ReadU32(data, pos).Ok? {
      CountAdvances(data, pos + 4, ReadU32(data, pos).value, elem);
    }
  }

  /** A count-prefixed array read depends only on the bytes it consumed. */
  lemma PrefixedFrame<T>(data: seq<byte>, data2: seq<byte>, lo: nat, hi: nat, pos: nat,
                         elem: (seq<byte>, nat) -> Parsed<T>)
    requires LocalTo(data, data2, lo, hi, elem) && Advancing(data, elem)
    requires Agree(data, data2, lo, hi)
    requires ParsePrefixed(data, pos, elem).Ok? && lo <= pos && ParsePrefixed(data, pos, elem).next <= hi
    ensures ParsePrefixed(data2, pos, elem) == ParsePrefixed(data, pos, elem)
  {
    PrefixedAdvances(data, pos, elem);
    ReadU32Frame(data, data2, lo, hi, pos);
    CountFrame(data, data2, lo, hi, pos + 4, ReadU32(data, pos).value, elem);
  }
}
