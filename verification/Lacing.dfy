/** Block lacing, section 10.3 of RFC 9559: how the frames of one block share its body. */
module Lacing {
  import opened Bytes
  import opened Vint

  datatype Mode = Unlaced | Xiph | FixedSize | Ebml

  /** Two bits of the flags tell the mode. */
  function FromFlags(flags: Byte): Mode
  {
    match flags / 2 % 4
    case 1 => Xiph
    case 2 => FixedSize
    case 3 => Ebml
    case _ => Unlaced
  }

  datatype Range = Range(lo: nat, hi: nat)

  // ---- The size fields of each mode ----

  /** One Xiph size at `pos`: a run of 255s and the byte that ends it. Yields the size and the next position. */
  function XiphSize(body: seq<Byte>, pos: nat): (r: Option<(nat, nat)>)
    ensures r.Some? ==> pos < r.value.1 <= |body|
    decreases |body| - pos
  {
    if pos >= |body| then None
    else if body[pos] != 255 then Some((body[pos], pos + 1))
    else match XiphSize(body, pos + 1)
      case None => None
      case Some((size, next)) => Some((255 + size, next))
  }

  function XiphSizes(body: seq<Byte>, pos: nat, count: nat): (r: Option<(seq<nat>, nat)>)
    requires pos <= |body|
    ensures r.Some? ==> |r.value.0| == count && pos <= r.value.1 <= |body|
    decreases count
  {
    if count == 0 then Some(([], pos))
    else match XiphSize(body, pos)
      case None => None
      case Some((size, next)) =>
        match XiphSizes(body, next, count - 1)
        case None => None
        case Some((sizes, end)) => Some(([size] + sizes, end))
  }

  /** `count` signed deltas at `pos`, each added to the size before it; a size below zero is malformed. */
  function EbmlSizes(body: seq<Byte>, pos: nat, prev: nat, count: nat): (r: Option<(seq<nat>, nat)>)
    requires pos <= |body|
    ensures r.Some? ==> |r.value.0| == count && pos <= r.value.1 <= |body|
    decreases count
  {
    if count == 0 then Some(([], pos))
    else match SizeAt(body[pos..])
      case Err(_) => None
      case Ok((v, len)) =>
        var size := prev + v.value - Bias(len);
        if size < 0 then None
        else match EbmlSizes(body, pos + len, size, count - 1)
          case None => None
          case Some((sizes, end)) => Some(([size] + sizes, end))
  }

  /** The explicit sizes (all but the last frame's) and where the frames begin. `pos` is just after the count byte. */
  function Sizes(body: seq<Byte>, pos: nat, mode: Mode, count: nat): (r: Option<(seq<nat>, nat)>)
    requires pos <= |body| && mode != Unlaced && count >= 1
    ensures r.Some? ==> |r.value.0| == count && pos <= r.value.1 <= |body|
  {
    match mode
    case Xiph => XiphSizes(body, pos, count)
    case FixedSize =>
      if (|body| - pos) % (count + 1) != 0 then None
      else Some((seq<nat>(count, _ => (|body| - pos) / (count + 1)), pos))
    case Ebml =>
      match SizeAt(body[pos..])
      case Err(_) => None
      case Ok((first, len)) =>
        match EbmlSizes(body, pos + len, first.value, count - 1)
        case None => None
        case Some((sizes, end)) => Some(([first.value] + sizes, end))
  }

  /** Ranges of the given sizes from `off` on, and one more for what remains up to `end`. */
  function Lay(sizes: seq<nat>, off: nat, end: nat): (r: Option<seq<Range>>)
    requires off <= end
    ensures r.Some? ==> |r.value| == |sizes| + 1
    decreases |sizes|
  {
    if sizes == [] then Some([Range(off, end)])
    else if off + sizes[0] > end then None
    else match Lay(sizes[1..], off + sizes[0], end)
      case None => None
      case Some(rest) => Some([Range(off, off + sizes[0])] + rest)
  }

  function SplitRanges(body: seq<Byte>, start: nat, mode: Mode): Option<seq<Range>>
  {
    if mode == Unlaced then
      if start > |body| then None else Some([Range(start, |body|)])
    else if start >= |body| then None
    else if body[start] == 0 then Some([Range(start + 1, |body|)])
    else match Sizes(body, start + 1, mode, body[start])
      case None => None
      case Some((sizes, off)) => Lay(sizes, off, |body|)
  }

  // ---- The loops of the reader and the writer ----

  method ReadXiphSize(body: seq<Byte>, start: nat) returns (r: Option<(nat, nat)>)
    requires start <= |body|
    ensures r == XiphSize(body, start)
  {
    var size: nat, pos: nat := 0, start;
    while true
      invariant pos <= |body|
      invariant XiphSize(body, start) == AddSize(size, XiphSize(body, pos))
      decreases |body| - pos
    {
      if pos >= |body| {
        return None;
      }
      var b := body[pos];
      pos := pos + 1;
      size := size + b;
      if b != 255 {
        return Some((size, pos));
      }
    }
  }

  method SplitXiph(body: seq<Byte>, start: nat, count: nat) returns (r: Option<(seq<nat>, nat)>)
    requires start <= |body|
    ensures r == XiphSizes(body, start, count)
  {
    var sizes: seq<nat> := [];
    var pos: nat := start;
    PrependNothing(XiphSizes(body, pos, count));
    for i := 0 to count
      invariant pos <= |body|
      invariant XiphSizes(body, start, count) == Prepend(sizes, XiphSizes(body, pos, count - i))
    {
      var next := ReadXiphSize(body, pos);
      if next.None? {
        return None;
      }
      var size: nat := next.value.0;
      pos := next.value.1;
      PrependMore(sizes, size, XiphSizes(body, pos, count - i - 1));
      sizes := sizes + [size];
    }
    assert sizes + [] == sizes;
    return Some((sizes, pos));
  }

  function Prepend(sizes: seq<nat>, r: Option<(seq<nat>, nat)>): Option<(seq<nat>, nat)>
  {
    match r case None => None case Some((rest, end)) => Some((sizes + rest, end))
  }

  function AddSize(size: nat, r: Option<(nat, nat)>): Option<(nat, nat)>
  {
    match r case None => None case Some((more, next)) => Some((size + more, next))
  }

  lemma PrependNothing(r: Option<(seq<nat>, nat)>)
    ensures Prepend([], r) == r
  {
    if r.Some? {
      assert [] + r.value.0 == r.value.0;
    }
  }

  lemma PrependMore(sizes: seq<nat>, size: nat, r: Option<(seq<nat>, nat)>)
    ensures Prepend(sizes, Prepend([size], r)) == Prepend(sizes + [size], r)
  {
    if r.Some? {
      assert sizes + ([size] + r.value.0) == sizes + [size] + r.value.0;
    }
  }

  method SplitEbml(body: seq<Byte>, start: nat, count: nat) returns (r: Option<(seq<nat>, nat)>)
    requires start <= |body| && count >= 1
    ensures r == Sizes(body, start, Ebml, count)
  {
    hide SizeAt, Bias;
    var first := DecodeSize(body[start..]);
    if first.Err? {
      return None;
    }
    var pos: nat := start + first.value.1;
    var prev: nat := first.value.0.value;
    var sizes: seq<nat> := [prev];
    for i := 1 to count
      invariant pos <= |body|
      invariant Sizes(body, start, Ebml, count) == Prepend(sizes, EbmlSizes(body, pos, prev, count - i))
    {
      var v := DecodeSize(body[pos..]);
      if v.Err? {
        return None;
      }
      pos := pos + v.value.1;
      var next := prev + (v.value.0.value - Bias(v.value.1));
      if next < 0 {
        return None;
      }
      prev := next;
      PrependMore(sizes, prev, EbmlSizes(body, pos, prev, count - i - 1));
      sizes := sizes + [prev];
    }
    assert sizes + [] == sizes;
    return Some((sizes, pos));
  }

  /** Where each frame lies in the body, or nothing when the sizes do not add up. */
  method Split(body: seq<Byte>, start: nat, mode: Mode) returns (r: Option<seq<Range>>)
    ensures r == SplitRanges(body, start, mode)
  {
    if mode == Unlaced {
      if start > |body| {
        return None;
      }
      return Some([Range(start, |body|)]);
    }
    if start >= |body| {
      return None;
    }
    var frameCount: nat := body[start] as int + 1;
    var pos: nat := start + 1;
    if frameCount == 1 {
      return Some([Range(pos, |body|)]);
    }
    var explicitCount := frameCount - 1;
    var found: Option<(seq<nat>, nat)> := None;
    match mode {
      case Xiph => found := SplitXiph(body, pos, explicitCount);
      case FixedSize =>
        var total := |body| - pos;
        if total % frameCount != 0 {
          return None;
        }
        found := Some((seq<nat>(explicitCount, _ => total / frameCount), pos));
      case Ebml => found := SplitEbml(body, pos, explicitCount);
    }
    if found.None? {
      return None;
    }
    var sizes, frames := found.value.0, found.value.1;
    r := LayOut(sizes, frames, |body|);
  }

  method LayOut(sizes: seq<nat>, frames: nat, bodyEnd: nat) returns (r: Option<seq<Range>>)
    requires frames <= bodyEnd
    ensures r == Lay(sizes, frames, bodyEnd)
  {
    var ranges: seq<Range> := [];
    var off: nat := frames;
    assert sizes[0..] == sizes;
    LayNothing(Lay(sizes, off, bodyEnd));
    for i := 0 to |sizes|
      invariant off <= bodyEnd
      invariant Lay(sizes, frames, bodyEnd) == LayRest(ranges, Lay(sizes[i..], off, bodyEnd))
    {
      var end: nat := off + sizes[i];
      if end > bodyEnd {
        return None;
      }
      assert sizes[i..][1..] == sizes[i + 1..];
      LayMore(ranges, Range(off, end), Lay(sizes[i + 1..], end, bodyEnd));
      ranges := ranges + [Range(off, end)];
      off := end;
    }
    return Some(ranges + [Range(off, bodyEnd)]);
  }

  lemma LayMore(ranges: seq<Range>, range: Range, r: Option<seq<Range>>)
    ensures LayRest(ranges, LayRest([range], r)) == LayRest(ranges + [range], r)
  {
    if r.Some? {
      assert ranges + ([range] + r.value) == ranges + [range] + r.value;
    }
  }

  lemma LayNothing(r: Option<seq<Range>>)
    ensures LayRest([], r) == r
  {
    if r.Some? {
      assert [] + r.value == r.value;
    }
  }

  function LayRest(ranges: seq<Range>, r: Option<seq<Range>>): Option<seq<Range>>
  {
    match r case None => None case Some(rest) => Some(ranges + rest)
  }

  /** The later size fields of an EBML lace: how much each frame is longer or shorter than its predecessor. */
  function DeltaFields(prev: nat, sizes: seq<nat>): seq<Byte>
    decreases |sizes|
  {
    if sizes == [] then [] else DeltaBytes(sizes[0] - prev) + DeltaFields(sizes[0], sizes[1..])
  }

  function LaceFields(sizes: seq<nat>): seq<Byte>
  {
    if sizes == [] then [] else SizeBytes(sizes[0]) + DeltaFields(sizes[0], sizes[1..])
  }

  method EncodeEbmlLaceSizes(sizes: seq<nat>, out: seq<Byte>) returns (r: seq<Byte>)
    ensures r == out + LaceFields(sizes)
  {
    hide DeltaBytes, SizeBytes, DeltaFields;
    if |sizes| == 0 {
      return out;
    }
    r := EncodeSize(sizes[0], out);
    var prev: nat := sizes[0];
    for i := 1 to |sizes|
      invariant prev == sizes[i - 1]
      invariant r + DeltaFields(prev, sizes[i..]) == out + LaceFields(sizes)
    {
      var size := sizes[i] as int;
      assert sizes[i..][1..] == sizes[i + 1..];
      NextDeltaField(prev, sizes[i..]);
      AppendFields(r, DeltaBytes(size - prev), DeltaFields(size, sizes[i + 1..]));
      r := EncodeSignedDelta(size - prev, r);
      prev := size;
    }
    NoDeltaFields(prev);
  }

  lemma NextDeltaField(prev: nat, sizes: seq<nat>)
    requires sizes != []
    ensures DeltaFields(prev, sizes) == DeltaBytes(sizes[0] - prev) + DeltaFields(sizes[0], sizes[1..])
  {
  }

  lemma NoDeltaFields(prev: nat)
    ensures DeltaFields(prev, []) == []
  {
  }

  lemma AppendFields(a: seq<Byte>, b: seq<Byte>, c: seq<Byte>)
    ensures a + (b + c) == a + b + c
  {
  }

  // ---- What a successful split always means ----

  /** Adjacent ranges that cover `off` to `end`. */
  predicate Tile(ranges: seq<Range>, off: nat, end: nat)
  {
    && ranges != []
    && ranges[0].lo == off
    && ranges[|ranges| - 1].hi == end
    && (forall i | 0 <= i < |ranges| :: ranges[i].lo <= ranges[i].hi <= end)
    && (forall i | 0 < i < |ranges| :: ranges[i].lo == ranges[i - 1].hi)
  }

  lemma {:induction false} LayTiles(sizes: seq<nat>, off: nat, end: nat)
    requires off <= end && Lay(sizes, off, end).Some?
    ensures var r := Lay(sizes, off, end).value;
            Tile(r, off, end) && forall i | 0 <= i < |sizes| :: r[i].hi - r[i].lo == sizes[i]
  {
    if sizes != [] {
      LayTiles(sizes[1..], off + sizes[0], end);
      var rest := Lay(sizes[1..], off + sizes[0], end).value;
      forall i | 0 <= i < |sizes|
        ensures Lay(sizes, off, end).value[i].hi - Lay(sizes, off, end).value[i].lo == sizes[i]
      {
        if i > 0 {
          assert Lay(sizes, off, end).value[i] == rest[i - 1];
        }
      }
    }
  }

  /** The ranges of a successful split are adjacent, end where the body ends, and number what the count byte says. */
  lemma {:induction false} SplitTiles(body: seq<Byte>, start: nat, mode: Mode)
    requires SplitRanges(body, start, mode).Some?
    ensures var r := SplitRanges(body, start, mode).value;
            && Tile(r, r[0].lo, |body|)
            && start <= r[0].lo
            && |r| == (if mode == Unlaced then 1 else body[start] as int + 1)
  {
    if mode != Unlaced && body[start] != 0 {
      var (sizes, off) := Sizes(body, start + 1, mode, body[start]).value;
      LayTiles(sizes, off, |body|);
    }
  }

  /** Fixed-size lacing cuts all frames, the last one too, to one size. */
  lemma {:induction false} FixedSizesEqual(body: seq<Byte>, start: nat)
    requires SplitRanges(body, start, FixedSize).Some?
    ensures var r := SplitRanges(body, start, FixedSize).value;
            forall i | 0 <= i < |r| :: r[i].hi - r[i].lo == (|body| - start - 1) / |r|
  {
    hide Sizes, Lay;
    var count: nat := body[start];
    SplitTiles(body, start, FixedSize);
    if count > 0 {
      var (sizes, off) := Sizes(body, start + 1, FixedSize, count).value;
      EqualShares(body, start + 1, count);
      LayTiles(sizes, off, |body|);
      SharesLaid(SplitRanges(body, start, FixedSize).value, start + 1, |body|, (|body| - start - 1) / (count + 1));
    }
  }

  lemma EqualShares(body: seq<Byte>, pos: nat, count: nat)
    requires pos <= |body| && count >= 1 && Sizes(body, pos, FixedSize, count).Some?
    ensures var (sizes, off) := Sizes(body, pos, FixedSize, count).value;
            off == pos && (|body| - pos) % (count + 1) == 0
            && forall i | 0 <= i < count :: sizes[i] == (|body| - pos) / (count + 1)
  {
  }

  lemma SharesLaid(r: seq<Range>, off: nat, end: nat, each: nat)
    requires Tile(r, off, end) && off <= end && (end - off) % |r| == 0 && each == (end - off) / |r|
    requires forall i | 0 <= i < |r| - 1 :: r[i].hi - r[i].lo == each
    ensures forall i | 0 <= i < |r| :: r[i].hi - r[i].lo == each
  {
    RangeStarts(r, each, |r| - 1);
    LastShare(end - off, |r|, each);
  }

  lemma LastShare(total: nat, n: nat, each: nat)
    requires n >= 1 && total % n == 0 && each == total / n
    ensures total - each * (n - 1) == each
  {
    assert total == each * n;
  }

  /** When all ranges before `k` have one size, the `k`-th starts that many sizes in. */
  lemma {:induction false} RangeStarts(r: seq<Range>, each: nat, k: nat)
    requires k < |r| && forall i | 0 < i < |r| :: r[i].lo == r[i - 1].hi
    requires forall i | 0 <= i < k :: r[i].hi - r[i].lo == each
    ensures r[k].lo == r[0].lo + each * k
  {
    if k > 0 {
      RangeStarts(r, each, k - 1);
      assert each * k == each * (k - 1) + each;
    }
  }

  // ---- EBML lacing inverts ----

  function Lengths(payloads: seq<seq<Byte>>): (r: seq<nat>)
    ensures |r| == |payloads|
  {
    seq(|payloads|, i requires 0 <= i < |payloads| => |payloads[i]|)
  }

  /** A laced block's body after its flags byte: frame count less one, sizes of all frames but the last, the frames. */
  function LacedBody(payloads: seq<seq<Byte>>): seq<Byte>
    requires 2 <= |payloads| <= 256
  {
    [|payloads| - 1] + LaceFields(Lengths(payloads[..|payloads| - 1])) + Concat(payloads)
  }

  /** The bytes that the ranges cut out. */
  function Slices(body: seq<Byte>, ranges: seq<Range>): (r: seq<seq<Byte>>)
    requires forall i | 0 <= i < |ranges| :: ranges[i].lo <= ranges[i].hi <= |body|
    ensures |r| == |ranges|
  {
    seq(|ranges|, i requires 0 <= i < |ranges| => body[ranges[i].lo..ranges[i].hi])
  }

  lemma {:induction false} DeltaFieldsRead(head: seq<Byte>, prev: nat, sizes: seq<nat>, tail: seq<Byte>)
    requires prev < DELTA_LIMIT && forall i | 0 <= i < |sizes| :: sizes[i] < DELTA_LIMIT
    ensures var fields := DeltaFields(prev, sizes);
            EbmlSizes(head + fields + tail, |head|, prev, |sizes|) == Some((sizes, |head + fields|))
    decreases |sizes|
  {
    hide DeltaBytes, SizeAt, DataLimit, Bias;
    if sizes != [] {
      var field, rest := DeltaBytes(sizes[0] as int - prev), DeltaFields(sizes[0], sizes[1..]);
      var body := head + DeltaFields(prev, sizes) + tail;
      assert body[|head|..] == field + (rest + tail);
      DeltaRoundTrip(sizes[0] as int - prev, rest + tail);
      assert body == head + field + rest + tail;
      DeltaFieldsRead(head + field, sizes[0], sizes[1..], tail);
      assert [sizes[0]] + sizes[1..] == sizes;
    }
  }

  lemma {:induction false} LaySlices(head: seq<Byte>, payloads: seq<seq<Byte>>)
    requires payloads != []
    ensures var body := head + Concat(payloads);
            var r := Lay(Lengths(payloads[..|payloads| - 1]), |head|, |body|);
            r.Some? && (forall i | 0 <= i < |r.value| :: r.value[i].lo <= r.value[i].hi <= |body|) &&
            Slices(body, r.value) == payloads
    decreases |payloads|
  {
    hide Lay, Slices, Lengths, Concat;
    ConcatFirst(payloads);
    var body := head + Concat(payloads);
    if |payloads| == 1 {
      LayOne(head, payloads);
    } else {
      var next := head + payloads[0];
      assert body == next + Concat(payloads[1..]);
      LaySlices(next, payloads[1..]);
      LayFirst(head, payloads, body);
    }
  }

  lemma LayOne(head: seq<Byte>, payloads: seq<seq<Byte>>)
    requires |payloads| == 1
    ensures var body := head + Concat(payloads);
            Lay(Lengths(payloads[..0]), |head|, |body|) == Some([Range(|head|, |body|)])
            && Slices(body, [Range(|head|, |body|)]) == payloads
  {
    ConcatFirst(payloads);
    var body := head + Concat(payloads);
    assert payloads[1..] == [] && Concat(payloads) == payloads[0];
    assert body[|head|..|body|] == payloads[0];
  }

  lemma LayFirst(head: seq<Byte>, payloads: seq<seq<Byte>>, body: seq<Byte>)
    requires |payloads| >= 2 && head + payloads[0] <= body
    requires var r := Lay(Lengths(payloads[1..][..|payloads| - 2]), |head| + |payloads[0]|, |body|);
             r.Some? && (forall i | 0 <= i < |r.value| :: r.value[i].lo <= r.value[i].hi <= |body|) &&
             Slices(body, r.value) == payloads[1..]
    ensures var r := Lay(Lengths(payloads[..|payloads| - 1]), |head|, |body|);
            r.Some? && (forall i | 0 <= i < |r.value| :: r.value[i].lo <= r.value[i].hi <= |body|) &&
            Slices(body, r.value) == payloads
  {
    LengthsRest(payloads);
    var rest := Lay(Lengths(payloads[1..][..|payloads| - 2]), |head| + |payloads[0]|, |body|).value;
    var first := Range(|head|, |head| + |payloads[0]|);
    assert body[first.lo..first.hi] == payloads[0];
    SlicesFirst(body, first, rest);
    assert [payloads[0]] + payloads[1..] == payloads;
  }

  lemma LengthsRest(payloads: seq<seq<Byte>>)
    requires |payloads| >= 2
    ensures Lengths(payloads[..|payloads| - 1])[1..] == Lengths(payloads[1..][..|payloads| - 2])
    ensures Lengths(payloads[..|payloads| - 1])[0] == |payloads[0]|
  {
  }

  lemma SlicesFirst(body: seq<Byte>, first: Range, rest: seq<Range>)
    requires first.lo <= first.hi <= |body| && forall i | 0 <= i < |rest| :: rest[i].lo <= rest[i].hi <= |body|
    ensures forall i | 0 <= i < |[first] + rest| :: ([first] + rest)[i].lo <= ([first] + rest)[i].hi <= |body|
    ensures Slices(body, [first] + rest) == [body[first.lo..first.hi]] + Slices(body, rest)
  {
  }

  /** The size fields written for `sizes` read back as those sizes. */
  lemma LaceFieldsRead(head: seq<Byte>, sizes: seq<nat>, tail: seq<Byte>)
    requires sizes != [] && forall i | 0 <= i < |sizes| :: sizes[i] < DELTA_LIMIT
    ensures Sizes(head + LaceFields(sizes) + tail, |head|, Ebml, |sizes|) == Some((sizes, |head + LaceFields(sizes)|))
  {
    hide DeltaBytes, SizeBytes, SizeAt, DataLimit, EbmlSizes, XiphSizes;
    var field, deltas := SizeBytes(sizes[0]), DeltaFields(sizes[0], sizes[1..]);
    var body, at := head + LaceFields(sizes) + tail, head + field;
    assert SizeAt(body[|head|..]) == Ok((VintSize(sizes[0], false), |field|)) by {
      assert body[|head|..] == field + (deltas + tail);
      SizeRoundTrip(sizes[0], deltas + tail);
    }
    assert EbmlSizes(body, |at|, sizes[0], |sizes| - 1) == Some((sizes[1..], |at + deltas|)) by {
      assert body == at + deltas + tail;
      DeltaFieldsRead(at, sizes[0], sizes[1..], tail);
    }
    assert [sizes[0]] + sizes[1..] == sizes;
  }

  /** Splitting an EBML-laced body returns ranges whose slices are exactly the payloads it was made from. */
  lemma {:induction false} LacingInverts(head: seq<Byte>, payloads: seq<seq<Byte>>)
    requires 2 <= |payloads| <= 256 && forall i | 0 <= i < |payloads| :: |payloads[i]| < DELTA_LIMIT
    ensures var body := head + LacedBody(payloads);
            var r := SplitRanges(body, |head|, Ebml);
            && r.Some?
            && (forall i | 0 <= i < |r.value| :: r.value[i].lo <= r.value[i].hi <= |body|)
            && Slices(body, r.value) == payloads
  {
    hide LaceFields;
    var body, count := head + LacedBody(payloads), |payloads| - 1;
    var sizes := Lengths(payloads[..count]);
    var before := head + [count as Byte];
    assert body == before + LaceFields(sizes) + Concat(payloads);
    LaceFieldsRead(before, sizes, Concat(payloads));
    LaySlices(before + LaceFields(sizes), payloads);
  }
}
