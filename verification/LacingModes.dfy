/** The lacing modes the writer does not use, and what the flags and count byte select. */
module LacingModes {
  import opened Bytes
  import opened Lacing

  // ---- Which mode ----

  /** Bits 2 and 4 of the flags: neither is no lacing, the lower alone Xiph, the higher alone fixed size, both EBML. */
  lemma ModeOfFlags(flags: Byte)
    ensures FromFlags(flags) == Unlaced <==> flags / 2 % 2 == 0 && flags / 4 % 2 == 0
    ensures FromFlags(flags) == Xiph <==> flags / 2 % 2 == 1 && flags / 4 % 2 == 0
    ensures FromFlags(flags) == FixedSize <==> flags / 2 % 2 == 0 && flags / 4 % 2 == 1
    ensures FromFlags(flags) == Ebml <==> flags / 2 % 2 == 1 && flags / 4 % 2 == 1
  {
  }

  // ---- Whatever splits is all used ----

  lemma {:induction false} SlicesJoin(body: seq<Byte>, r: seq<Range>, off: nat)
    requires Tile(r, off, |body|) && off <= |body|
    ensures Concat(Slices(body, r)) == body[off..]
    decreases |r|
  {
    hide Slices;
    var first, rest := r[0], r[1..];
    ConcatFirst(Slices(body, r));
    SlicesFirst(body, first, rest);
    assert r == [first] + rest;
    assert Slices(body, r)[1..] == Slices(body, rest);
    assert body[off..] == body[first.lo..first.hi] + body[first.hi..];
    if rest == [] {
      assert Slices(body, rest) == [];
    } else {
      SlicesJoin(body, rest, first.hi);
    }
  }

  /** What a body splits into, in any mode, joined together is the end of the body. */
  lemma {:induction false} SplitJoins(body: seq<Byte>, start: nat, mode: Mode)
    requires SplitRanges(body, start, mode).Some?
    ensures var r := SplitRanges(body, start, mode).value;
            && r != [] && (forall i | 0 <= i < |r| :: r[i].lo <= r[i].hi <= |body|)
            && start <= r[0].lo <= |body| && Concat(Slices(body, r)) == body[r[0].lo..]
  {
    hide SplitRanges, Slices;
    SplitTiles(body, start, mode);
    SlicesJoin(body, SplitRanges(body, start, mode).value, SplitRanges(body, start, mode).value[0].lo);
  }

  // ---- Xiph ----

  /** A size as Xiph lacing tells it: as many bytes of 255 as go into it, and the rest. */
  function XiphField(size: nat): (s: seq<Byte>)
    ensures s != []
  {
    if size < 255 then [size] else [255] + XiphField(size - 255)
  }

  function XiphFields(sizes: seq<nat>): seq<Byte>
  {
    if sizes == [] then [] else XiphField(sizes[0]) + XiphFields(sizes[1..])
  }

  function XiphBody(payloads: seq<seq<Byte>>): seq<Byte>
    requires 2 <= |payloads| <= 256
  {
    [|payloads| - 1] + XiphFields(Lengths(payloads[..|payloads| - 1])) + Concat(payloads)
  }

  lemma {:induction false} XiphFieldRead(head: seq<Byte>, size: nat, tail: seq<Byte>)
    ensures XiphSize(head + XiphField(size) + tail, |head|) == Some((size, |head + XiphField(size)|))
    decreases size
  {
    var body := head + XiphField(size) + tail;
    if size >= 255 {
      assert body == (head + [255]) + XiphField(size - 255) + tail;
      XiphFieldRead(head + [255], size - 255, tail);
    }
  }

  lemma {:induction false} XiphFieldsRead(head: seq<Byte>, sizes: seq<nat>, tail: seq<Byte>)
    ensures XiphSizes(head + XiphFields(sizes) + tail, |head|, |sizes|) == Some((sizes, |head + XiphFields(sizes)|))
    decreases |sizes|
  {
    hide XiphField, XiphSize;
    if sizes != [] {
      var field, rest := XiphField(sizes[0]), XiphFields(sizes[1..]);
      var body := head + XiphFields(sizes) + tail;
      assert body == head + field + (rest + tail);
      XiphFieldRead(head, sizes[0], rest + tail);
      assert body == (head + field) + rest + tail;
      XiphFieldsRead(head + field, sizes[1..], tail);
      assert [sizes[0]] + sizes[1..] == sizes;
    }
  }

  /** Splitting a Xiph-laced body gives the payloads it was made from, whatever their lengths. */
  lemma {:induction false} XiphInverts(head: seq<Byte>, payloads: seq<seq<Byte>>)
    requires 2 <= |payloads| <= 256
    ensures var body := head + XiphBody(payloads);
            var r := SplitRanges(body, |head|, Xiph);
            && r.Some?
            && (forall i | 0 <= i < |r.value| :: r.value[i].lo <= r.value[i].hi <= |body|)
            && Slices(body, r.value) == payloads
  {
    hide XiphFields;
    var body, count := head + XiphBody(payloads), |payloads| - 1;
    var sizes := Lengths(payloads[..count]);
    var before := head + [count as Byte];
    assert body == before + XiphFields(sizes) + Concat(payloads);
    XiphFieldsRead(before, sizes, Concat(payloads));
    LaySlices(before + XiphFields(sizes), payloads);
  }

  lemma {:induction false} XiphSizeSpells(body: seq<Byte>, pos: nat)
    requires XiphSize(body, pos).Some?
    ensures var (size, next) := XiphSize(body, pos).value; body[pos..next] == XiphField(size)
    decreases |body| - pos
  {
    if body[pos] == 255 {
      XiphSizeSpells(body, pos + 1);
      var (size, next) := XiphSize(body, pos + 1).value;
      assert body[pos..next] == [255] + body[pos + 1..next];
    }
  }

  lemma {:induction false} XiphSizesSpell(body: seq<Byte>, pos: nat, count: nat)
    requires pos <= |body| && XiphSizes(body, pos, count).Some?
    ensures var (sizes, end) := XiphSizes(body, pos, count).value; body[pos..end] == XiphFields(sizes)
    decreases count
  {
    hide XiphSize, XiphField;
    if count > 0 {
      XiphSizeSpells(body, pos);
      var (size, next) := XiphSize(body, pos).value;
      XiphSizesSpell(body, next, count - 1);
      var (sizes, end) := XiphSizes(body, next, count - 1).value;
      assert body[pos..end] == body[pos..next] + body[next..end];
      assert ([size] + sizes)[1..] == sizes;
    }
  }

  lemma {:induction false} LayLengths(body: seq<Byte>, sizes: seq<nat>, off: nat)
    requires off <= |body| && Lay(sizes, off, |body|).Some?
    ensures var r := Lay(sizes, off, |body|).value;
            && (forall i | 0 <= i < |r| :: r[i].lo <= r[i].hi <= |body|)
            && Lengths(Slices(body, r)[..|sizes|]) == sizes
  {
    hide Lay;
    LayTiles(sizes, off, |body|);
    var r := Lay(sizes, off, |body|).value;
    var lengths := Lengths(Slices(body, r)[..|sizes|]);
    assert |lengths| == |sizes| && forall i | 0 <= i < |sizes| :: lengths[i] == sizes[i];
  }

  /** A body that splits as Xiph-laced is the Xiph-laced form of what it splits into: no other body is taken for one. */
  lemma {:induction false} XiphOnly(body: seq<Byte>, start: nat)
    requires SplitRanges(body, start, Xiph).Some? && body[start] != 0
    ensures var r := SplitRanges(body, start, Xiph).value;
            && (forall i | 0 <= i < |r| :: r[i].lo <= r[i].hi <= |body|)
            && 2 <= |r| <= 256 && body[start..] == XiphBody(Slices(body, r))
  {
    hide XiphFields, XiphSizes, Lay, Slices, Lengths;
    var count: nat := body[start];
    var (sizes, off) := XiphSizes(body, start + 1, count).value;
    var r := SplitRanges(body, start, Xiph).value;
    SplitTiles(body, start, Xiph);
    XiphSizesSpell(body, start + 1, count);
    LayTiles(sizes, off, |body|);
    LayLengths(body, sizes, off);
    SlicesJoin(body, r, off);
    assert body[start..] == [body[start]] + body[start + 1..off] + body[off..];
  }

  // ---- Fixed size ----

  /** The bytes after the count divide evenly, or the body does not split. */
  lemma {:induction false} FixedSplitsExactly(body: seq<Byte>, start: nat)
    ensures SplitRanges(body, start, FixedSize).Some?
            <==> start < |body| && (|body| - start - 1) % (body[start] as int + 1) == 0
    ensures SplitRanges(body, start, FixedSize).Some? ==> SplitRanges(body, start, FixedSize).value[0].lo == start + 1
  {
    if start < |body| && body[start] != 0 {
      var total: nat, count: nat := |body| - start - 1, body[start];
      if total % (count + 1) == 0 {
        var each: nat := total / (count + 1);
        var sizes := seq<nat>(count, _ => each);
        assert each * count <= total by { SharesFit(total, count, each); }
        LayEqual(sizes, each, start + 1, |body|);
      }
    }
  }

  lemma SharesFit(total: nat, count: nat, each: nat)
    requires total % (count + 1) == 0 && each == total / (count + 1)
    ensures each * count <= total
  {
    assert total == each * (count + 1);
  }

  lemma {:induction false} LayEqual(sizes: seq<nat>, each: nat, off: nat, end: nat)
    requires (forall i | 0 <= i < |sizes| :: sizes[i] == each) && off + each * |sizes| <= end
    ensures Lay(sizes, off, end).Some? && Lay(sizes, off, end).value[0].lo == off
    decreases |sizes|
  {
    if sizes != [] {
      assert each * |sizes| == each * (|sizes| - 1) + each;
      assert each * (|sizes| - 1) >= 0;
      LayEqual(sizes[1..], each, off + each, end);
    }
  }

  // ---- One frame ----

  /** Without lacing, or with a count byte of zero in any other mode, the rest of the body is one frame. */
  lemma {:induction false} OneFrame(body: seq<Byte>, start: nat, mode: Mode)
    ensures mode == Unlaced && start <= |body| ==> SplitRanges(body, start, mode) == Some([Range(start, |body|)])
    ensures mode == Unlaced && start > |body| ==> SplitRanges(body, start, mode) == None
    ensures mode != Unlaced && start >= |body| ==> SplitRanges(body, start, mode) == None
    ensures mode != Unlaced && start < |body| && body[start] == 0 ==>
              SplitRanges(body, start, mode) == Some([Range(start + 1, |body|)])
  {
  }
}
