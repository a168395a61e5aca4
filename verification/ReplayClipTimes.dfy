/** The times a clip hands out and reports, against the packets and cuts it was taken from. */
module ReplayClipTimes {
  import opened Bytes
  import opened ReplayTime
  import opened ReplaySpec
  import opened ReplayClip
  import opened ReplayInvariant
  import opened ReplayMerge
  import opened Replay

  // ---- Rebasing ----

  /** What a clip may not change of a packet; its two times move together. */
  predicate SamePacket(e: Entry, p: ClipPacket)
  {
    && p.streamId == e.meta.streamId && p.duration == e.meta.duration && p.payload == e.payload
    && p.isKeyframe == e.meta.isKeyframe && p.isDiscard == e.meta.isDiscard
    && p.pts - p.dts == e.meta.pts - e.meta.dts
  }

  /**
   `back` ticks are `nanos` nanoseconds to within half a tick, the later tick when two are as near, or the end of the
   64-bit range that is nearer.
   */
  predicate ClosestTick(back: int, nanos: int, tb: Timebase)
  {
    var tick, at := tb.num * 1_000_000_000, nanos * tb.den;
    && -0x8000_0000_0000_0000 <= back <= 0x7fff_ffff_ffff_ffff
    && (back > -0x8000_0000_0000_0000 ==> 2 * (back * tick - at) <= tick)
    && (back < 0x7fff_ffff_ffff_ffff ==> 2 * (at - back * tick) < tick)
  }

  lemma TicksAreClosest(nanos: int, tb: Timebase)
    ensures ClosestTick(ToTicks(nanos, tb), nanos, tb)
  {
    hide NearestTicks;
    NearestIsClosest(nanos, tb);
    var s, n, at := Scale(tb), NearestTicks(nanos, tb), nanos * tb.den;
    if n < -I64_LIMIT {
      MulMonotone(n + 1, -I64_LIMIT, s);
    } else if n >= I64_LIMIT {
      MulMonotone(I64_LIMIT, n, s);
    }
  }

  lemma NearestIsClosest(nanos: int, tb: Timebase)
    ensures var err := NearestTicks(nanos, tb) * Scale(tb) - nanos * tb.den; -Scale(tb) < 2 * err <= Scale(tb)
  {
    var s := Scale(tb);
    var v := nanos * tb.den + s / 2;
    assert v == (v / s) * s + v % s;
  }

  lemma {:induction false} OneTickIsClosest(a: int, b: int, nanos: int, tb: Timebase)
    requires ClosestTick(a, nanos, tb) && ClosestTick(b, nanos, tb)
    ensures a == b
  {
    var tick := tb.num * 1_000_000_000;
    assert tick > 0;
    if a < b {
      MulMonotone(a + 1, b, tick);
    } else if b < a {
      MulMonotone(b + 1, a, tick);
    }
  }

  lemma RebasedTimes(c: Clip, item: Item)
    requires item.track < |c.tracks|
    ensures var e, p := item.entry, Rebased(c, item);
            && SamePacket(e, p)
            && (item.track == 0 ==> p.dts + c.cut.dts == e.meta.dts)
            && (item.track > 0 ==> ClosestTick(e.meta.dts - p.dts, c.origin, c.tracks[item.track].timebase))
  {
    hide ToTicks, ClosestTick;
    if item.track > 0 {
      TicksAreClosest(c.origin, c.tracks[item.track].timebase);
    }
  }

  /**
   Packet by packet, a clip hands out its items with only their times moved: the anchor's back by the cut's decode time,
   every other stream's by the tick of its own that is closest to the clip's origin.
   */
  lemma {:induction false} OutputRebasesItems(c: Clip, k: nat)
    requires k < |Items(c)|
    ensures |Output(c)| == |Items(c)|
    ensures var item, p := Items(c)[k], Output(c)[k];
            && item.track < |c.tracks| && SamePacket(item.entry, p)
            && (item.track == 0 ==> p.dts + c.cut.dts == item.entry.meta.dts)
            && (item.track > 0 ==>
                  ClosestTick(item.entry.meta.dts - p.dts, c.origin, c.tracks[item.track].timebase))
  {
    hide Items, Rebased, ClosestTick;
    RebasedTimes(c, Items(c)[k]);
  }

  // ---- Nanoseconds ----

  /** A tick's nanoseconds: the whole ones that have passed, a negative tick's rounded down like any other. */
  lemma NanosAreFloor(ticks: int, tb: Timebase)
    ensures var n, at := ToNanos(ticks, tb), ticks * (tb.num * 1_000_000_000); n * tb.den <= at < n * tb.den + tb.den
  {
    var v := ticks * Scale(tb);
    assert v == (v / tb.den) * tb.den + v % tb.den;
  }

  // ---- Span and duration ----

  /** The span is the distance of the newest decode time from the oldest cut, which is never negative. */
  lemma {:induction false} SpanMeasured(r: Ring)
    requires Invariant(r)
    ensures r.tracks != []
    ensures r.cuts == [] ==> Span(r) == 0
    ensures r.cuts != [] ==>
              && r.newest.Some?
              && var far := r.newest.value - ToNanos(r.cuts[0].dts, r.tracks[0].timebase);
                 far >= 0 && Span(r) == if far <= 0xffff_ffff_ffff_ffff then far else 0xffff_ffff_ffff_ffff
  {
    hide ToNanos, TotalBytes;
    if r.cuts != [] {
      FrontCut(r);
    }
  }

  /** Whatever the ring or clip, a negative distance counts as none and a long one as the longest of 64 bits. */
  lemma {:induction false} DistancesAreClamped(r: Ring, c: Clip)
    requires r.tracks != [] && r.cuts != [] && r.newest.Some? && c.newest.Some?
    ensures var far := r.newest.value - ToNanos(r.cuts[0].dts, r.tracks[0].timebase);
            Span(r) == if far < 0 then 0 else if far > 0xffff_ffff_ffff_ffff then 0xffff_ffff_ffff_ffff else far
    ensures var far := c.newest.value - c.origin;
            Duration(c) == if far < 0 then 0 else if far > 0xffff_ffff_ffff_ffff then 0xffff_ffff_ffff_ffff else far
  {
    hide ToNanos;
  }

  /** The duration of a clip is the distance of the newest decode time from the cut it starts at. */
  lemma {:induction false} DurationMeasured(r: Ring, d: nat)
    requires Invariant(r) && r.cuts != []
    ensures ClipLast(r, d).Some? && r.newest.Some?
    ensures var c := ClipLast(r, d).value;
            var far := r.newest.value - ToNanos(c.cut.dts, r.tracks[0].timebase);
            far >= 0 && Duration(c) == if far <= 0xffff_ffff_ffff_ffff then far else 0xffff_ffff_ffff_ffff
  {
    hide ToNanos, TotalBytes;
    CutChosen(r, d);
    FrontCut(r);
  }

  // ---- Payloads ----

  function QueuedUpTo(tracks: seq<Track>, n: nat): nat
    requires n <= |tracks|
  {
    if n == 0 then 0 else QueuedUpTo(tracks, n - 1) + |tracks[n - 1].entries|
  }

  /** Payloads are listed one for each packet, stream after stream and oldest first. */
  lemma {:induction false} PayloadsInOrder(tracks: seq<Track>, i: nat, k: nat)
    requires i < |tracks| && k < |tracks[i].entries|
    ensures var at := QueuedUpTo(tracks, i) + k;
            && at < |PayloadsOf(tracks)| == QueuedUpTo(tracks, |tracks|)
            && PayloadsOf(tracks)[at] == tracks[i].entries[k].payload
  {
    var front := tracks[..|tracks| - 1];
    PayloadsCounted(front);
    QueuedFront(tracks, |tracks| - 1);
    if i < |tracks| - 1 {
      PayloadsInOrder(front, i, k);
      QueuedFront(tracks, i);
    }
  }

  lemma {:induction false} QueuedFront(tracks: seq<Track>, n: nat)
    requires n < |tracks|
    ensures QueuedUpTo(tracks[..|tracks| - 1], n) == QueuedUpTo(tracks, n)
  {
    if n > 0 {
      QueuedFront(tracks, n - 1);
    }
  }

  lemma {:induction false} PayloadsCounted(tracks: seq<Track>)
    ensures |PayloadsOf(tracks)| == QueuedUpTo(tracks, |tracks|)
  {
    if tracks != [] {
      PayloadsCounted(tracks[..|tracks| - 1]);
      QueuedFront(tracks, |tracks| - 1);
    }
  }
}
