/** The replay ring in place: queues that grow at the back and are evicted from the front, and a running byte count. */
module Replay {
  import opened Bytes
  import opened ReplayTime
  import opened ReplaySpec

  class ReplayRing {
    var tracks: seq<Track>
    var cuts: seq<CutPoint>
    var window: nat
    var maxBytes: Option<nat>
    var bytes: int
    var newest: Option<int>

    ghost function View(): Ring
      reads this
    {
      Ring(tracks, cuts, window, maxBytes, bytes, newest)
    }

    constructor Empty(windowNanos: nat)
      ensures View() == EmptyRing(windowNanos)
    {
      tracks, cuts, window, maxBytes, bytes, newest := [], [], windowNanos, None, 0, None;
    }

    method WithMaxBytes(max: nat)
      modifies this`maxBytes
      ensures View() == old(View()).(maxBytes := Some(max))
    {
      maxBytes := Some(max);
    }

    method RegisterStream(id: nat, timebase: Rational) returns (error: Option<ReplayError>)
      modifies this`tracks
      ensures (View(), error) == AddStream(old(View()), id, timebase)
    {
      if timebase.num == 0 || timebase.den == 0 {
        return Some(BadTimebase(id, timebase.num, timebase.den));
      }
      for i := 0 to |tracks|
        invariant forall k | 0 <= k < i :: tracks[k].id != id
      {
        if tracks[i].id == id {
          return Some(DuplicateStream(id));
        }
      }
      tracks := tracks + [Track(id, timebase, [])];
      return None;
    }

    /** Checks a packet, queues it, and makes room. */
    method PushEntry(meta: PacketMeta, payload: Payload) returns (error: Option<ReplayError>)
      requires |tracks| > 0
      modifies this`tracks, this`cuts, this`bytes, this`newest
      ensures |tracks| == old(|tracks|)
      ensures (View(), error) == Push(old(View()), meta, payload)
    {
      hide Evict;
      var index := 0;
      while index < |tracks| && tracks[index].id != meta.streamId
        invariant 0 <= index <= |tracks|
        invariant PositionFrom(tracks, meta.streamId, 0) == PositionFrom(tracks, meta.streamId, index)
      {
        index := index + 1;
      }
      if index == |tracks| {
        return Some(UnknownStream(meta.streamId));
      }
      var track := tracks[index];
      if |track.entries| > 0 {
        var previous := track.entries[|track.entries| - 1].meta.dts;
        if meta.dts < previous {
          return Some(OutOfOrder(meta.streamId, previous, meta.dts));
        }
      }
      if index == 0 {
        if meta.isKeyframe {
          cuts := cuts + [CutPoint(meta.dts, meta.pts)];
        } else if |cuts| == 0 {
          return None;
        }
      }
      var at := ToNanos(meta.dts, track.timebase);
      newest := match newest case None => Some(at) case Some(n) => Some(if n >= at then n else at);
      bytes := bytes + ByteLen(payload);
      tracks := tracks[index := track.(entries := track.entries + [Entry(meta, payload)])];
      assert View() == Append(old(View()), index, meta, payload);
      EvictOld();
      return None;
    }

    /** Makes room GOP by GOP, as long as the window stays full without the oldest or the ceiling is passed. */
    method EvictOld()
      requires |tracks| > 0
      modifies this`tracks, this`cuts, this`bytes
      ensures |tracks| == old(|tracks|)
      ensures View() == Evict(old(View()))
    {
      hide EvictOne;
      if newest.None? {
        return;
      }
      while |cuts| >= 2
        invariant |tracks| == old(|tracks|) && newest == old(newest)
        invariant Evict(View()) == Evict(old(View()))
        decreases |cuts|
      {
        var next := cuts[1];
        var outOfWindow := newest.value - ToNanos(next.dts, tracks[0].timebase) >= window;
        var overBudget := maxBytes.Some? && bytes > maxBytes.value;
        if !(outOfWindow || overBudget) {
          break;
        }
        DropGop();
      }
    }

    method DropGop()
      requires |tracks| > 0 && |cuts| >= 2
      modifies this`tracks, this`cuts, this`bytes
      ensures |tracks| == old(|tracks|) && |cuts| == old(|cuts|) - 1
      ensures View() == EvictOne(old(View()))
    {
      hide TotalBytes, TrimTrack, ToNanos;
      var next := cuts[1];
      var start := ToNanos(next.pts, tracks[0].timebase);
      ghost var was, held := tracks, bytes;
      cuts := cuts[1..];
      for i := 0 to |tracks|
        invariant |tracks| == |was| && cuts == old(cuts)[1..]
        invariant forall k | 0 <= k < i :: tracks[k] == TrimTrack(was[k], k == 0, next, start)
        invariant forall k | i <= k < |tracks| :: tracks[k] == was[k]
        invariant bytes == held - (TotalBytes(was) - TotalBytes(tracks))
      {
        DropStale(i, next, start);
      }
      assert tracks == TrimAll(was, next, start);
    }

    /** Pops stale packets off the front of one track, each leaving the byte count as it goes. */
    method DropStale(i: nat, next: CutPoint, start: int)
      requires i < |tracks|
      modifies this`tracks, this`bytes
      ensures tracks == old(tracks)[i := TrimTrack(old(tracks)[i], i == 0, next, start)]
      ensures bytes == old(bytes) - (TotalBytes(old(tracks)) - TotalBytes(tracks))
    {
      hide TotalBytes, Stale;
      var tb := tracks[i].timebase;
      while |tracks[i].entries| > 0 && Stale(tracks[i].entries[0], tb, i == 0, next, start)
        invariant |tracks| == old(|tracks|) && tracks[i].timebase == tb && tracks[i].id == old(tracks)[i].id
        invariant forall k | 0 <= k < |tracks| && k != i :: tracks[k] == old(tracks)[k]
        invariant Trim(tracks[i].entries, tb, i == 0, next, start)
                  == Trim(old(tracks)[i].entries, tb, i == 0, next, start)
        invariant bytes == old(bytes) - (TotalBytes(old(tracks)) - TotalBytes(tracks))
        decreases |tracks[i].entries|
      {
        var e, track := tracks[i].entries[0], tracks[i];
        TotalUpdated(tracks, i, track.(entries := track.entries[1..]));
        tracks := tracks[i := track.(entries := track.entries[1..])];
        bytes := bytes - ByteLen(e.payload);
      }
    }

    method HeldSpan() returns (nanos: nat)
      requires |tracks| > 0
      ensures nanos == Span(View())
    {
      if |cuts| == 0 || newest.None? {
        return 0;
      }
      return ClampU64(newest.value - ToNanos(cuts[0].dts, tracks[0].timebase));
    }

    /** A view of what the ring holds from a cut on; the cut is found by bisection. */
    method TakeClip(span: nat) returns (clip: Option<Clip>)
      requires |tracks| > 0 && CutsSorted(cuts)
      ensures clip == ClipLast(View(), span)
    {
      hide CutsUpTo;
      if newest.None? {
        return None;
      }
      var tb := tracks[0].timebase;
      var later := CutPartition(cuts, tb, newest.value - span);
      var at := if later == 0 then 0 else later - 1;
      if at >= |cuts| {
        return None;
      }
      return Some(Clip(tracks, newest, cuts[at], ToNanos(cuts[at].dts, tb)));
    }

    /** Every payload in the queues, track after track, front to back. */
    method Payloads() returns (held: seq<Payload>)
      ensures held == PayloadsOf(tracks)
    {
      held := [];
      assert tracks[..|tracks|] == tracks;
      for i := 0 to |tracks|
        invariant held == PayloadsOf(tracks[..i])
      {
        assert tracks[..i + 1][..i] == tracks[..i];
        var entries := tracks[i].entries;
        held := held + seq(|entries|, j requires 0 <= j < |entries| => entries[j].payload);
      }
    }
  }

  /** A ring that holds the anchor stream, unless its timebase is degenerate. */
  method ForPayload(anchor: nat, timebase: Rational, windowNanos: nat)
    returns (ring: ReplayRing, error: Option<ReplayError>)
    ensures fresh(ring) && (ring.View(), error) == AddStream(EmptyRing(windowNanos), anchor, timebase)
  {
    ring := new ReplayRing.Empty(windowNanos);
    error := ring.RegisterStream(anchor, timebase);
  }

  /** How many cuts decode at or before `target`, by bisection. */
  method CutPartition(cuts: seq<CutPoint>, tb: Timebase, target: int) returns (n: nat)
    requires CutsSorted(cuts)
    ensures n == CutsUpTo(cuts, tb, target)
  {
    hide ToNanos, CutsUpTo;
    var lo, hi := 0, |cuts|;
    while lo < hi
      invariant 0 <= lo <= hi <= |cuts|
      invariant lo > 0 ==> ToNanos(cuts[lo - 1].dts, tb) <= target
      invariant hi < |cuts| ==> ToNanos(cuts[hi].dts, tb) > target
    {
      var mid := (lo + hi) / 2;
      if ToNanos(cuts[mid].dts, tb) <= target {
        lo := mid + 1;
      } else {
        hi := mid;
      }
    }
    n := lo;
    CutBoundary(cuts, tb, target, n);
  }

  lemma CutBoundary(cuts: seq<CutPoint>, tb: Timebase, target: int, n: nat)
    requires CutsSorted(cuts) && n <= |cuts|
    requires n > 0 ==> ToNanos(cuts[n - 1].dts, tb) <= target
    requires n < |cuts| ==> ToNanos(cuts[n].dts, tb) > target
    ensures n == CutsUpTo(cuts, tb, target)
  {
    hide ToNanos, CutsUpTo;
    var m := CutsUpTo(cuts, tb, target);
    if m < n {
      NanosMonotone(cuts[m].dts, cuts[n - 1].dts, tb);
    }
  }

  function PayloadsOf(tracks: seq<Track>): seq<Payload>
  {
    if tracks == [] then []
    else
      var entries := tracks[|tracks| - 1].entries;
      PayloadsOf(tracks[..|tracks| - 1]) + seq(|entries|, j requires 0 <= j < |entries| => entries[j].payload)
  }
}
