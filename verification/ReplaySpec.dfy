/** The replay ring as a pure machine: packets of several streams, cut points of the anchor stream, eviction. */
module ReplaySpec {
  import opened Bytes
  import opened ReplayTime

  datatype PacketMeta = PacketMeta(
    streamId: nat, pts: I64, dts: I64, duration: nat, isKeyframe: bool, isDiscard: bool)

  /** A payload is bytes in memory or a place in a file that the ring never opens. */
  datatype Payload = Held(data: seq<Byte>) | Stored(file: nat, offset: nat, len: nat)

  function ByteLen(p: Payload): nat
  {
    match p case Held(data) => |data| case Stored(_, _, len) => len
  }

  datatype Entry = Entry(meta: PacketMeta, payload: Payload)

  datatype Track = Track(id: nat, timebase: Timebase, entries: seq<Entry>)

  /** Both times of an anchor keyframe, at which clips can be cut. */
  datatype CutPoint = CutPoint(dts: I64, pts: I64)

  /** The first track is the anchor's. */
  datatype Ring = Ring(
    tracks: seq<Track>, cuts: seq<CutPoint>, window: nat, maxBytes: Option<nat>, bytes: int, newest: Option<int>)

  datatype ReplayError =
    | UnknownStream(id: nat)
    | DuplicateStream(id: nat)
    | BadTimebase(id: nat, num: nat, den: nat)
    | OutOfOrder(id: nat, previous: int, got: int)

  // ---- Registration ----

  predicate HasStream(tracks: seq<Track>, id: nat)
  {
    exists i | 0 <= i < |tracks| :: tracks[i].id == id
  }

  function AddStream(r: Ring, id: nat, tb: Rational): (Ring, Option<ReplayError>)
  {
    if tb.num == 0 || tb.den == 0 then (r, Some(BadTimebase(id, tb.num, tb.den)))
    else if HasStream(r.tracks, id) then (r, Some(DuplicateStream(id)))
    else (r.(tracks := r.tracks + [Track(id, tb, [])]), None)
  }

  function EmptyRing(window: nat): Ring
  {
    Ring([], [], window, None, 0, None)
  }

  // ---- Pushing ----

  /** The first track with this ID, or the number of tracks. */
  function PositionFrom(tracks: seq<Track>, id: nat, i: nat): (r: nat)
    requires i <= |tracks|
    ensures i <= r <= |tracks|
    ensures r < |tracks| ==> tracks[r].id == id
    ensures forall k | i <= k < r :: tracks[k].id != id
    decreases |tracks| - i
  {
    if i == |tracks| || tracks[i].id == id then i else PositionFrom(tracks, id, i + 1)
  }

  predicate Behind(entries: seq<Entry>, dts: int)
  {
    entries != [] && dts < entries[|entries| - 1].meta.dts
  }

  function Newer(newest: Option<int>, at: int): Option<int>
  {
    match newest case None => Some(at) case Some(n) => Some(if n >= at then n else at)
  }

  /** The cut list after a packet: only the anchor's keyframes lengthen it. */
  function Cuts(r: Ring, index: nat, meta: PacketMeta): seq<CutPoint>
  {
    if index == 0 && meta.isKeyframe then r.cuts + [CutPoint(meta.dts, meta.pts)] else r.cuts
  }

  /** The packet added at the end of its track, nothing evicted. */
  function Append(r: Ring, index: nat, meta: PacketMeta, payload: Payload): Ring
    requires index < |r.tracks|
  {
    var t := r.tracks[index];
    r.(tracks := r.tracks[index := t.(entries := t.entries + [Entry(meta, payload)])],
       cuts := Cuts(r, index, meta), bytes := r.bytes + ByteLen(payload),
       newest := Newer(r.newest, ToNanos(meta.dts, t.timebase)))
  }

  /** An anchor packet is wasted while there is no cut that a clip with it could start at. */
  predicate Useless(r: Ring, index: nat, meta: PacketMeta)
  {
    index == 0 && !meta.isKeyframe && r.cuts == []
  }

  datatype Admission = Refused(error: ReplayError) | Ignored | Admitted(index: nat)

  function Admit(r: Ring, meta: PacketMeta): (a: Admission)
    ensures a.Admitted? ==> a.index < |r.tracks|
  {
    var index := PositionFrom(r.tracks, meta.streamId, 0);
    if index == |r.tracks| then Refused(UnknownStream(meta.streamId))
    else
      var entries := r.tracks[index].entries;
      if Behind(entries, meta.dts) then
        Refused(OutOfOrder(meta.streamId, entries[|entries| - 1].meta.dts, meta.dts))
      else if Useless(r, index, meta) then Ignored
      else Admitted(index)
  }

  function Push(r: Ring, meta: PacketMeta, payload: Payload): (Ring, Option<ReplayError>)
    requires |r.tracks| > 0
  {
    match Admit(r, meta)
    case Refused(error) => (r, Some(error))
    case Ignored => (r, None)
    case Admitted(index) => (Evict(Append(r, index, meta, payload)), None)
  }

  // ---- Eviction ----

  /** Whether a cut at `next` leaves this packet behind: by decode time on the anchor, by presentation elsewhere. */
  predicate Stale(e: Entry, tb: Timebase, anchor: bool, next: CutPoint, start: int)
  {
    if anchor then e.meta.dts < next.dts else ToNanos(e.meta.pts, tb) < start
  }

  function Trim(entries: seq<Entry>, tb: Timebase, anchor: bool, next: CutPoint, start: int): (r: seq<Entry>)
    ensures |r| <= |entries| && r == entries[|entries| - |r|..]
    ensures forall k | 0 <= k < |entries| - |r| :: Stale(entries[k], tb, anchor, next, start)
    ensures r != [] ==> !Stale(r[0], tb, anchor, next, start)
  {
    hide Stale;
    if entries != [] && Stale(entries[0], tb, anchor, next, start)
    then Trim(entries[1..], tb, anchor, next, start) else entries
  }

  function TrimTrack(t: Track, anchor: bool, next: CutPoint, start: int): Track
  {
    t.(entries := Trim(t.entries, t.timebase, anchor, next, start))
  }

  function TrimAll(tracks: seq<Track>, next: CutPoint, start: int): (r: seq<Track>)
    ensures |r| == |tracks|
  {
    seq(|tracks|, i requires 0 <= i < |tracks| => TrimTrack(tracks[i], i == 0, next, start))
  }

  function SumBytes(entries: seq<Entry>): nat
  {
    if entries == [] then 0 else ByteLen(entries[0].payload) + SumBytes(entries[1..])
  }

  function TotalBytes(tracks: seq<Track>): nat
  {
    if tracks == [] then 0 else SumBytes(tracks[0].entries) + TotalBytes(tracks[1..])
  }

  lemma {:induction false} TotalUpdated(tracks: seq<Track>, i: nat, t: Track)
    requires i < |tracks|
    ensures TotalBytes(tracks[i := t]) == TotalBytes(tracks) - SumBytes(tracks[i].entries) + SumBytes(t.entries)
    decreases i
  {
    hide SumBytes;
    if i > 0 {
      assert tracks[i := t][1..] == tracks[1..][i - 1 := t];
      TotalUpdated(tracks[1..], i - 1, t);
    } else {
      assert tracks[i := t][1..] == tracks[1..];
    }
  }

  /** The oldest GOP goes: its cut point, its anchor packets, and what other streams present before the next cut. */
  function EvictOne(r: Ring): Ring
    requires |r.tracks| > 0 && |r.cuts| >= 2
  {
    var next := r.cuts[1];
    var tracks := TrimAll(r.tracks, next, ToNanos(next.pts, r.tracks[0].timebase));
    r.(cuts := r.cuts[1..], tracks := tracks, bytes := r.bytes - (TotalBytes(r.tracks) - TotalBytes(tracks)))
  }

  predicate OutOfWindow(r: Ring, cut: CutPoint)
    requires |r.tracks| > 0
  {
    r.newest.Some? && r.newest.value - ToNanos(cut.dts, r.tracks[0].timebase) >= r.window
  }

  predicate OverBudget(r: Ring)
  {
    r.maxBytes.Some? && r.bytes > r.maxBytes.value
  }

  predicate MustEvict(r: Ring)
    requires |r.tracks| > 0
  {
    r.newest.Some? && |r.cuts| >= 2 && (OutOfWindow(r, r.cuts[1]) || OverBudget(r))
  }

  function Evict(r: Ring): Ring
    requires |r.tracks| > 0
    decreases |r.cuts|
  {
    if MustEvict(r) then Evict(EvictOne(r)) else r
  }

  // ---- Looking back ----

  function ClampU64(v: int): nat
  {
    if v < 0 then 0 else if v >= U64_LIMIT then U64_LIMIT - 1 else v
  }

  /** The length of the longest clip to be had, zero while there is no cut. */
  function Span(r: Ring): nat
    requires |r.tracks| > 0
  {
    if r.cuts == [] || r.newest.None? then 0
    else ClampU64(r.newest.value - ToNanos(r.cuts[0].dts, r.tracks[0].timebase))
  }

  datatype Clip = Clip(tracks: seq<Track>, newest: Option<int>, cut: CutPoint, origin: int)

  /** How many cuts, from the oldest on, decode at or before `target`. */
  function CutsUpTo(cuts: seq<CutPoint>, tb: Timebase, target: int): (n: nat)
    ensures n <= |cuts|
    ensures forall k | 0 <= k < n :: ToNanos(cuts[k].dts, tb) <= target
    ensures n < |cuts| ==> ToNanos(cuts[n].dts, tb) > target
  {
    if cuts == [] || ToNanos(cuts[0].dts, tb) > target then 0 else 1 + CutsUpTo(cuts[1..], tb, target)
  }

  predicate CutsSorted(cuts: seq<CutPoint>)
  {
    forall i, j | 0 <= i < j < |cuts| :: cuts[i].dts <= cuts[j].dts
  }

  /** Starts at the last cut that is at least `span` old, and at the front cut when none is. */
  function ClipLast(r: Ring, span: nat): Option<Clip>
    requires |r.tracks| > 0
  {
    if r.newest.None? then None
    else
      var tb := r.tracks[0].timebase;
      var later := CutsUpTo(r.cuts, tb, r.newest.value - span);
      var at := if later == 0 then 0 else later - 1;
      if at >= |r.cuts| then None
      else Some(Clip(r.tracks, r.newest, r.cuts[at], ToNanos(r.cuts[at].dts, tb)))
  }

  function Duration(c: Clip): nat
  {
    ClampU64((match c.newest case None => c.origin case Some(n) => n) - c.origin)
  }
}
