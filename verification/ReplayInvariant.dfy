/** What every run of the replay ring keeps. */
module ReplayInvariant {
  import opened Bytes
  import opened ReplayTime
  import opened ReplaySpec
  import opened ReplayClip

  // ---- The invariant ----

  predicate DistinctIds(tracks: seq<Track>)
  {
    forall i, j | 0 <= i < j < |tracks| :: tracks[i].id != tracks[j].id
  }

  predicate IsCut(e: Entry, cut: CutPoint)
  {
    e.meta.dts == cut.dts && e.meta.pts == cut.pts && e.meta.isKeyframe
  }

  /** The cut's keyframe is among the entries. */
  predicate Holds(entries: seq<Entry>, cut: CutPoint)
  {
    exists k | 0 <= k < |entries| :: IsCut(entries[k], cut)
  }

  /** Every cut point's keyframe is held, and nothing of the anchor is older than the oldest cut. */
  predicate CutsHeld(entries: seq<Entry>, cuts: seq<CutPoint>)
  {
    && (forall i | 0 <= i < |cuts| :: Holds(entries, cuts[i]))
    && (cuts == [] ==> entries == [])
    && (forall k | 0 <= k < |entries| :: cuts[0].dts <= entries[k].meta.dts)
  }

  predicate NotNewer(t: Track, newest: Option<int>)
  {
    forall k | 0 <= k < |t.entries| :: newest.Some? && ToNanos(t.entries[k].meta.dts, t.timebase) <= newest.value
  }

  predicate TrackOk(t: Track, newest: Option<int>)
  {
    Sorted(t.entries) && NotNewer(t, newest)
  }

  ghost predicate Invariant(r: Ring)
  {
    && r.tracks != []
    && DistinctIds(r.tracks)
    && r.bytes == TotalBytes(r.tracks)
    && (forall i | 0 <= i < |r.tracks| :: TrackOk(r.tracks[i], r.newest))
    && CutsSorted(r.cuts)
    && CutsHeld(r.tracks[0].entries, r.cuts)
  }

  /** The front cut is where the anchor's queue begins. */
  lemma FrontCut(r: Ring)
    requires Invariant(r) && r.cuts != []
    ensures r.tracks[0].entries != [] && r.tracks[0].entries[0].meta.dts == r.cuts[0].dts
    ensures r.newest.Some?
            && forall i | 0 <= i < |r.cuts| :: ToNanos(r.cuts[i].dts, r.tracks[0].timebase) <= r.newest.value
  {
    hide ToNanos;
    assert TrackOk(r.tracks[0], r.newest);
    assert Holds(r.tracks[0].entries, r.cuts[0]);
    forall i | 0 <= i < |r.cuts|
      ensures r.newest.Some? && ToNanos(r.cuts[i].dts, r.tracks[0].timebase) <= r.newest.value
    {
      assert Holds(r.tracks[0].entries, r.cuts[i]);
    }
  }

  // ---- Appending ----

  lemma NewerIsAhead(t: Track, newest: Option<int>, at: int)
    requires NotNewer(t, newest)
    ensures NotNewer(t, Newer(newest, at))
  {
    hide ToNanos;
  }

  lemma AppendedOk(t: Track, newest: Option<int>, e: Entry)
    requires TrackOk(t, newest) && !Behind(t.entries, e.meta.dts)
    ensures TrackOk(t.(entries := t.entries + [e]), Newer(newest, ToNanos(e.meta.dts, t.timebase)))
  {
    hide ToNanos;
  }

  lemma HeldStays(entries: seq<Entry>, cuts: seq<CutPoint>, e: Entry)
    requires forall i | 0 <= i < |cuts| :: Holds(entries, cuts[i])
    ensures forall i | 0 <= i < |cuts| :: Holds(entries + [e], cuts[i])
  {
    forall i | 0 <= i < |cuts|
      ensures Holds(entries + [e], cuts[i])
    {
      assert Holds(entries, cuts[i]);
      var k :| 0 <= k < |entries| && IsCut(entries[k], cuts[i]);
      assert IsCut((entries + [e])[k], cuts[i]);
    }
  }

  /** An admitted anchor packet keeps the cuts held and sorted. */
  lemma AnchorAppended(entries: seq<Entry>, cuts: seq<CutPoint>, e: Entry)
    requires CutsHeld(entries, cuts) && CutsSorted(cuts) && Sorted(entries) && !Behind(entries, e.meta.dts)
    requires e.meta.isKeyframe || cuts != []
    ensures var after := if e.meta.isKeyframe then cuts + [CutPoint(e.meta.dts, e.meta.pts)] else cuts;
            CutsHeld(entries + [e], after) && CutsSorted(after)
  {
    hide Holds, Sorted, Behind;
    HeldStays(entries, cuts, e);
    CutsNotAfter(entries, cuts, e.meta.dts);
    if e.meta.isKeyframe {
      NewCutHeld(entries, e);
    }
  }

  lemma NewCutHeld(entries: seq<Entry>, e: Entry)
    requires e.meta.isKeyframe
    ensures Holds(entries + [e], CutPoint(e.meta.dts, e.meta.pts))
  {
    assert IsCut((entries + [e])[|entries|], CutPoint(e.meta.dts, e.meta.pts));
  }

  lemma CutsNotAfter(entries: seq<Entry>, cuts: seq<CutPoint>, dts: int)
    requires CutsHeld(entries, cuts) && Sorted(entries) && !Behind(entries, dts)
    ensures forall i | 0 <= i < |cuts| :: cuts[i].dts <= dts
  {
    forall i | 0 <= i < |cuts|
      ensures cuts[i].dts <= dts
    {
      var k :| 0 <= k < |entries| && IsCut(entries[k], cuts[i]);
      assert entries[k].meta.dts <= entries[|entries| - 1].meta.dts;
    }
  }

  lemma {:induction false} SumAppended(entries: seq<Entry>, e: Entry)
    ensures SumBytes(entries + [e]) == SumBytes(entries) + ByteLen(e.payload)
  {
    if entries != [] {
      assert (entries + [e])[1..] == entries[1..] + [e];
      SumAppended(entries[1..], e);
    } else {
      assert ([] + [e])[1..] == [];
    }
  }

  lemma AppendKeeps(r: Ring, meta: PacketMeta, payload: Payload)
    requires Invariant(r) && Admit(r, meta).Admitted?
    ensures Invariant(Append(r, Admit(r, meta).index, meta, payload))
  {
    hide ToNanos, TotalBytes, SumBytes, TrackOk, CutsHeld, CutsSorted;
    var index := Admit(r, meta).index;
    var after, e, t := Append(r, index, meta, payload), Entry(meta, payload), r.tracks[index];
    SumAppended(t.entries, e);
    TotalUpdated(r.tracks, index, t.(entries := t.entries + [e]));
    AppendedOk(t, r.newest, e);
    forall i | 0 <= i < |r.tracks|
      ensures TrackOk(after.tracks[i], after.newest)
    {
      if i != index {
        OthersStayOk(r.tracks[i], r.newest, ToNanos(meta.dts, t.timebase));
      }
    }
    if index == 0 {
      OkIsSorted(t, r.newest);
      AnchorAppended(t.entries, r.cuts, e);
    }
  }

  lemma OthersStayOk(t: Track, newest: Option<int>, at: int)
    requires TrackOk(t, newest)
    ensures TrackOk(t, Newer(newest, at))
  {
    NewerIsAhead(t, newest, at);
  }

  lemma OkIsSorted(t: Track, newest: Option<int>)
    requires TrackOk(t, newest)
    ensures Sorted(t.entries)
  {
  }

  // ---- Evicting ----

  lemma TrimmedOk(t: Track, newest: Option<int>, anchor: bool, next: CutPoint, start: int)
    requires TrackOk(t, newest)
    ensures TrackOk(TrimTrack(t, anchor, next, start), newest)
  {
    hide ToNanos, Stale;
  }

  lemma HeldAfterTrim(t: Track, cut: CutPoint, next: CutPoint, start: int)
    requires Holds(t.entries, cut) && next.dts <= cut.dts
    ensures Holds(Trim(t.entries, t.timebase, true, next, start), cut)
  {
    hide ToNanos, Trim;
    var kept := Trim(t.entries, t.timebase, true, next, start);
    var gone := |t.entries| - |kept|;
    var k :| 0 <= k < |t.entries| && IsCut(t.entries[k], cut);
    assert k < gone ==> Stale(t.entries[k], t.timebase, true, next, start);
    assert IsCut(kept[k - gone], cut);
  }

  /** Trimming the anchor to the second cut keeps every later cut's keyframe. */
  lemma AnchorTrimmed(t: Track, cuts: seq<CutPoint>, start: int)
    requires CutsHeld(t.entries, cuts) && CutsSorted(cuts) && Sorted(t.entries) && |cuts| >= 2
    ensures CutsHeld(TrimTrack(t, true, cuts[1], start).entries, cuts[1..]) && CutsSorted(cuts[1..])
  {
    hide ToNanos, Trim, Holds;
    var kept := Trim(t.entries, t.timebase, true, cuts[1], start);
    forall i | 0 <= i < |cuts[1..]|
      ensures Holds(kept, cuts[1..][i])
    {
      assert cuts[1].dts <= cuts[i + 1].dts;
      HeldAfterTrim(t, cuts[i + 1], cuts[1], start);
    }
    forall k | 0 <= k < |kept|
      ensures cuts[1].dts <= kept[k].meta.dts
    {
      assert kept[0].meta.dts <= kept[k].meta.dts;
    }
  }

  lemma EvictOneKeeps(r: Ring)
    requires Invariant(r) && |r.cuts| >= 2
    ensures Invariant(EvictOne(r))
  {
    hide ToNanos, TotalBytes, TrackOk, CutsHeld, CutsSorted, TrimTrack;
    var start := ToNanos(r.cuts[1].pts, r.tracks[0].timebase);
    var after := EvictOne(r);
    forall i | 0 <= i < |r.tracks|
      ensures TrackOk(after.tracks[i], r.newest) && after.tracks[i].id == r.tracks[i].id
    {
      TrimmedOk(r.tracks[i], r.newest, i == 0, r.cuts[1], start);
      TrimKeepsId(r.tracks[i], i == 0, r.cuts[1], start);
    }
    OkIsSorted(r.tracks[0], r.newest);
    AnchorTrimmed(r.tracks[0], r.cuts, start);
  }

  lemma TrimKeepsId(t: Track, anchor: bool, next: CutPoint, start: int)
    ensures var u := TrimTrack(t, anchor, next, start); u.id == t.id && u.timebase == t.timebase
  {
  }

  /** After eviction the second cut, if any, is inside the window and the ceiling holds unless one cut is left. */
  lemma {:induction false} EvictKeeps(r: Ring)
    requires Invariant(r)
    ensures r.tracks != [] && Evict(r).tracks != [] && Invariant(Evict(r)) && !MustEvict(Evict(r))
    ensures Evict(r).newest == r.newest && Evict(r).window == r.window && Evict(r).maxBytes == r.maxBytes
    decreases |r.cuts|
  {
    hide EvictOne, Invariant;
    InvariantHasTracks(r);
    if MustEvict(r) {
      EvictOneKeeps(r);
      EvictOneSettings(r);
      EvictKeeps(EvictOne(r));
    }
  }

  lemma EvictOneSettings(r: Ring)
    requires |r.tracks| > 0 && |r.cuts| >= 2
    ensures var e := EvictOne(r);
            && e.tracks != [] && |e.cuts| == |r.cuts| - 1
            && e.newest == r.newest && e.window == r.window && e.maxBytes == r.maxBytes
  {
  }

  // ---- Whole runs ----

  datatype RingOp =
    | AddOp(id: nat, timebase: Rational)
    | CeilingOp(max: nat)
    | PushOp(meta: PacketMeta, payload: Payload)

  function Step(r: Ring, op: RingOp): (Ring, Option<ReplayError>)
    requires |r.tracks| > 0
  {
    match op
    case AddOp(id, tb) => AddStream(r, id, tb)
    case CeilingOp(max) => (r.(maxBytes := Some(max)), None)
    case PushOp(meta, payload) => Push(r, meta, payload)
  }

  function Fresh(window: nat, anchor: nat, tb: Timebase): Ring
  {
    AddStream(EmptyRing(window), anchor, tb).0
  }

  lemma FreshKeeps(window: nat, anchor: nat, tb: Timebase)
    ensures Invariant(Fresh(window, anchor, tb))
  {
    var r := Fresh(window, anchor, tb);
    assert r.tracks == [Track(anchor, tb, [])];
    assert r.tracks[1..] == [];
  }

  lemma PushKeeps(r: Ring, meta: PacketMeta, payload: Payload)
    requires Invariant(r)
    ensures Invariant(Push(r, meta, payload).0)
  {
    hide Invariant, Evict, Append;
    assert r.tracks != [] by { InvariantHasTracks(r); }
    if Admit(r, meta).Admitted? {
      AppendKeeps(r, meta, payload);
      EvictKeeps(Append(r, Admit(r, meta).index, meta, payload));
    }
  }

  lemma InvariantHasTracks(r: Ring)
    requires Invariant(r)
    ensures r.tracks != []
  {
  }

  lemma {:induction false} TotalExtended(tracks: seq<Track>, t: Track)
    ensures TotalBytes(tracks + [t]) == TotalBytes(tracks) + SumBytes(t.entries)
  {
    if tracks == [] {
      assert ([] + [t])[1..] == [];
    } else {
      assert (tracks + [t])[1..] == tracks[1..] + [t];
      TotalExtended(tracks[1..], t);
    }
  }

  lemma AddKeeps(r: Ring, id: nat, tb: Rational)
    requires Invariant(r)
    ensures Invariant(AddStream(r, id, tb).0)
  {
    hide ToNanos, TotalBytes, CutsHeld;
    if AddStream(r, id, tb).1.None? {
      TotalExtended(r.tracks, Track(id, tb, []));
    }
  }

  lemma {:induction false} StepKeeps(r: Ring, op: RingOp)
    requires Invariant(r)
    ensures Step(r, op).0.tracks != [] && Invariant(Step(r, op).0)
  {
    hide Push, AddStream;
    match op
    case AddOp(id, tb) => AddKeeps(r, id, tb);
    case CeilingOp(_) =>
    case PushOp(meta, payload) => PushKeeps(r, meta, payload);
  }

  /** The ring after a run of operations, refused ones included. */
  ghost function RunRing(window: nat, anchor: nat, tb: Timebase, ops: seq<RingOp>): (r: Ring)
    ensures r.tracks != [] && Invariant(r)
  {
    if ops == [] then
      FreshKeeps(window, anchor, tb);
      InvariantHasTracks(Fresh(window, anchor, tb));
      Fresh(window, anchor, tb)
    else
      var before := RunRing(window, anchor, tb, ops[..|ops| - 1]);
      StepKeeps(before, ops[|ops| - 1]);
      Step(before, ops[|ops| - 1]).0
  }

  /** Every cut but the oldest is inside the window, and the ceiling holds unless a single cut is left. */
  predicate Settled(r: Ring)
    requires r.tracks != []
  {
    (forall i | 1 <= i < |r.cuts| :: !OutOfWindow(r, r.cuts[i])) && (OverBudget(r) ==> |r.cuts| <= 1)
  }

  /**
   After any run the byte count is the sum of the held payloads, every queue and the cut list are in decode order, and
   the oldest cut is where the anchor's queue begins; and the next successful push leaves the ring settled.
   */
  lemma {:induction false} RunKeeps(
    window: nat, anchor: nat, tb: Timebase, ops: seq<RingOp>, meta: PacketMeta, payload: Payload)
    ensures var r := RunRing(window, anchor, tb, ops);
            && r.bytes == TotalBytes(r.tracks)
            && (forall i | 0 <= i < |r.tracks| :: Sorted(r.tracks[i].entries))
            && CutsSorted(r.cuts)
            && (r.cuts != [] ==> r.tracks[0].entries != [] && r.tracks[0].entries[0].meta.dts == r.cuts[0].dts)
            && (r.cuts == [] ==> r.tracks[0].entries == [])
            && (Admit(r, meta).Admitted? ==>
                  Push(r, meta, payload).0.tracks != [] && Settled(Push(r, meta, payload).0))
  {
    hide Push, Admit, RunRing, ToNanos, CutsSorted, TotalBytes;
    var r := RunRing(window, anchor, tb, ops);
    if r.cuts != [] {
      FrontCut(r);
    }
    assert forall i | 0 <= i < |r.tracks| :: TrackOk(r.tracks[i], r.newest);
    if Admit(r, meta).Admitted? {
      PushSettles(r, meta, payload);
    }
  }

  lemma {:induction false} PushSettles(r: Ring, meta: PacketMeta, payload: Payload)
    requires Invariant(r) && Admit(r, meta).Admitted?
    ensures Push(r, meta, payload).0.tracks != [] && Settled(Push(r, meta, payload).0)
  {
    hide Evict, ToNanos, Append;
    var index := Admit(r, meta).index;
    var appended := Append(r, index, meta, payload);
    AppendKeeps(r, meta, payload);
    EvictKeeps(appended);
    var after := Evict(appended);
    AppendSetsNewest(r, index, meta, payload);
    forall i | 1 <= i < |after.cuts|
      ensures !OutOfWindow(after, after.cuts[i])
    {
      if i > 1 {
        assert after.cuts[1].dts <= after.cuts[i].dts;
      }
      NanosMonotone(after.cuts[1].dts, after.cuts[i].dts, after.tracks[0].timebase);
    }
  }

  lemma AppendSetsNewest(r: Ring, index: nat, meta: PacketMeta, payload: Payload)
    requires index < |r.tracks|
    ensures Append(r, index, meta, payload).newest.Some?
  {
  }
}
