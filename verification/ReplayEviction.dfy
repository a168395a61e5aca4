/** What a push and an eviction do, told by the packets, cuts and times themselves. */
module ReplayEviction {
  import opened Bytes
  import opened ReplayTime
  import opened ReplaySpec
  import opened ReplayClip
  import opened ReplayInvariant

  // ---- What an eviction takes ----

  /** No queue begins with a packet that the front cut leaves behind. */
  predicate NothingBehind(r: Ring)
    requires r.tracks != [] && r.cuts != []
  {
    && (r.tracks[0].entries != [] ==> r.tracks[0].entries[0].meta.dts >= r.cuts[0].dts)
    && (forall i | 1 <= i < |r.tracks| && r.tracks[i].entries != [] ::
          ToNanos(r.tracks[i].entries[0].meta.pts, r.tracks[i].timebase)
          >= ToNanos(r.cuts[0].pts, r.tracks[0].timebase))
  }

  /** `now` is `was` without its first packets. */
  predicate FrontGone(was: Track, now: Track)
  {
    && now.id == was.id && now.timebase == was.timebase
    && |now.entries| <= |was.entries| && now.entries == was.entries[|was.entries| - |now.entries|..]
  }

  /** What the anchor lost decodes before `front`. */
  predicate AnchorLost(was: Track, now: Track, front: CutPoint)
  {
    forall k | 0 <= k < |was.entries| - |now.entries| :: was.entries[k].meta.dts < front.dts
  }

  /** What another stream lost is shown before `start`. */
  predicate OtherLost(was: Track, now: Track, start: int)
  {
    forall k | 0 <= k < |was.entries| - |now.entries| :: ToNanos(was.entries[k].meta.pts, was.timebase) < start
  }

  lemma TrimmedExactly(t: Track, anchor: bool, next: CutPoint, start: int)
    ensures var u := TrimTrack(t, anchor, next, start);
            && FrontGone(t, u)
            && (anchor ==> AnchorLost(t, u, next) && (u.entries != [] ==> u.entries[0].meta.dts >= next.dts))
            && (!anchor ==> OtherLost(t, u, start)
                            && (u.entries != [] ==> ToNanos(u.entries[0].meta.pts, t.timebase) >= start))
  {
    hide ToNanos, Trim;
    var kept := Trim(t.entries, t.timebase, anchor, next, start);
    forall k | 0 <= k < |t.entries| - |kept|
      ensures Stale(t.entries[k], t.timebase, anchor, next, start)
    {
    }
  }

  /**
   One eviction takes the oldest cut and, off the front of every queue, exactly what the next cut leaves behind: the
   anchor's packets that decode before it, and every other stream's up to the first shown at or after it.
   */
  lemma {:induction false} EvictionIsExact(r: Ring)
    requires |r.tracks| > 0 && |r.cuts| >= 2
    ensures var e, next := EvictOne(r), r.cuts[1];
            && e.cuts == r.cuts[1..] && |e.tracks| == |r.tracks|
            && e.window == r.window && e.maxBytes == r.maxBytes && e.newest == r.newest
            && (forall i | 0 <= i < |r.tracks| :: FrontGone(r.tracks[i], e.tracks[i]))
            && AnchorLost(r.tracks[0], e.tracks[0], next)
            && (forall i | 1 <= i < |r.tracks| ::
                  OtherLost(r.tracks[i], e.tracks[i], ToNanos(next.pts, r.tracks[0].timebase)))
            && NothingBehind(e)
  {
    hide ToNanos, TotalBytes, TrimTrack, FrontGone, AnchorLost, OtherLost;
    var start, e := ToNanos(r.cuts[1].pts, r.tracks[0].timebase), EvictOne(r);
    forall i | 0 <= i < |r.tracks|
      ensures e.tracks[i] == TrimTrack(r.tracks[i], i == 0, r.cuts[1], start)
      ensures FrontGone(r.tracks[i], e.tracks[i]) && e.tracks[i].timebase == r.tracks[i].timebase
      ensures i == 0 ==> AnchorLost(r.tracks[i], e.tracks[i], r.cuts[1])
      ensures i > 0 ==> OtherLost(r.tracks[i], e.tracks[i], start)
      ensures i == 0 && e.tracks[i].entries != [] ==> e.tracks[i].entries[0].meta.dts >= r.cuts[1].dts
      ensures i > 0 && e.tracks[i].entries != [] ==>
                ToNanos(e.tracks[i].entries[0].meta.pts, r.tracks[i].timebase) >= start
    {
      TrimmedExactly(r.tracks[i], i == 0, r.cuts[1], start);
      TrimKeepsId(r.tracks[i], i == 0, r.cuts[1], start);
    }
  }

  // ---- When an eviction happens ----

  /** There is a younger cut that still starts a full window, or a younger cut and too many bytes. */
  predicate HasTooMuch(r: Ring)
    requires r.tracks != []
  {
    && r.newest.Some? && |r.cuts| >= 2
    && (|| r.newest.value - ToNanos(r.cuts[1].dts, r.tracks[0].timebase) >= r.window
        || (r.maxBytes.Some? && r.bytes > r.maxBytes.value))
  }

  lemma {:induction false} EvictShortens(r: Ring)
    requires r.tracks != []
    ensures |Evict(r).cuts| <= |r.cuts|
    decreases |r.cuts|
  {
    hide EvictOne, MustEvict;
    if MustEvict(r) {
      EvictOneCuts(r);
      EvictShortens(EvictOne(r));
    }
  }

  lemma EvictOneCuts(r: Ring)
    requires r.tracks != [] && MustEvict(r)
    ensures |r.cuts| >= 2 && EvictOne(r).cuts == r.cuts[1..] && EvictOne(r).tracks != []
  {
  }

  /** Nothing is evicted unless the ring has too much; then one GOP goes and the question is asked again. */
  lemma {:induction false} EvictsOnlyWhatIsTooMuch(r: Ring)
    requires r.tracks != []
    ensures Evict(r) == r <==> !HasTooMuch(r)
    ensures HasTooMuch(r) ==> EvictOne(r).tracks != [] && Evict(r) == Evict(EvictOne(r))
  {
    hide EvictOne, ToNanos;
    assert HasTooMuch(r) == MustEvict(r);
    if MustEvict(r) {
      EvictOneCuts(r);
      EvictShortens(EvictOne(r));
    }
  }

  lemma {:induction false} EvictLeavesNothingBehind(r: Ring)
    requires r.tracks != []
    ensures Evict(r).tracks != [] && Evict(r).newest == r.newest
    ensures Evict(r).window == r.window && Evict(r).maxBytes == r.maxBytes
    ensures |r.cuts| > 0 ==> Evict(r).cuts != []
    ensures |Evict(r).cuts| < |r.cuts| ==> NothingBehind(Evict(r))
    decreases |r.cuts|
  {
    hide EvictOne, NothingBehind, MustEvict;
    if MustEvict(r) {
      EvictOneCuts(r);
      EvictionIsExact(r);
      EvictLeavesNothingBehind(EvictOne(r));
      if |Evict(r).cuts| == |r.cuts| - 1 {
        CutsShrinkOnce(EvictOne(r));
      }
    }
  }

  lemma CutsShrinkOnce(r: Ring)
    requires r.tracks != [] && |Evict(r).cuts| == |r.cuts|
    ensures Evict(r) == r
  {
    hide EvictOne, MustEvict;
    if MustEvict(r) {
      EvictOneCuts(r);
      EvictShortens(EvictOne(r));
    }
  }

  // ---- What a push does ----

  predicate Unknown(r: Ring, id: nat)
  {
    forall i | 0 <= i < |r.tracks| :: r.tracks[i].id != id
  }

  /** The stream's last packet held decodes after `dts`. */
  predicate Backwards(r: Ring, meta: PacketMeta)
  {
    exists i | 0 <= i < |r.tracks| ::
      && r.tracks[i].id == meta.streamId && r.tracks[i].entries != []
      && r.tracks[i].entries[|r.tracks[i].entries| - 1].meta.dts > meta.dts
  }

  /** A packet of the anchor, not a keyframe, while no keyframe is held. */
  predicate NoUse(r: Ring, meta: PacketMeta)
    requires r.tracks != []
  {
    meta.streamId == r.tracks[0].id && !meta.isKeyframe && r.cuts == []
  }

  lemma Position(r: Ring, id: nat)
    requires DistinctIds(r.tracks)
    ensures var p := PositionFrom(r.tracks, id, 0);
            && (p == |r.tracks| <==> Unknown(r, id))
            && (forall i | 0 <= i < |r.tracks| :: r.tracks[i].id == id <==> i == p)
  {
    var p := PositionFrom(r.tracks, id, 0);
    forall i | 0 <= i < |r.tracks|
      ensures r.tracks[i].id == id <==> i == p
    {
      assert p < i ==> r.tracks[p].id != r.tracks[i].id;
    }
  }

  /** A push is refused for an unknown stream or a step back in decode order, and for nothing else. */
  lemma {:induction false} PushAnswers(r: Ring, meta: PacketMeta, payload: Payload)
    requires Invariant(r)
    ensures var (p, error) := Push(r, meta, payload);
            && (error.Some? <==> Unknown(r, meta.streamId) || Backwards(r, meta))
            && (error.Some? ==> p == r) && (Unknown(r, meta.streamId) ==> error == Some(UnknownStream(meta.streamId)))
            && (error.Some? && !Unknown(r, meta.streamId) ==>
                  forall i | 0 <= i < |r.tracks| && r.tracks[i].id == meta.streamId ::
                    r.tracks[i].entries != [] &&
                    error == Some(OutOfOrder(
                      meta.streamId, r.tracks[i].entries[|r.tracks[i].entries| - 1].meta.dts, meta.dts)))
            && (error.None? && NoUse(r, meta) ==> p == r)
            && (error.None? && !NoUse(r, meta) ==> Admit(r, meta).Admitted?)
            && (Admit(r, meta).Admitted? ==> error.None? && !NoUse(r, meta))
  {
    hide Evict, Append, PositionFrom;
    Position(r, meta.streamId);
  }

  /** Adding a stream is refused for a zero in its timebase or an ID in use, and otherwise adds an empty queue. */
  lemma {:induction false} AddAnswers(r: Ring, id: nat, tb: Rational)
    ensures var (p, error) := AddStream(r, id, tb);
            && (error.None? <==> tb.num > 0 && tb.den > 0 && Unknown(r, id))
            && (error.Some? ==> p == r)
            && (tb.num == 0 || tb.den == 0 ==> error == Some(BadTimebase(id, tb.num, tb.den)))
            && (tb.num > 0 && tb.den > 0 && !Unknown(r, id) ==> error == Some(DuplicateStream(id)))
            && (error.None? ==> p == r.(tracks := r.tracks + [Track(id, tb, [])]))
  {
  }

  /** `now` is `was` and, on the stream meant, the packet after it, less what was taken off the front. */
  predicate Queued(was: Track, now: Track, meta: PacketMeta, payload: Payload)
  {
    FrontGone(was.(entries := was.entries + if was.id == meta.streamId then [Entry(meta, payload)] else []), now)
  }

  /** The cuts so far and, for an anchor keyframe, its own times. */
  function CutsWith(r: Ring, meta: PacketMeta): seq<CutPoint>
    requires r.tracks != []
  {
    if meta.isKeyframe && meta.streamId == r.tracks[0].id then r.cuts + [CutPoint(meta.dts, meta.pts)] else r.cuts
  }

  lemma FrontGoneTwice(a: Track, b: Track, c: Track)
    requires FrontGone(a, b) && FrontGone(b, c)
    ensures FrontGone(a, c)
  {
    var n, m := |a.entries| - |b.entries|, |b.entries| - |c.entries|;
    assert a.entries[n..][m..] == a.entries[n + m..];
  }

  predicate AllFrontGone(was: seq<Track>, now: seq<Track>)
  {
    |now| == |was| && forall i | 0 <= i < |was| :: FrontGone(was[i], now[i])
  }

  lemma AllFrontGoneTwice(a: seq<Track>, b: seq<Track>, c: seq<Track>)
    requires AllFrontGone(a, b) && AllFrontGone(b, c)
    ensures AllFrontGone(a, c)
  {
    hide FrontGone;
    forall i | 0 <= i < |a|
      ensures FrontGone(a[i], c[i])
    {
      FrontGoneTwice(a[i], b[i], c[i]);
    }
  }

  predicate CutsGone(was: seq<CutPoint>, now: seq<CutPoint>)
  {
    |now| <= |was| && now == was[|was| - |now|..]
  }

  lemma {:induction false} EvictTakesFronts(r: Ring)
    requires r.tracks != []
    ensures AllFrontGone(r.tracks, Evict(r).tracks) && CutsGone(r.cuts, Evict(r).cuts)
    decreases |r.cuts|
  {
    hide EvictOne, MustEvict, FrontGone, NothingBehind, ToNanos, AnchorLost, OtherLost;
    if MustEvict(r) {
      EvictOneCuts(r);
      EvictionIsExact(r);
      EvictTakesFronts(EvictOne(r));
      AllFrontGoneTwice(r.tracks, EvictOne(r).tracks, Evict(r).tracks);
      CutsGoneAfterFirst(r.cuts, Evict(r).cuts);
    } else {
      SelfFrontGone(r.tracks);
    }
  }

  lemma CutsGoneAfterFirst(was: seq<CutPoint>, now: seq<CutPoint>)
    requires was != [] && CutsGone(was[1..], now)
    ensures CutsGone(was, now)
  {
    var n := |was| - 1 - |now|;
    assert was[1..][n..] == was[n + 1..];
  }

  lemma SelfFrontGone(tracks: seq<Track>)
    ensures AllFrontGone(tracks, tracks)
  {
  }

  /**
   An accepted push puts the packet at the end of its stream's queue and, for an anchor keyframe, its times at the
   end of the cut list, then takes packets and cuts off the fronts; some cut always stays. The newest time is the latest
   of the old one and the packet's decode time.
   */
  lemma {:induction false} PushQueues(r: Ring, meta: PacketMeta, payload: Payload)
    requires Invariant(r) && Push(r, meta, payload).1.None? && !NoUse(r, meta)
    ensures var p := Push(r, meta, payload).0;
            && |p.tracks| == |r.tracks|
            && (forall i | 0 <= i < |r.tracks| :: Queued(r.tracks[i], p.tracks[i], meta, payload))
            && CutsGone(CutsWith(r, meta), p.cuts) && (CutsWith(r, meta) != [] ==> p.cuts != [])
            && p.window == r.window && p.maxBytes == r.maxBytes
            && (forall i | 0 <= i < |r.tracks| && r.tracks[i].id == meta.streamId ::
                  p.newest == Some(var at := ToNanos(meta.dts, r.tracks[i].timebase);
                                   if r.newest.Some? && r.newest.value >= at then r.newest.value else at))
  {
    hide Evict, ToNanos, PositionFrom, FrontGone, NothingBehind;
    PushAnswers(r, meta, payload);
    Position(r, meta.streamId);
    var index := Admit(r, meta).index;
    var a := Append(r, index, meta, payload);
    EvictTakesFronts(a);
    EvictLeavesNothingBehind(a);
    var p := Evict(a);
    forall i | 0 <= i < |r.tracks|
      ensures Queued(r.tracks[i], p.tracks[i], meta, payload)
    {
      assert a.tracks[i].entries
             == r.tracks[i].entries + if r.tracks[i].id == meta.streamId then [Entry(meta, payload)] else [];
    }
  }

  /** The cuts taken are those of the ring with the packet that are no longer there. */
  predicate TookACut(r: Ring, p: Ring, meta: PacketMeta)
    requires r.tracks != []
  {
    |p.cuts| < |CutsWith(r, meta)|
  }

  /** Every cut but the oldest is younger than the window, and the byte ceiling holds as soon as two cuts are held. */
  predicate HoldsNoMore(r: Ring)
    requires r.tracks != []
  {
    && (forall i | 1 <= i < |r.cuts| ::
          r.newest.Some? && r.newest.value - ToNanos(r.cuts[i].dts, r.tracks[0].timebase) < r.window)
    && (|r.cuts| >= 2 && r.maxBytes.Some? ==> r.bytes <= r.maxBytes.value)
  }

  lemma {:induction false} PushTrims(r: Ring, meta: PacketMeta, payload: Payload)
    requires Invariant(r) && Push(r, meta, payload).1.None?
    ensures var p := Push(r, meta, payload).0;
            && p.tracks != [] && HoldsNoMore(p)
            && (TookACut(r, p, meta) ==> p.cuts != [] && NothingBehind(p))
  {
    hide Evict, ToNanos, PositionFrom, NothingBehind, Append, OutOfWindow, OverBudget;
    PushAnswers(r, meta, payload);
    if NoUse(r, meta) {
    } else {
      var index := Admit(r, meta).index;
      Position(r, meta.streamId);
      AppendedCuts(r, index, meta, payload);
      EvictLeavesNothingBehind(Append(r, index, meta, payload));
      PushSettles(r, meta, payload);
      SettledMeans(Push(r, meta, payload).0);
    }
  }

  lemma AppendedCuts(r: Ring, index: nat, meta: PacketMeta, payload: Payload)
    requires index < |r.tracks| && (index == 0 <==> meta.streamId == r.tracks[0].id)
    ensures Append(r, index, meta, payload).tracks != []
    ensures Append(r, index, meta, payload).cuts == CutsWith(r, meta)
    ensures Append(r, index, meta, payload).newest.Some?
  {
    hide ToNanos;
  }

  lemma SettledMeans(p: Ring)
    requires p.tracks != [] && Settled(p) && p.newest.Some?
    ensures HoldsNoMore(p)
  {
    hide ToNanos;
  }

  // ---- Over whole runs ----

  /**
   After any run, a push that is accepted leaves no cut but the oldest outside the window and, with two cuts or more, no
   byte above the ceiling; and if it took a cut, no queue begins with a packet that the front cut leaves behind.
   */
  lemma {:induction false} RunTrims(
    window: nat, anchor: nat, tb: Timebase, ops: seq<RingOp>, meta: PacketMeta, payload: Payload)
    ensures var r := RunRing(window, anchor, tb, ops); var (p, error) := Push(r, meta, payload);
            error.None? ==>
              && p.tracks != [] && HoldsNoMore(p)
              && (TookACut(r, p, meta) ==> p.cuts != [] && NothingBehind(p))
  {
    hide Push, RunRing, HoldsNoMore, NothingBehind, Invariant;
    var r := RunRing(window, anchor, tb, ops);
    if Push(r, meta, payload).1.None? {
      PushTrims(r, meta, payload);
    }
  }

  // ---- The cut list ----

  /** The times of the keyframes among the packets. */
  function KeyCuts(entries: seq<Entry>): seq<CutPoint>
  {
    if entries == [] then []
    else
      (if entries[0].meta.isKeyframe then [CutPoint(entries[0].meta.dts, entries[0].meta.pts)] else [])
      + KeyCuts(entries[1..])
  }

  lemma {:induction false} KeyCutsSplit(entries: seq<Entry>, n: nat)
    requires n <= |entries|
    ensures KeyCuts(entries) == KeyCuts(entries[..n]) + KeyCuts(entries[n..])
  {
    if n == 0 {
      assert entries[..0] == [] && entries[0..] == entries;
    } else {
      KeyCutsSplit(entries[1..], n - 1);
      assert entries[..n][1..] == entries[1..][..n - 1];
      assert entries[1..][n - 1..] == entries[n..];
    }
  }

  lemma {:induction false} KeyCutsBefore(entries: seq<Entry>, dts: int)
    requires forall k | 0 <= k < |entries| :: entries[k].meta.dts < dts
    ensures forall k | 0 <= k < |KeyCuts(entries)| :: KeyCuts(entries)[k].dts < dts
  {
    if entries != [] {
      KeyCutsBefore(entries[1..], dts);
    }
  }

  /** The cut list is the end of the held keyframes' times, and all of them as long as no two share the oldest time. */
  predicate CutsAreKeyframes(r: Ring)
    requires r.tracks != []
  {
    var keys := KeyCuts(r.tracks[0].entries);
    && CutsGone(keys, r.cuts)
    && (forall k | 0 <= k < |keys| - |r.cuts| :: r.cuts != [] && keys[k].dts == r.cuts[0].dts)
  }

  lemma KeyCutsAppended(entries: seq<Entry>, e: Entry)
    ensures KeyCuts(entries + [e])
            == KeyCuts(entries) + if e.meta.isKeyframe then [CutPoint(e.meta.dts, e.meta.pts)] else []
  {
    KeyCutsSplit(entries + [e], |entries|);
    assert (entries + [e])[..|entries|] == entries && (entries + [e])[|entries|..] == [e];
    assert [e][1..] == [];
  }

  lemma {:induction false} KeyCutsFrom(entries: seq<Entry>, low: int)
    requires forall k | 0 <= k < |entries| :: low <= entries[k].meta.dts
    ensures forall k | 0 <= k < |KeyCuts(entries)| :: low <= KeyCuts(entries)[k].dts
  {
    if entries != [] {
      KeyCutsFrom(entries[1..], low);
    }
  }

  lemma {:induction false} KeyCutsSorted(entries: seq<Entry>)
    requires Sorted(entries)
    ensures CutsSorted(KeyCuts(entries))
  {
    if entries != [] {
      KeyCutsSorted(entries[1..]);
      KeyCutsFrom(entries[1..], entries[0].meta.dts);
    }
  }

  /** With the front in order the second half of `CutsAreKeyframes` follows from the first. */
  lemma SpareKeysShareTheFront(r: Ring)
    requires Invariant(r) && CutsGone(KeyCuts(r.tracks[0].entries), r.cuts)
    ensures CutsAreKeyframes(r)
  {
    hide KeyCuts, ToNanos, TotalBytes, Holds;
    var entries := r.tracks[0].entries;
    var keys := KeyCuts(entries);
    assert TrackOk(r.tracks[0], r.newest);
    KeyCutsSorted(entries);
    if r.cuts == [] {
      assert entries == [];
      NoKeys();
    } else {
      KeyCutsFrom(entries, r.cuts[0].dts);
      assert keys[|keys| - |r.cuts|] == r.cuts[0];
    }
  }

  lemma NoKeys()
    ensures KeyCuts([]) == []
  {
  }

  lemma EvictOneKeepsKeys(r: Ring)
    requires Invariant(r) && |r.cuts| >= 2 && CutsGone(KeyCuts(r.tracks[0].entries), r.cuts)
    ensures EvictOne(r).tracks != [] && CutsGone(KeyCuts(EvictOne(r).tracks[0].entries), EvictOne(r).cuts)
  {
    hide KeyCuts, ToNanos, Invariant, EvictOne, OtherLost, NothingBehind;
    InvariantHasTracks(r);
    EvictionIsExact(r);
    var was, now := r.tracks[0].entries, EvictOne(r).tracks[0].entries;
    var n := |was| - |now|;
    KeyCutsSplit(was, n);
    KeyCutsBefore(was[..n], r.cuts[1].dts);
    KeysLeft(KeyCuts(was[..n]), KeyCuts(now), r.cuts);
  }

  lemma KeysLeft(gone: seq<CutPoint>, keys: seq<CutPoint>, cuts: seq<CutPoint>)
    requires |cuts| >= 2 && CutsGone(gone + keys, cuts)
    requires forall k | 0 <= k < |gone| :: gone[k].dts < cuts[1].dts
    ensures CutsGone(keys, cuts[1..])
  {
    var all, d := gone + keys, |gone| + |keys| - |cuts|;
    assert all[d + 1] == cuts[1];
    assert |gone| <= d + 1;
    assert cuts[1..] == all[d + 1..] == keys[d + 1 - |gone|..];
  }

  lemma {:induction false} EvictKeepsKeys(r: Ring)
    requires Invariant(r) && r.tracks != [] && CutsGone(KeyCuts(r.tracks[0].entries), r.cuts)
    ensures Evict(r).tracks != [] && CutsGone(KeyCuts(Evict(r).tracks[0].entries), Evict(r).cuts)
    decreases |r.cuts|
  {
    hide EvictOne, MustEvict, Invariant, KeyCuts, CutsGone;
    if MustEvict(r) {
      EvictOneCuts(r);
      EvictOneKeeps(r);
      EvictOneKeepsKeys(r);
      EvictKeepsKeys(EvictOne(r));
    }
  }

  lemma AppendKeepsKeys(r: Ring, index: nat, meta: PacketMeta, payload: Payload)
    requires index < |r.tracks| && CutsGone(KeyCuts(r.tracks[0].entries), r.cuts)
    ensures var a := Append(r, index, meta, payload); a.tracks != [] && CutsGone(KeyCuts(a.tracks[0].entries), a.cuts)
  {
    hide KeyCuts, ToNanos;
    KeyCutsAppended(r.tracks[0].entries, Entry(meta, payload));
  }

  lemma PushKeepsKeys(r: Ring, meta: PacketMeta, payload: Payload)
    requires Invariant(r) && r.tracks != [] && CutsGone(KeyCuts(r.tracks[0].entries), r.cuts)
    ensures var p := Push(r, meta, payload).0; p.tracks != [] && CutsGone(KeyCuts(p.tracks[0].entries), p.cuts)
  {
    hide Evict, Append, Invariant, KeyCuts, CutsGone;
    if Admit(r, meta).Admitted? {
      AppendKeepsKeys(r, Admit(r, meta).index, meta, payload);
      AppendKeeps(r, meta, payload);
      EvictKeepsKeys(Append(r, Admit(r, meta).index, meta, payload));
    }
  }

  lemma {:induction false} RunKeepsKeys(window: nat, anchor: nat, tb: Timebase, ops: seq<RingOp>)
    ensures var r := RunRing(window, anchor, tb, ops); CutsGone(KeyCuts(r.tracks[0].entries), r.cuts)
  {
    hide Push, Invariant, KeyCuts;
    if ops == [] {
      NoKeys();
      assert Fresh(window, anchor, tb).tracks == [Track(anchor, tb, [])];
    } else {
      RunKeepsKeys(window, anchor, tb, ops[..|ops| - 1]);
      var before := RunRing(window, anchor, tb, ops[..|ops| - 1]);
      match ops[|ops| - 1] {
        case AddOp(_, _) =>
        case CeilingOp(_) =>
        case PushOp(meta, payload) => PushKeepsKeys(before, meta, payload);
      }
    }
  }

  /** After any run the cut list is the held keyframes', but for keyframes that share the oldest cut's decode time. */
  lemma {:induction false} CutsAreTheKeyframesHeld(window: nat, anchor: nat, tb: Timebase, ops: seq<RingOp>)
    ensures CutsAreKeyframes(RunRing(window, anchor, tb, ops))
  {
    hide RunRing, Invariant, CutsAreKeyframes, CutsGone, KeyCuts;
    RunKeepsKeys(window, anchor, tb, ops);
    SpareKeysShareTheFront(RunRing(window, anchor, tb, ops));
  }

  // ---- Byte counts ----

  /** Leaving out one packet lowers the sum of the queues by its payload length, whether in memory or stored. */
  lemma {:induction false} BytesAreLengths(tracks: seq<Track>, i: nat, k: nat)
    requires i < |tracks| && k < |tracks[i].entries|
    ensures var t := tracks[i];
            TotalBytes(tracks) - TotalBytes(tracks[i := t.(entries := t.entries[..k] + t.entries[k + 1..])])
            == match t.entries[k].payload case Held(data) => |data| case Stored(_, _, len) => len
  {
    hide TotalBytes, SumBytes;
    var t := tracks[i];
    var front, rest := t.entries[..k], t.entries[k + 1..];
    TotalUpdated(tracks, i, t.(entries := front + rest));
    assert t.entries == front + ([t.entries[k]] + rest);
    SumSplit(front, [t.entries[k]] + rest);
    SumSplit(front, rest);
    assert ([t.entries[k]] + rest)[1..] == rest;
    SumFirst([t.entries[k]] + rest);
  }

  lemma {:induction false} NoPacketsNoBytes(tracks: seq<Track>)
    requires forall i | 0 <= i < |tracks| :: tracks[i].entries == []
    ensures TotalBytes(tracks) == 0
  {
    if tracks != [] {
      NoPacketsNoBytes(tracks[1..]);
    }
  }

  lemma SumFirst(entries: seq<Entry>)
    requires entries != []
    ensures SumBytes(entries) == ByteLen(entries[0].payload) + SumBytes(entries[1..])
  {
  }

  lemma {:induction false} SumSplit(a: seq<Entry>, b: seq<Entry>)
    ensures SumBytes(a + b) == SumBytes(a) + SumBytes(b)
  {
    if a == [] {
      assert a + b == b;
    } else {
      assert (a + b)[1..] == a[1..] + b;
      SumSplit(a[1..], b);
    }
  }
}
