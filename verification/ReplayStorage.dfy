/** What the list of held payloads promises whoever stores their bytes: what is not on it is never needed again. */
module ReplayStorage {
  import opened ReplayTime
  import opened ReplaySpec
  import opened ReplayClip
  import opened ReplayInvariant
  import opened ReplayMerge
  import opened Replay

  predicate Has(entries: seq<Entry>, p: Payload)
  {
    exists k | 0 <= k < |entries| :: entries[k].payload == p
  }

  predicate Keeping(tracks: seq<Track>, p: Payload)
  {
    exists i | 0 <= i < |tracks| :: Has(tracks[i].entries, p)
  }

  /** The list names a payload exactly when some queue holds it. */
  lemma {:induction false} Listed(tracks: seq<Track>, p: Payload)
    ensures p in PayloadsOf(tracks) <==> Keeping(tracks, p)
  {
    if tracks != [] {
      var front, last := tracks[..|tracks| - 1], tracks[|tracks| - 1];
      assert tracks == front + [last];
      Listed(front, p);
      var own := seq(|last.entries|, j requires 0 <= j < |last.entries| => last.entries[j].payload);
      OwnPayloads(last.entries, p);
      assert PayloadsOf(tracks) == PayloadsOf(front) + own;
      KeepingSplits(front, last, p);
    }
  }

  lemma OwnPayloads(entries: seq<Entry>, p: Payload)
    ensures p in seq(|entries|, j requires 0 <= j < |entries| => entries[j].payload) <==> Has(entries, p)
  {
    var own := seq(|entries|, j requires 0 <= j < |entries| => entries[j].payload);
    if Has(entries, p) {
      var k :| 0 <= k < |entries| && entries[k].payload == p;
      assert own[k] == p;
    }
    if p in own {
      var k :| 0 <= k < |own| && own[k] == p;
      assert entries[k].payload == p;
    }
  }

  lemma KeepingSplits(front: seq<Track>, last: Track, p: Payload)
    ensures Keeping(front + [last], p) <==> Keeping(front, p) || Has(last.entries, p)
  {
    hide Has;
    var all := front + [last];
    if Keeping(front, p) {
      var i :| 0 <= i < |front| && Has(front[i].entries, p);
      assert Has(all[i].entries, p);
    }
    if Has(last.entries, p) {
      assert Has(all[|front|].entries, p);
    }
  }

  // ---- Only a push brings a payload in ----

  lemma AppendBrings(r: Ring, index: nat, meta: PacketMeta, payload: Payload, p: Payload)
    requires index < |r.tracks| && Keeping(Append(r, index, meta, payload).tracks, p)
    ensures Keeping(r.tracks, p) || p == payload
  {
    hide ToNanos;
    var i :| 0 <= i < |r.tracks| && Has(Append(r, index, meta, payload).tracks[i].entries, p);
    var entries := Append(r, index, meta, payload).tracks[i].entries;
    var k :| 0 <= k < |entries| && entries[k].payload == p;
    if k < |r.tracks[i].entries| {
      assert r.tracks[i].entries[k].payload == p;
      assert Has(r.tracks[i].entries, p);
    }
  }

  lemma EvictOneBrings(r: Ring, p: Payload)
    requires |r.tracks| > 0 && |r.cuts| >= 2 && Keeping(EvictOne(r).tracks, p)
    ensures Keeping(r.tracks, p)
  {
    hide ToNanos, TotalBytes, Trim;
    var after := EvictOne(r);
    var i :| 0 <= i < |r.tracks| && Has(after.tracks[i].entries, p);
    var k :| 0 <= k < |after.tracks[i].entries| && after.tracks[i].entries[k].payload == p;
    var gone := |r.tracks[i].entries| - |after.tracks[i].entries|;
    assert r.tracks[i].entries[gone + k].payload == p;
    assert Has(r.tracks[i].entries, p);
  }

  lemma {:induction false} EvictBrings(r: Ring, p: Payload)
    requires |r.tracks| > 0 && Keeping(Evict(r).tracks, p)
    ensures Keeping(r.tracks, p)
    decreases |r.cuts|
  {
    hide EvictOne, Keeping;
    if MustEvict(r) {
      EvictOneSettings(r);
      EvictBrings(EvictOne(r), p);
      EvictOneBrings(r, p);
    }
  }

  lemma StepBrings(r: Ring, op: RingOp, p: Payload)
    requires |r.tracks| > 0 && Keeping(Step(r, op).0.tracks, p)
    ensures Keeping(r.tracks, p) || (op.PushOp? && op.payload == p)
  {
    hide Append, Evict, Keeping, HasStream;
    match op
    case AddOp(id, tb) =>
      if AddStream(r, id, tb).1.None? {
        KeepingSplits(r.tracks, Track(id, tb, []), p);
      }
    case CeilingOp(_) =>
    case PushOp(meta, payload) =>
      if Admit(r, meta).Admitted? {
        var index := Admit(r, meta).index;
        AppendKeepsTracks(r, index, meta, payload);
        EvictBrings(Append(r, index, meta, payload), p);
        AppendBrings(r, index, meta, payload, p);
      }
  }

  lemma AppendKeepsTracks(r: Ring, index: nat, meta: PacketMeta, payload: Payload)
    requires index < |r.tracks|
    ensures |Append(r, index, meta, payload).tracks| == |r.tracks|
  {
    hide ToNanos;
  }

  predicate Pushes(ops: seq<RingOp>, p: Payload)
  {
    exists j | 0 <= j < |ops| :: ops[j].PushOp? && ops[j].payload == p
  }

  lemma {:induction false} RunBrings(
    window: nat, anchor: nat, tb: Timebase, ops: seq<RingOp>, more: seq<RingOp>, p: Payload)
    requires Keeping(RunRing(window, anchor, tb, ops + more).tracks, p)
    ensures Keeping(RunRing(window, anchor, tb, ops).tracks, p) || Pushes(more, p)
    decreases |more|
  {
    hide Step, Keeping;
    if more == [] {
      assert ops + more == ops;
    } else {
      var front, last := more[..|more| - 1], more[|more| - 1];
      var all := ops + more;
      assert all[..|all| - 1] == ops + front && all[|all| - 1] == last;
      var before := RunRing(window, anchor, tb, ops + front);
      InvariantHasTracks(before);
      StepBrings(before, last, p);
      if Keeping(before.tracks, p) {
        RunBrings(window, anchor, tb, ops, front, p);
      }
    }
  }

  // ---- Clips ----

  lemma PacketIsHeld(c: Clip, k: nat)
    requires ClipSorted(c) && k < |Output(c)|
    ensures Keeping(c.tracks, Output(c)[k].payload)
  {
    hide Items;
    ItemSource(c, k);
    var item := Items(c)[k];
    assert Has(c.tracks[item.track].entries, item.entry.payload);
  }

  /**
   Whatever a later clip hands out is on the list of payloads now or comes with a later push: the storage of a payload
   that is not on the list may go.
   */
  lemma {:induction false} UnlistedIsNeverNeeded(window: nat, anchor: nat, tb: Timebase, ops: seq<RingOp>,
    more: seq<RingOp>, span: nat, k: nat)
    requires ClipLast(RunRing(window, anchor, tb, ops + more), span).Some?
    requires k < |Output(ClipLast(RunRing(window, anchor, tb, ops + more), span).value)|
    ensures var p := Output(ClipLast(RunRing(window, anchor, tb, ops + more), span).value)[k].payload;
            p in PayloadsOf(RunRing(window, anchor, tb, ops).tracks) || Pushes(more, p)
  {
    hide RunRing, Output, Keeping, Pushes, PayloadsOf, CutsUpTo, Invariant;
    var later := RunRing(window, anchor, tb, ops + more);
    var c := ClipLast(later, span).value;
    var p := Output(c)[k].payload;
    ChosenIsHeld(later, span);
    PacketIsHeld(c, k);
    RunBrings(window, anchor, tb, ops, more, p);
    Listed(RunRing(window, anchor, tb, ops).tracks, p);
  }
}
