/** When the writer lets a Cluster go, and how many blocks each Cluster holds. */
module WebmBatching {
  import opened Bytes
  import opened Ids
  import opened DemuxSpec
  import opened MuxSpec
  import opened WebmRoundTrip

  // ---- What has been written ----

  datatype Cluster = Cluster(base: I64, blocks: seq<Block>)

  predicate AllWritable(blocks: seq<Block>)
  {
    forall i | 0 <= i < |blocks| :: Writable(blocks[i])
  }

  /** A Cluster with one block at least and `batch` at most. */
  predicate Filled(c: Cluster, batch: nat)
  {
    1 <= |c.blocks| <= batch && AllWritable(c.blocks)
  }

  predicate AllFilled(clusters: seq<Cluster>, batch: nat)
  {
    forall i | 0 <= i < |clusters| :: Filled(clusters[i], batch)
  }

  function ClusterBytes(c: Cluster): seq<Byte>
    requires AllWritable(c.blocks)
  {
    Elem(CLUSTER, UintElem(TIMECODE, if c.base < 0 then 0 else c.base) + BlocksBytes(c.blocks))
  }

  function ClustersBytes(clusters: seq<Cluster>, batch: nat): seq<Byte>
    requires AllFilled(clusters, batch)
  {
    if clusters == [] then []
    else ClustersBytes(clusters[..|clusters| - 1], batch) + ClusterBytes(clusters[|clusters| - 1])
  }

  /** All output so far is the header and `closed`; `open` are the blocks waiting for their Cluster to end. */
  predicate Stands(m: MuxState, header: seq<Byte>, closed: seq<Cluster>, open: seq<Block>)
  {
    && m.batch >= 1
    && AllFilled(closed, m.batch) && m.polled + m.pending == header + ClustersBytes(closed, m.batch)
    && AllWritable(open) && m.cluster == BlocksBytes(open) && |open| == m.clusterFrames <= m.batch
    && (m.clusterTimecode.None? ==> open == [])
  }

  lemma NoBytesNoBlocks(open: seq<Block>)
    requires AllWritable(open)
    ensures BlocksBytes(open) == [] <==> open == []
  {
  }

  lemma ClosedStands(m: MuxState, header: seq<Byte>, closed: seq<Cluster>, open: seq<Block>)
    returns (after: seq<Cluster>)
    requires Stands(m, header, closed, open)
    ensures Stands(CloseCluster(m), header, after, []) && CloseCluster(m).batch == m.batch
    ensures after == if open == [] then closed else closed + [Cluster(m.clusterTimecode.value, open)]
  {
    hide BlocksBytes, Elem, UintElem, Writable, ClusterBytes;
    NoBytesNoBlocks(open);
    NoBytesNoBlocks([]);
    after := closed;
    if open != [] {
      var c := Cluster(m.clusterTimecode.value, open);
      after := closed + [c];
      assert after[..|after| - 1] == closed;
      ClusterIs(m.clusterTimecode.value, open);
      var bytes, before := ClusterBytes(c), ClustersBytes(closed, m.batch);
      assert m.polled + (m.pending + bytes) == (m.polled + m.pending) + bytes;
      assert header + (before + bytes) == (header + before) + bytes;
    }
  }

  lemma ClusterIs(base: I64, open: seq<Block>)
    requires AllWritable(open)
    ensures ClusterElem(base, BlocksBytes(open)) == ClusterBytes(Cluster(base, open))
  {
    hide BlocksBytes, Elem, UintElem, Writable;
  }

  lemma BlockStands(m: MuxState, header: seq<Byte>, closed: seq<Cluster>, open: seq<Block>, b: Block)
    requires Stands(m, header, closed, open) && Writable(b) && m.clusterTimecode.Some? && m.clusterFrames < m.batch
    ensures Stands(m.(cluster := m.cluster + BlockElem(b), clusterFrames := m.clusterFrames + 1), header, closed,
                   open + [b])
  {
    hide BlockElem, ClustersBytes;
    assert (open + [b])[..|open|] == open;
  }

  // ---- One push ----

  /** The distance, in 64-bit arithmetic, is one that a block's signed 16-bit field can tell. */
  predicate InReach(timecode: int, base: int)
  {
    (timecode - base + 0x8000) % 0x1_0000_0000_0000_0000 < 0x1_0000
  }

  lemma ReachIsFit(timecode: I64, base: I64)
    ensures InReach(timecode, base) <==> Fits16(Since(timecode, base))
  {
    var d := timecode - base;
    assert d % U64_LIMIT == if d < 0 then (if d < -U64_LIMIT then d + 2 * U64_LIMIT else d + U64_LIMIT) else d;
  }

  /** There is an open Cluster that can take a block at `timecode`. */
  predicate HasRoom(m: MuxState, timecode: int)
  {
    m.clusterTimecode.Some? && m.clusterFrames < m.batch && InReach(timecode, m.clusterTimecode.value)
  }

  predicate IsPush(op: Op)
  {
    op.PushFrame? || op.PushLaced?
  }

  function PayloadsOf(op: Op): seq<seq<Byte>>
    requires IsPush(op)
  {
    if op.PushFrame? then [op.payload] else op.payloads
  }

  /** An accepted push: its track is registered, and it has 1 to 256 payloads. */
  predicate Accepted(m: MuxState, op: Op)
  {
    && IsPush(op) && 1 <= |PayloadsOf(op)| <= 256
    && exists i | 0 <= i < |m.tracks| :: m.tracks[i].trackNumber == op.track
  }

  /** A push is refused for the first of: no payload, more than 256, a track not registered. */
  lemma {:induction false} RefusedExactly(m: MuxState, op: Op)
    requires IsPush(op)
    ensures Refusal(m.tracks, op).None? <==> Accepted(m, op)
    ensures Refusal(m.tracks, op).Some? ==> Apply(m, op) == m
    ensures PayloadsOf(op) == [] <==> Refusal(m.tracks, op) == Some(EmptyLace)
    ensures |PayloadsOf(op)| > 256 <==> Refusal(m.tracks, op) == Some(LaceTooLarge(|PayloadsOf(op)|))
    ensures !Accepted(m, op) && 1 <= |PayloadsOf(op)| <= 256 ==> Refusal(m.tracks, op) == Some(UnknownTrack(op.track))
  {
    hide PushBlock;
  }

  /** A track is refused for number zero or a number in use, and otherwise joins the end of the list. */
  lemma {:induction false} AddTrackAnswers(m: MuxState, t: TrackInfo)
    ensures var (after, error) := AddTrack(m, t);
            var used := exists i | 0 <= i < |m.tracks| :: m.tracks[i].trackNumber == t.trackNumber;
            && (t.trackNumber == 0 ==> error == Some(InvalidTrackNumber))
            && (t.trackNumber != 0 && used ==> error == Some(DuplicateTrack(t.trackNumber)))
            && (t.trackNumber != 0 && !used ==> error == None && after == m.(tracks := m.tracks + [t]))
            && (error.Some? ==> after == m)
  {
  }

  lemma AppliedPush(m: MuxState, op: Op)
    requires Accepted(m, op)
    ensures Apply(m, op) == PushBlock(m, op.track, op.timecode, op.isKeyframe, PayloadsOf(op))
  {
    hide PushBlock;
  }

  /**
   A push into a Cluster with room adds its block there and nothing to the output. Any other push starts a Cluster with
   its block alone, and the one that was open, if it holds a block, goes to the pending output.
   */
  lemma {:induction false} PushLands(m: MuxState, op: Op)
    requires Accepted(m, op)
    ensures var after := Apply(m, op);
            && after.polled == m.polled && after.tracks == m.tracks && after.batch == m.batch && after.scale == m.scale
            && (HasRoom(m, op.timecode) ==>
                  var relative := AsI64(op.timecode - m.clusterTimecode.value);
                  && after.pending == m.pending && after.clusterTimecode == m.clusterTimecode
                  && after.clusterFrames == m.clusterFrames + 1 && Fits16(relative)
                  && after.cluster == m.cluster + BlockElem(Block(op.track, relative, op.isKeyframe, PayloadsOf(op))))
            && (!HasRoom(m, op.timecode) ==>
                  && after.clusterTimecode == Some(op.timecode) && after.clusterFrames == 1
                  && after.cluster == BlockElem(Block(op.track, 0, op.isKeyframe, PayloadsOf(op)))
                  && after.pending == m.pending + if m.clusterTimecode.None? || m.cluster == [] then []
                                                  else ClusterElem(m.clusterTimecode.value, m.cluster))
  {
    hide BlockElem, ClusterElem, InReach;
    AppliedPush(m, op);
    OpenedFits(m, op.timecode);
    if m.clusterTimecode.Some? {
      ReachIsFit(op.timecode, m.clusterTimecode.value);
    }
    NeedsOneWithoutRoom(m, op.timecode);
    assert AsI64(0) == 0;
  }

  lemma NeedsOneWithoutRoom(m: MuxState, timecode: I64)
    ensures NeedsCluster(m, timecode) <==> !HasRoom(m, timecode)
  {
    hide InReach, Since;
    if m.clusterTimecode.Some? {
      ReachIsFit(timecode, m.clusterTimecode.value);
    }
  }

  /** With a full Cluster open, an accepted push sends that Cluster to the pending output, whatever its timecode. */
  lemma {:induction false} FullClusterGoesOut(
    m: MuxState, header: seq<Byte>, closed: seq<Cluster>, open: seq<Block>, op: Op)
    requires Stands(m, header, closed, open) && Accepted(m, op) && |open| == m.batch
    ensures m.clusterTimecode.Some?
    ensures Apply(m, op).pending == m.pending + ClusterBytes(Cluster(m.clusterTimecode.value, open))
    ensures Apply(m, op).clusterFrames == 1
  {
    hide BlockElem, ClusterElem, BlocksBytes, ClustersBytes, Apply, InReach, Writable;
    PushLands(m, op);
    NoBytesNoBlocks(open);
    ClusterIs(m.clusterTimecode.value, open);
  }

  lemma PushStands(m: MuxState, header: seq<Byte>, closed: seq<Cluster>, open: seq<Block>, op: Op)
    returns (c: seq<Cluster>, o: seq<Block>)
    requires Stands(m, header, closed, open) && Accepted(m, op)
    ensures Stands(Apply(m, op), header, c, o) && |o| >= 1
  {
    hide BlockElem, BlocksBytes, Stands, CloseCluster, InReach;
    AppliedPush(m, op);
    OpenedFits(m, op.timecode);
    c, o := closed, open;
    var started := OpenClusterFor(m, op.timecode);
    if NeedsCluster(m, op.timecode) {
      c := ClosedStands(m, header, closed, open);
      o := [];
      StartedStands(CloseCluster(m), header, c, op.timecode);
    } else {
      StandsMeans(m, header, closed, open);
    }
    var b := Block(op.track, Since(op.timecode, started.clusterTimecode.value), op.isKeyframe, PayloadsOf(op));
    BlockStands(started, header, c, o, b);
    o := o + [b];
  }

  lemma StandsMeans(m: MuxState, header: seq<Byte>, closed: seq<Cluster>, open: seq<Block>)
    requires Stands(m, header, closed, open)
    ensures |open| == m.clusterFrames <= m.batch && m.batch >= 1
  {
    hide ClustersBytes, BlocksBytes;
  }

  lemma StartedStands(m: MuxState, header: seq<Byte>, closed: seq<Cluster>, timecode: I64)
    requires Stands(m, header, closed, [])
    ensures Stands(m.(clusterTimecode := Some(timecode)), header, closed, []) && m.clusterFrames < m.batch
  {
    hide ClustersBytes, BlocksBytes;
  }

  lemma ApplyStands(m: MuxState, header: seq<Byte>, closed: seq<Cluster>, open: seq<Block>, op: Op)
    returns (c: seq<Cluster>, o: seq<Block>)
    requires Stands(m, header, closed, open)
    ensures Stands(Apply(m, op), header, c, o) && Apply(m, op).batch == m.batch
  {
    hide PushBlock, CloseCluster, Stands;
    c, o := closed, open;
    if IsPush(op) {
      RefusedExactly(m, op);
      if Accepted(m, op) {
        c, o := PushStands(m, header, closed, open, op);
        PushLands(m, op);
      }
    } else if op.Flush? {
      c := ClosedStands(m, header, closed, open);
      o := [];
    } else {
      PolledStands(m, header, closed, open);
    }
  }

  lemma PolledStands(m: MuxState, header: seq<Byte>, closed: seq<Cluster>, open: seq<Block>)
    requires Stands(m, header, closed, open)
    ensures Stands(Apply(m, Poll), header, closed, open) && Apply(m, Poll).batch == m.batch
  {
    hide ClustersBytes, BlocksBytes;
    assert (m.polled + m.pending) + [] == m.polled + m.pending;
  }

  // ---- Whole runs ----

  lemma {:induction false} RunStands(m: MuxState, ops: seq<Op>) returns (closed: seq<Cluster>, open: seq<Block>)
    requires m == NewMux(m.scale, m.batch).(tracks := m.tracks)
    ensures Stands(ApplyAll(Begin(m), ops), FileHeader(m.scale, m.tracks), closed, open)
    ensures ApplyAll(Begin(m), ops).batch == m.batch
    decreases |ops|
  {
    hide Apply, FileHeader, Stands;
    if ops == [] {
      closed, open := [], [];
      BegunStands(m);
    } else {
      closed, open := RunStands(m, ops[..|ops| - 1]);
      closed, open := ApplyStands(
        ApplyAll(Begin(m), ops[..|ops| - 1]), FileHeader(m.scale, m.tracks), closed, open, ops[|ops| - 1]);
    }
  }

  lemma BegunStands(m: MuxState)
    requires m == NewMux(m.scale, m.batch).(tracks := m.tracks)
    ensures Stands(Begin(m), FileHeader(m.scale, m.tracks), [], []) && Begin(m).batch == m.batch
  {
    hide FileHeader;
    assert FileHeader(m.scale, m.tracks) + [] == [] + ([] + FileHeader(m.scale, m.tracks));
  }

  /**
   Whatever was registered, pushed, flushed and polled: all output is the header and Clusters of 1 to `batch` blocks
   each, and the open Cluster holds exactly as many blocks as are counted, `batch` at most.
   */
  lemma {:induction false} ClustersAreBatched(scale: nat, batch: nat, attempts: seq<TrackInfo>, ops: seq<Op>)
    returns (closed: seq<Cluster>, open: seq<Block>)
    ensures var start := Registering(scale, batch, attempts); var m := ApplyAll(Begin(start), ops);
            && Stands(m, FileHeader(start.scale, start.tracks), closed, open)
            && m.batch == (if batch == 0 then 1 else batch) && start.scale == (if scale == 0 then 1 else scale)
  {
    hide Stands, FileHeader, ApplyAll;
    RegisteringKeeps(scale, batch, attempts);
    closed, open := RunStands(Registering(scale, batch, attempts), ops);
  }

  lemma {:induction false} RegisteringKeeps(scale: nat, batch: nat, attempts: seq<TrackInfo>)
    ensures var m := Registering(scale, batch, attempts);
            && m == NewMux(m.scale, m.batch).(tracks := m.tracks)
            && m.batch == (if batch == 0 then 1 else batch) && m.scale == (if scale == 0 then 1 else scale)
  {
    if attempts != [] {
      RegisteringKeeps(scale, batch, attempts[..|attempts| - 1]);
    }
  }

  /**
   After any run, an accepted push onto a full Cluster adds exactly that Cluster, with all its blocks, to the pending
   output; onto one with room and in reach, it adds nothing to it.
   */
  lemma {:induction false} PushAfterRun(scale: nat, batch: nat, attempts: seq<TrackInfo>, ops: seq<Op>, op: Op)
    returns (closed: seq<Cluster>, open: seq<Block>)
    requires Accepted(ApplyAll(Begin(Registering(scale, batch, attempts)), ops), op)
    ensures var start := Registering(scale, batch, attempts); var m := ApplyAll(Begin(start), ops);
            && Stands(m, FileHeader(start.scale, start.tracks), closed, open)
            && (m.clusterFrames == m.batch ==>
                  && m.clusterTimecode.Some?
                  && Apply(m, op).pending == m.pending + ClusterBytes(Cluster(m.clusterTimecode.value, open)))
            && (HasRoom(m, op.timecode) ==> Apply(m, op).pending == m.pending)
  {
    hide Stands, FileHeader, ApplyAll, Accepted, Apply, ClusterBytes, InReach;
    closed, open := ClustersAreBatched(scale, batch, attempts, ops);
    var start := Registering(scale, batch, attempts);
    var m := ApplyAll(Begin(start), ops);
    StandsMeans(m, FileHeader(start.scale, start.tracks), closed, open);
    PushLands(m, op);
    if m.clusterFrames == m.batch {
      FullClusterGoesOut(m, FileHeader(start.scale, start.tracks), closed, open, op);
    }
  }
}
