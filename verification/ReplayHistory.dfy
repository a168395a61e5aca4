/** The replay ring against the full history of what it was given: eviction never shows. */
module ReplayHistory {
  import opened Bytes
  import opened ReplayTime
  import opened ReplaySpec
  import opened ReplayClip
  import opened ReplayInvariant

  // ---- A ring keeps the ends of its history ----

  predicate IsSuffix<T(==)>(a: seq<T>, b: seq<T>)
  {
    |a| <= |b| && a == b[|b| - |a|..]
  }

  lemma SuffixAppended<T>(a: seq<T>, b: seq<T>, x: T)
    requires IsSuffix(a, b)
    ensures IsSuffix(a + [x], b + [x]) && |b + [x]| - |a + [x]| == |b| - |a|
  {
  }

  lemma SuffixOfSuffix<T>(a: seq<T>, b: seq<T>, c: seq<T>)
    requires IsSuffix(a, b) && IsSuffix(b, c)
    ensures IsSuffix(a, c)
  {
  }

  predicate SameStreams(a: seq<Track>, b: seq<Track>)
  {
    |a| == |b| && forall i | 0 <= i < |a| :: a[i].id == b[i].id && a[i].timebase == b[i].timebase
  }

  /** The oldest cut in `cuts` leaves this packet behind. */
  predicate Spent(e: Entry, own: Timebase, anchor: bool, cuts: seq<CutPoint>, tb: Timebase)
  {
    cuts != [] && Stale(e, own, anchor, cuts[0], ToNanos(cuts[0].pts, tb))
  }

  /** Only packets that the oldest cut leaves behind are missing from the front of a queue. */
  predicate OnlySpentGone(
    held: seq<Entry>, all: seq<Entry>, own: Timebase, anchor: bool, cuts: seq<CutPoint>, tb: Timebase)
  {
    |held| <= |all| && forall j | 0 <= j < |all| - |held| :: Spent(all[j], own, anchor, cuts, tb)
  }

  predicate AnchorSpent(r: Ring, h: Ring)
    requires r.tracks != [] && h.tracks != []
  {
    var tb := r.tracks[0].timebase;
    OnlySpentGone(r.tracks[0].entries, h.tracks[0].entries, tb, true, r.cuts, tb)
  }

  /** `r` holds the end of each of `h`'s queues, and of its cut list. */
  predicate Keeps(r: Ring, h: Ring)
  {
    && r.tracks != [] && SameStreams(r.tracks, h.tracks)
    && IsSuffix(r.cuts, h.cuts) && (h.cuts == [] <==> r.cuts == [])
    && (forall i | 0 <= i < |r.tracks| :: IsSuffix(r.tracks[i].entries, h.tracks[i].entries))
    && AnchorSpent(r, h)
  }

  lemma AppendKeepsHistory(r: Ring, h: Ring, index: nat, meta: PacketMeta, payload: Payload)
    requires Keeps(r, h) && index < |r.tracks|
    ensures Keeps(Append(r, index, meta, payload), Append(h, index, meta, payload))
  {
    hide Newer, IsSuffix, OnlySpentGone;
    var e, tb := Entry(meta, payload), r.tracks[0].timebase;
    SuffixAppended(r.tracks[index].entries, h.tracks[index].entries, e);
    SuffixAppended(r.cuts, h.cuts, CutPoint(meta.dts, meta.pts));
    var ra, ha := Append(r, index, meta, payload), Append(h, index, meta, payload);
    GoneAppended(r.tracks[0].entries, h.tracks[0].entries, tb, true, r.cuts, ra.cuts, tb, e);
  }

  /** A packet added to both queues, or a cut added at the end, leaves what is gone as it was. */
  lemma GoneAppended(held: seq<Entry>, all: seq<Entry>, own: Timebase, anchor: bool,
    cuts: seq<CutPoint>, after: seq<CutPoint>, tb: Timebase, e: Entry)
    requires OnlySpentGone(held, all, own, anchor, cuts, tb) && (cuts != [] ==> after != [] && after[0] == cuts[0])
    ensures OnlySpentGone(held, all, own, anchor, after, tb)
    ensures OnlySpentGone(held + [e], all + [e], own, anchor, after, tb)
  {
    hide Stale;
    assert |all + [e]| - |held + [e]| == |all| - |held|;
    forall j | 0 <= j < |all| - |held|
      ensures Spent(all[j], own, anchor, after, tb) && (all + [e])[j] == all[j]
    {
      assert Spent(all[j], own, anchor, cuts, tb);
    }
  }

  lemma TrimIsSuffix(entries: seq<Entry>, tb: Timebase, anchor: bool, next: CutPoint, start: int)
    ensures IsSuffix(Trim(entries, tb, anchor, next, start), entries)
  {
  }

  lemma EvictOneKeepsHistory(r: Ring, h: Ring)
    requires Keeps(r, h) && CutsSorted(r.cuts) && |r.cuts| >= 2
    ensures Keeps(EvictOne(r), h)
  {
    hide ToNanos, IsSuffix, TotalBytes, Trim, OnlySpentGone;
    var tb := r.tracks[0].timebase;
    var next, start := r.cuts[1], ToNanos(r.cuts[1].pts, tb);
    var after := EvictOne(r);
    forall i | 0 <= i < |r.tracks|
      ensures IsSuffix(after.tracks[i].entries, h.tracks[i].entries)
    {
      TrimIsSuffix(r.tracks[i].entries, r.tracks[i].timebase, i == 0, next, start);
      SuffixOfSuffix(after.tracks[i].entries, r.tracks[i].entries, h.tracks[i].entries);
    }
    TailIsSuffix(r.cuts);
    SuffixOfSuffix(r.cuts[1..], r.cuts, h.cuts);
    GoneAfterTrim(r.tracks[0].entries, h.tracks[0].entries, tb, true, r.cuts, tb);
  }

  lemma TailIsSuffix<T>(s: seq<T>)
    requires s != []
    ensures IsSuffix(s[1..], s)
  {
  }

  lemma SpentStays(e: Entry, own: Timebase, anchor: bool, cuts: seq<CutPoint>, tb: Timebase)
    requires |cuts| >= 2 && Spent(e, own, anchor, cuts, tb)
    requires if anchor then cuts[0].dts <= cuts[1].dts else cuts[0].pts <= cuts[1].pts
    ensures Spent(e, own, anchor, cuts[1..], tb)
  {
    hide ToNanos;
    if !anchor {
      NanosMonotone(cuts[0].pts, cuts[1].pts, tb);
    }
  }

  /** Evicting up to the next cut only takes what that cut leaves behind. */
  lemma GoneAfterTrim(held: seq<Entry>, all: seq<Entry>, own: Timebase, anchor: bool, cuts: seq<CutPoint>, tb: Timebase)
    requires |cuts| >= 2 && IsSuffix(held, all) && OnlySpentGone(held, all, own, anchor, cuts, tb)
    requires if anchor then cuts[0].dts <= cuts[1].dts else cuts[0].pts <= cuts[1].pts
    ensures OnlySpentGone(Trim(held, own, anchor, cuts[1], ToNanos(cuts[1].pts, tb)), all, own, anchor, cuts[1..], tb)
  {
    hide ToNanos, Trim, Stale;
    var kept := Trim(held, own, anchor, cuts[1], ToNanos(cuts[1].pts, tb));
    var first := |all| - |held|;
    forall j | 0 <= j < |all| - |kept|
      ensures Spent(all[j], own, anchor, cuts[1..], tb)
    {
      if j >= first {
        assert all[j] == held[j - first];
        assert Stale(held[j - first], own, anchor, cuts[1], ToNanos(cuts[1].pts, tb));
      } else {
        SpentStays(all[j], own, anchor, cuts, tb);
      }
    }
  }

  lemma {:induction false} EvictKeepsHistory(r: Ring, h: Ring)
    requires Keeps(r, h) && Invariant(r)
    ensures Keeps(Evict(r), h)
    decreases |r.cuts|
  {
    hide EvictOne, Keeps, Invariant;
    InvariantHasTracks(r);
    if MustEvict(r) {
      InvariantSortsCuts(r);
      EvictOneKeepsHistory(r, h);
      EvictOneKeeps(r);
      EvictOneSettings(r);
      EvictKeepsHistory(EvictOne(r), h);
    }
  }

  lemma InvariantSortsCuts(r: Ring)
    requires Invariant(r)
    ensures CutsSorted(r.cuts)
  {
  }

  /** The history grows by whatever the ring admits. */
  function Recorded(r: Ring, h: Ring, op: RingOp): Ring
    requires |r.tracks| > 0
  {
    match op
    case AddOp(id, tb) => if AddStream(r, id, tb).1.None? then h.(tracks := h.tracks + [Track(id, tb, [])]) else h
    case CeilingOp(_) => h
    case PushOp(meta, payload) =>
      match Admit(r, meta)
      case Admitted(index) => if index < |h.tracks| then Append(h, index, meta, payload) else h
      case _ => h
  }

  ghost function History(window: nat, anchor: nat, tb: Timebase, ops: seq<RingOp>): Ring
  {
    if ops == [] then Fresh(window, anchor, tb)
    else
      var before := ops[..|ops| - 1];
      Recorded(RunRing(window, anchor, tb, before), History(window, anchor, tb, before), ops[|ops| - 1])
  }

  lemma StepKeepsHistory(r: Ring, h: Ring, op: RingOp)
    requires Keeps(r, h) && Invariant(r)
    ensures Keeps(Step(r, op).0, Recorded(r, h, op))
  {
    hide Append, Evict, Keeps, Invariant;
    assert |r.tracks| == |h.tracks| by { KeepsSameStreams(r, h); }
    match op
    case AddOp(id, tb) => AddKeepsHistory(r, h, id, tb);
    case CeilingOp(max) => CeilingKeepsHistory(r, h, max);
    case PushOp(meta, payload) =>
      if Admit(r, meta).Admitted? {
        var index := Admit(r, meta).index;
        AppendKeepsHistory(r, h, index, meta, payload);
        AppendKeeps(r, meta, payload);
        EvictKeepsHistory(Append(r, index, meta, payload), Append(h, index, meta, payload));
      }
  }

  lemma KeepsSameStreams(r: Ring, h: Ring)
    requires Keeps(r, h)
    ensures SameStreams(r.tracks, h.tracks)
  {
  }

  lemma AddKeepsHistory(r: Ring, h: Ring, id: nat, tb: Rational)
    requires Keeps(r, h)
    ensures Keeps(AddStream(r, id, tb).0,
                  if AddStream(r, id, tb).1.None? then h.(tracks := h.tracks + [Track(id, tb, [])]) else h)
  {
  }

  lemma CeilingKeepsHistory(r: Ring, h: Ring, max: nat)
    requires Keeps(r, h)
    ensures Keeps(r.(maxBytes := Some(max)), h)
  {
  }

  lemma {:induction false} RunKeepsHistory(window: nat, anchor: nat, tb: Timebase, ops: seq<RingOp>)
    ensures Keeps(RunRing(window, anchor, tb, ops), History(window, anchor, tb, ops))
    decreases |ops|
  {
    hide Step, Recorded, Keeps, Fresh;
    if ops == [] {
      FreshKeepsHistory(window, anchor, tb);
    } else {
      var before := ops[..|ops| - 1];
      RunKeepsHistory(window, anchor, tb, before);
      StepKeepsHistory(RunRing(window, anchor, tb, before), History(window, anchor, tb, before), ops[|ops| - 1]);
    }
  }

  lemma FreshKeepsHistory(window: nat, anchor: nat, tb: Timebase)
    ensures Keeps(Fresh(window, anchor, tb), Fresh(window, anchor, tb))
  {
  }

  /**
   On any run, with any byte ceiling, what the ring holds of each stream is the end of what it took in, and every anchor
   packet decoded from the newest keyframe on is still held.
   */
  lemma {:induction false} NewestGopHeld(window: nat, anchor: nat, tb: Timebase, ops: seq<RingOp>)
    ensures var r, h := RunRing(window, anchor, tb, ops), History(window, anchor, tb, ops);
            && |r.tracks| == |h.tracks|
            && (forall i | 0 <= i < |r.tracks| :: IsSuffix(r.tracks[i].entries, h.tracks[i].entries))
            && (h.cuts != [] ==> forall j | 0 <= j < |h.tracks[0].entries| ::
                  h.tracks[0].entries[j].meta.dts >= h.cuts[|h.cuts| - 1].dts ==>
                    h.tracks[0].entries[j] in r.tracks[0].entries)
  {
    hide RunRing, History, ToNanos, Invariant;
    var r, h := RunRing(window, anchor, tb, ops), History(window, anchor, tb, ops);
    RunKeepsHistory(window, anchor, tb, ops);
    InvariantSortsCuts(r);
    if h.cuts != [] {
      assert h.cuts[|h.cuts| - 1] == r.cuts[|r.cuts| - 1];
      assert r.cuts[0].dts <= r.cuts[|r.cuts| - 1].dts;
      var held, all := r.tracks[0].entries, h.tracks[0].entries;
      forall j | 0 <= j < |all| && all[j].meta.dts >= h.cuts[|h.cuts| - 1].dts
        ensures all[j] in held
      {
        assert all[j] == held[j - (|all| - |held|)];
      }
    }
  }

  // ---- A ring that never evicts ----

  function LogStep(l: Ring, op: RingOp): (Ring, Option<ReplayError>)
    requires |l.tracks| > 0
  {
    match op
    case AddOp(id, tb) => AddStream(l, id, tb)
    case CeilingOp(_) => (l, None)
    case PushOp(meta, payload) =>
      match Admit(l, meta)
      case Refused(error) => (l, Some(error))
      case Ignored => (l, None)
      case Admitted(index) => (Append(l, index, meta, payload), None)
  }

  lemma LogStepKeeps(l: Ring, op: RingOp)
    requires Invariant(l)
    ensures l.tracks != [] && LogStep(l, op).0.tracks != [] && Invariant(LogStep(l, op).0)
  {
    hide AddStream, Append, Invariant;
    InvariantHasTracks(l);
    match op
    case AddOp(id, tb) => AddKeeps(l, id, tb); InvariantHasTracks(AddStream(l, id, tb).0);
    case CeilingOp(_) =>
    case PushOp(meta, payload) =>
      if Admit(l, meta).Admitted? {
        AppendKeeps(l, meta, payload);
        InvariantHasTracks(Append(l, Admit(l, meta).index, meta, payload));
      }
  }

  ghost function Log(window: nat, anchor: nat, tb: Timebase, ops: seq<RingOp>): (l: Ring)
    ensures l.tracks != [] && Invariant(l)
  {
    if ops == [] then
      FreshKeeps(window, anchor, tb);
      InvariantHasTracks(Fresh(window, anchor, tb));
      Fresh(window, anchor, tb)
    else
      var before := Log(window, anchor, tb, ops[..|ops| - 1]);
      LogStepKeeps(before, ops[|ops| - 1]);
      LogStep(before, ops[|ops| - 1]).0
  }

  predicate OutOfOrderPush(l: Ring, op: RingOp)
  {
    op.PushOp? && Admit(l, op.meta).Refused? && Admit(l, op.meta).error.OutOfOrder?
  }

  /** No packet older than any before it on its stream. */
  ghost predicate InOrder(window: nat, anchor: nat, tb: Timebase, ops: seq<RingOp>)
  {
    ops == [] ||
    (InOrder(window, anchor, tb, ops[..|ops| - 1]) &&
     !OutOfOrderPush(Log(window, anchor, tb, ops[..|ops| - 1]), ops[|ops| - 1]))
  }

  predicate PtsOrdered(cuts: seq<CutPoint>)
  {
    forall i, j | 0 <= i < j < |cuts| :: cuts[i].pts <= cuts[j].pts
  }

  /** `r` is the log `l` less what its oldest cut leaves behind and, without a ceiling, only after a full window. */
  predicate Abbreviates(r: Ring, l: Ring)
  {
    && Keeps(r, l)
    && r.newest == l.newest && r.window == l.window
    && (forall i | 1 <= i < |r.tracks| :: OtherSpent(r, l, i))
    && (r.maxBytes.None? && |r.cuts| < |l.cuts| ==> OutOfWindow(r, r.cuts[0]))
  }

  predicate OtherSpent(r: Ring, l: Ring, i: nat)
    requires 1 <= i < |r.tracks| && |l.tracks| == |r.tracks|
  {
    OnlySpentGone(r.tracks[i].entries, l.tracks[i].entries, l.tracks[i].timebase, false, r.cuts, r.tracks[0].timebase)
  }

  lemma AppendAbbreviates(r: Ring, l: Ring, index: nat, meta: PacketMeta, payload: Payload)
    requires Abbreviates(r, l) && index < |r.tracks|
    ensures Abbreviates(Append(r, index, meta, payload), Append(l, index, meta, payload))
  {
    hide ToNanos, IsSuffix, OnlySpentGone;
    AppendKeepsHistory(r, l, index, meta, payload);
    var ra, la := Append(r, index, meta, payload), Append(l, index, meta, payload);
    var e := Entry(meta, payload);
    assert r.cuts != [] ==> ra.cuts[0] == r.cuts[0];
    forall i | 1 <= i < |r.tracks|
      ensures OtherSpent(ra, la, i)
    {
      assert OtherSpent(r, l, i);
      GoneAppended(r.tracks[i].entries, l.tracks[i].entries, l.tracks[i].timebase, false, r.cuts, ra.cuts,
        r.tracks[0].timebase, e);
    }
  }

  lemma EvictOneAbbreviates(r: Ring, l: Ring)
    requires Abbreviates(r, l) && CutsSorted(r.cuts) && PtsOrdered(l.cuts) && MustEvict(r)
    ensures Abbreviates(EvictOne(r), l)
  {
    hide ToNanos, Keeps, TotalBytes, TrimTrack, OnlySpentGone, OutOfWindow;
    EvictOneKeepsHistory(r, l);
    KeepsSuffixes(r, l);
    var start, after := ToNanos(r.cuts[1].pts, r.tracks[0].timebase), EvictOne(r);
    CutsPtsOrdered(r, l);
    forall i | 1 <= i < |r.tracks|
      ensures OtherSpent(after, l, i)
    {
      assert OtherSpent(r, l, i);
      OtherSpentAfterTrim(r, l, i);
    }
    TrimKeepsId(r.tracks[0], true, r.cuts[1], start);
    SameWindow(r, after);
  }

  lemma SameWindow(r: Ring, after: Ring)
    requires r.tracks != [] && |r.cuts| >= 2 && after == EvictOne(r)
    ensures after.tracks != [] && after.cuts[0] == r.cuts[1]
            && (OutOfWindow(r, r.cuts[1]) ==> OutOfWindow(after, after.cuts[0]))
  {
    hide ToNanos, TotalBytes, Trim;
  }

  lemma OtherSpentAfterTrim(r: Ring, l: Ring, i: nat)
    requires 1 <= i < |r.tracks| && SameStreams(r.tracks, l.tracks)
             && IsSuffix(r.tracks[i].entries, l.tracks[i].entries)
    requires |r.cuts| >= 2 && PtsOrdered(r.cuts) && OtherSpent(r, l, i)
    ensures OtherSpent(EvictOne(r), l, i)
  {
    hide ToNanos, TotalBytes, Trim, IsSuffix, OnlySpentGone;
    GoneAfterTrim(r.tracks[i].entries, l.tracks[i].entries, l.tracks[i].timebase, false, r.cuts, r.tracks[0].timebase);
  }

  lemma KeepsSuffixes(r: Ring, l: Ring)
    requires Keeps(r, l)
    ensures r.tracks != [] && SameStreams(r.tracks, l.tracks) && IsSuffix(r.cuts, l.cuts)
    ensures forall i | 0 <= i < |r.tracks| :: IsSuffix(r.tracks[i].entries, l.tracks[i].entries)
  {
  }

  lemma CutsPtsOrdered(r: Ring, l: Ring)
    requires IsSuffix(r.cuts, l.cuts) && PtsOrdered(l.cuts)
    ensures PtsOrdered(r.cuts)
  {
  }

  lemma {:induction false} EvictAbbreviates(r: Ring, l: Ring)
    requires Abbreviates(r, l) && Invariant(r) && PtsOrdered(l.cuts)
    ensures Abbreviates(Evict(r), l)
    decreases |r.cuts|
  {
    hide EvictOne, Abbreviates, Invariant, OutOfWindow, PtsOrdered;
    InvariantHasTracks(r);
    if MustEvict(r) {
      InvariantSortsCuts(r);
      EvictOneAbbreviates(r, l);
      EvictOneKeeps(r);
      EvictOneSettings(r);
      EvictAbbreviates(EvictOne(r), l);
    }
  }

  lemma AbbreviatesStreams(r: Ring, l: Ring)
    requires Abbreviates(r, l)
    ensures SameStreams(r.tracks, l.tracks)
  {
  }

  lemma {:induction false} SamePosition(a: seq<Track>, b: seq<Track>, id: nat, i: nat)
    requires SameStreams(a, b) && i <= |a|
    ensures PositionFrom(a, id, i) == PositionFrom(b, id, i)
    decreases |a| - i
  {
    if i < |a| && a[i].id != id {
      SamePosition(a, b, id, i + 1);
    }
  }

  /** What the log admits in order, the ring admits too. */
  lemma AdmitsAlike(r: Ring, l: Ring, meta: PacketMeta)
    requires Keeps(r, l) && !OutOfOrderPush(l, PushOp(meta, Held([])))
    ensures Admit(r, meta) == Admit(l, meta)
  {
    hide AnchorSpent;
    SamePosition(r.tracks, l.tracks, meta.streamId, 0);
    var index := PositionFrom(l.tracks, meta.streamId, 0);
    if index < |l.tracks| {
      assert IsSuffix(r.tracks[index].entries, l.tracks[index].entries);
    }
  }

  lemma {:induction false} StepAbbreviates(r: Ring, l: Ring, op: RingOp)
    requires Abbreviates(r, l) && Invariant(r) && !OutOfOrderPush(l, op)
    requires |l.tracks| > 0 && PtsOrdered(LogStep(l, op).0.cuts)
    ensures |r.tracks| > 0 && Step(r, op).1 == LogStep(l, op).1 && Abbreviates(Step(r, op).0, LogStep(l, op).0)
  {
    hide Append, Evict, Abbreviates, Invariant, Keeps, Admit, PtsOrdered, AddStream;
    InvariantHasTracks(r);
    AbbreviatesStreams(r, l);
    if op.AddOp? {
      AddAbbreviates(r, l, op.id, op.timebase);
    } else if op.CeilingOp? {
      CeilingAbbreviates(r, l, op.max);
    } else {
      AbbreviatesKeeps(r, l);
      AdmitsAlike(r, l, op.meta);
      if Admit(l, op.meta).Admitted? {
        var index := Admit(l, op.meta).index;
        AppendAbbreviates(r, l, index, op.meta, op.payload);
        AppendKeeps(r, op.meta, op.payload);
        EvictAbbreviates(Append(r, index, op.meta, op.payload), Append(l, index, op.meta, op.payload));
      }
    }
  }

  lemma AbbreviatesKeeps(r: Ring, l: Ring)
    requires Abbreviates(r, l)
    ensures Keeps(r, l)
  {
  }

  lemma CeilingAbbreviates(r: Ring, l: Ring, max: nat)
    requires Abbreviates(r, l)
    ensures Abbreviates(r.(maxBytes := Some(max)), l)
  {
    hide ToNanos, OnlySpentGone, IsSuffix;
    var after := r.(maxBytes := Some(max));
    forall i | 1 <= i < |r.tracks|
      ensures OtherSpent(after, l, i)
    {
      assert OtherSpent(r, l, i);
    }
  }

  lemma AddAbbreviates(r: Ring, l: Ring, id: nat, tb: Rational)
    requires Abbreviates(r, l)
    ensures AddStream(r, id, tb).1 == AddStream(l, id, tb).1
            && Abbreviates(AddStream(r, id, tb).0, AddStream(l, id, tb).0)
  {
    hide ToNanos, OnlySpentGone, HasStream, IsSuffix;
    SameNames(r.tracks, l.tracks, id);
    if tb.num > 0 && tb.den > 0 {
      NothingGone(tb, r.cuts, r.tracks[0].timebase);
      var ra, la := AddStream(r, id, tb).0, AddStream(l, id, tb).0;
      forall i | 1 <= i < |ra.tracks|
        ensures OtherSpent(ra, la, i)
      {
        assert i < |r.tracks| ==> OtherSpent(r, l, i);
      }
    }
  }

  lemma NothingGone(own: Timebase, cuts: seq<CutPoint>, tb: Timebase)
    ensures IsSuffix<Entry>([], []) && OnlySpentGone([], [], own, false, cuts, tb)
  {
  }

  lemma SameNames(a: seq<Track>, b: seq<Track>, id: nat)
    requires SameStreams(a, b)
    ensures HasStream(a, id) <==> HasStream(b, id)
  {
  }

  /** The log's cut list only grows, so the order of its presentation times held all along. */
  lemma LogCutsGrow(l: Ring, op: RingOp)
    requires |l.tracks| > 0 && PtsOrdered(LogStep(l, op).0.cuts)
    ensures PtsOrdered(l.cuts)
  {
    hide ToNanos;
    var after := LogStep(l, op).0.cuts;
    assert forall i | 0 <= i < |l.cuts| :: after[i] == l.cuts[i];
  }

  lemma {:induction false} RunAbbreviates(window: nat, anchor: nat, tb: Timebase, ops: seq<RingOp>)
    requires InOrder(window, anchor, tb, ops) && PtsOrdered(Log(window, anchor, tb, ops).cuts)
    ensures Abbreviates(RunRing(window, anchor, tb, ops), Log(window, anchor, tb, ops))
    decreases |ops|
  {
    hide Step, LogStep, Abbreviates, Fresh, PtsOrdered, OutOfOrderPush;
    if ops == [] {
      FreshAbbreviates(window, anchor, tb);
    } else {
      var before, op := ops[..|ops| - 1], ops[|ops| - 1];
      LogCutsGrow(Log(window, anchor, tb, before), op);
      RunAbbreviates(window, anchor, tb, before);
      StepAbbreviates(RunRing(window, anchor, tb, before), Log(window, anchor, tb, before), op);
    }
  }

  lemma FreshAbbreviates(window: nat, anchor: nat, tb: Timebase)
    ensures Abbreviates(Fresh(window, anchor, tb), Fresh(window, anchor, tb))
  {
  }

  // ---- Clips of the ring and of the log ----

  lemma {:induction false} SkippedPrefix(
    all: seq<Entry>, gone: nat, tb: Timebase, anchor: bool, cut: CutPoint, cutPts: int)
    requires gone <= |all| && forall j | 0 <= j < gone :: Before(all[j], tb, anchor, cut, cutPts)
    ensures Skipped(all, tb, anchor, cut, cutPts) == gone + Skipped(all[gone..], tb, anchor, cut, cutPts)
    decreases gone
  {
    hide Before;
    if gone > 0 {
      assert all[1..][gone - 1..] == all[gone..];
      SkippedPrefix(all[1..], gone - 1, tb, anchor, cut, cutPts);
    } else {
      assert all[0..] == all;
    }
  }

  lemma {:induction false} CutsUpToPrefix(all: seq<CutPoint>, gone: nat, tb: Timebase, target: int)
    requires gone <= |all| && forall j | 0 <= j < gone :: ToNanos(all[j].dts, tb) <= target
    ensures CutsUpTo(all, tb, target) == gone + CutsUpTo(all[gone..], tb, target)
    decreases gone
  {
    hide ToNanos;
    if gone > 0 {
      assert all[1..][gone - 1..] == all[gone..];
      CutsUpToPrefix(all[1..], gone - 1, tb, target);
    } else {
      assert all[0..] == all;
    }
  }

  /** A clip of `span` would not start before the oldest cut held, or no cut is gone at all. */
  predicate WithinReach(r: Ring, l: Ring, span: nat)
    requires r.tracks != []
  {
    |r.cuts| == |l.cuts| ||
    (r.cuts != [] && r.newest.Some? && r.newest.value - span >= ToNanos(r.cuts[0].dts, r.tracks[0].timebase))
  }

  /** The cuts already gone are all at or before a target within reach. */
  lemma GoneCutsAreOld(r: Ring, l: Ring, span: nat)
    requires Abbreviates(r, l) && Invariant(l) && r.tracks != [] && WithinReach(r, l, span) && r.newest.Some?
    ensures var tb, target := r.tracks[0].timebase, r.newest.value - span;
            && CutsUpTo(l.cuts, tb, target) == |l.cuts| - |r.cuts| + CutsUpTo(r.cuts, tb, target)
            && (|r.cuts| < |l.cuts| ==> CutsUpTo(r.cuts, tb, target) >= 1)
  {
    hide ToNanos, Abbreviates, Invariant, CutsUpTo;
    CutsAgree(r, l);
    InvariantSortsCuts(l);
    OldCutsCounted(r.cuts, l.cuts, r.tracks[0].timebase, r.newest.value - span);
  }

  lemma OldCutsCounted(held: seq<CutPoint>, all: seq<CutPoint>, tb: Timebase, target: int)
    requires CutsSorted(all) && |held| <= |all| && (forall k | 0 <= k < |held| :: all[|all| - |held| + k] == held[k])
    requires |held| == |all| || (held != [] && target >= ToNanos(held[0].dts, tb))
    ensures CutsUpTo(all, tb, target) == |all| - |held| + CutsUpTo(held, tb, target)
    ensures |held| < |all| ==> CutsUpTo(held, tb, target) >= 1
  {
    hide ToNanos, CutsUpTo;
    var gone := |all| - |held|;
    assert all[gone..] == held;
    if gone > 0 {
      assert all[gone] == held[0];
      forall j | 0 <= j < gone
        ensures ToNanos(all[j].dts, tb) <= target
      {
        NanosMonotone(all[j].dts, all[gone].dts, tb);
      }
    }
    CutsUpToPrefix(all, gone, tb, target);
  }

  lemma CutsAgree(r: Ring, l: Ring)
    requires Abbreviates(r, l)
    ensures r.tracks != [] && l.tracks != [] && r.tracks[0].timebase == l.tracks[0].timebase && r.newest == l.newest
    ensures |r.cuts| <= |l.cuts| && (forall k | 0 <= k < |r.cuts| :: l.cuts[|l.cuts| - |r.cuts| + k] == r.cuts[k])
    ensures r.cuts == [] ==> l.cuts == []
  {
    hide ToNanos, AnchorSpent, OtherSpent, OutOfWindow;
    SuffixAt(r.cuts, l.cuts);
  }

  lemma SuffixAt<T>(a: seq<T>, b: seq<T>)
    requires IsSuffix(a, b)
    ensures |a| <= |b| && forall k | 0 <= k < |a| :: b[|b| - |a| + k] == a[k]
  {
  }

  /** Within reach both choose the same cut, and the ring still holds it. */
  lemma {:induction false} SameCut(r: Ring, l: Ring, span: nat)
    requires Abbreviates(r, l) && Invariant(l) && r.tracks != [] && WithinReach(r, l, span)
    ensures l.tracks != [] && ClipLast(r, span).Some? == ClipLast(l, span).Some?
    ensures ClipLast(l, span).Some? ==>
              var a, b := ClipLast(r, span).value, ClipLast(l, span).value;
              && a.cut == b.cut && a.origin == b.origin && a.newest == b.newest
              && a.tracks == r.tracks && b.tracks == l.tracks && a.cut in r.cuts
  {
    hide ToNanos, Abbreviates, Invariant, CutsUpTo, WithinReach;
    CutsAgree(r, l);
    if r.newest.Some? {
      GoneCutsAreOld(r, l, span);
    }
  }

  predicate PtsAfterDts(tracks: seq<Track>)
  {
    forall i | 1 <= i < |tracks| :: AllPtsAfterDts(tracks[i].entries)
  }

  predicate AllPtsAfterDts(entries: seq<Entry>)
  {
    forall k | 0 <= k < |entries| :: entries[k].meta.pts >= entries[k].meta.dts
  }

  /** What is gone comes before any cut still held. */
  lemma SpentIsBefore(
    held: seq<Entry>, all: seq<Entry>, own: Timebase, anchor: bool, cuts: seq<CutPoint>, tb: Timebase, k: nat)
    requires OnlySpentGone(held, all, own, anchor, cuts, tb) && CutsSorted(cuts) && PtsOrdered(cuts) && k < |cuts|
    requires anchor || AllPtsAfterDts(all)
    ensures |held| <= |all|
    ensures forall j | 0 <= j < |all| - |held| :: Before(all[j], own, anchor, cuts[k], ToNanos(cuts[k].pts, tb))
  {
    hide ToNanos;
    NanosMonotone(cuts[0].pts, cuts[k].pts, tb);
    assert cuts[0].dts <= cuts[k].dts;
    forall j | 0 <= j < |all| - |held|
      ensures Before(all[j], own, anchor, cuts[k], ToNanos(cuts[k].pts, tb))
    {
      assert Spent(all[j], own, anchor, cuts, tb);
      if !anchor {
        NanosMonotone(all[j].meta.dts, all[j].meta.pts, own);
      }
    }
  }

  /** From a cut the ring still holds, a queue and its end go on alike. */
  lemma SameRest(
    held: seq<Entry>, all: seq<Entry>, own: Timebase, anchor: bool, cuts: seq<CutPoint>, tb: Timebase, k: nat)
    requires OnlySpentGone(held, all, own, anchor, cuts, tb) && CutsSorted(cuts) && PtsOrdered(cuts) && k < |cuts|
    requires anchor || AllPtsAfterDts(all)
    requires IsSuffix(held, all)
    ensures var start := ToNanos(cuts[k].pts, tb);
            held[Skipped(held, own, anchor, cuts[k], start)..] == all[Skipped(all, own, anchor, cuts[k], start)..]
  {
    hide ToNanos, Skipped, OnlySpentGone, Before, CutsSorted, PtsOrdered;
    var gone, start := |all| - |held|, ToNanos(cuts[k].pts, tb);
    SpentIsBefore(held, all, own, anchor, cuts, tb, k);
    SkippedPrefix(all, gone, own, anchor, cuts[k], start);
    TailsMeet(held, all, gone, Skipped(held, own, anchor, cuts[k], start));
  }

  lemma TrackSpent(r: Ring, l: Ring, i: nat)
    requires Abbreviates(r, l) && i < |r.tracks|
    ensures |l.tracks| == |r.tracks| && r.tracks[i].timebase == l.tracks[i].timebase
            && r.tracks[0].timebase == l.tracks[0].timebase
    ensures IsSuffix(r.tracks[i].entries, l.tracks[i].entries)
    ensures OnlySpentGone(r.tracks[i].entries, l.tracks[i].entries, r.tracks[i].timebase, i == 0,
                          r.cuts, r.tracks[0].timebase)
  {
    hide IsSuffix, OnlySpentGone, OutOfWindow;
    assert i > 0 ==> OtherSpent(r, l, i);
  }

  /** From a cut the ring still holds, every track goes on alike. */
  lemma {:induction false} SameTail(r: Ring, l: Ring, c: Clip, d: Clip, i: nat)
    requires Abbreviates(r, l) && Invariant(r) && PtsOrdered(l.cuts) && PtsAfterDts(l.tracks)
    requires c.tracks == r.tracks && d.tracks == l.tracks && c.cut == d.cut && c.cut in r.cuts && i < |r.tracks|
    ensures Tails(c)[i] == Tails(d)[i]
  {
    hide ToNanos, Skipped, Invariant, OnlySpentGone, IsSuffix, Abbreviates, PtsOrdered, CutsSorted;
    InvariantSortsCuts(r);
    RingCutsPtsOrdered(r, l);
    TrackSpent(r, l, i);
    var k: nat :| k < |r.cuts| && r.cuts[k] == c.cut;
    SameRest(r.tracks[i].entries, l.tracks[i].entries, r.tracks[i].timebase, i == 0, r.cuts, r.tracks[0].timebase, k);
  }

  lemma RingCutsPtsOrdered(r: Ring, l: Ring)
    requires Abbreviates(r, l) && PtsOrdered(l.cuts)
    ensures PtsOrdered(r.cuts)
  {
    hide PtsOrdered, IsSuffix, AnchorSpent, OtherSpent, OutOfWindow;
    CutsPtsOrdered(r, l);
  }

  lemma TailsMeet(held: seq<Entry>, all: seq<Entry>, gone: nat, start: nat)
    requires gone <= |all| && held == all[gone..] && start <= |held|
    ensures all[gone + start..] == held[start..]
  {
  }

  /** A clip's output depends only on its cut, its origin, and each track's timebase and tail. */
  lemma SameOutput(c: Clip, d: Clip)
    requires c.cut == d.cut && c.origin == d.origin
    requires Timebases(c.tracks) == Timebases(d.tracks) && Tails(c) == Tails(d)
    ensures Output(c) == Output(d)
  {
    hide Merge, ToTicks;
    assert |Timebases(c.tracks)| == |Timebases(d.tracks)|;
    SameShown(c, d, Merge(Timebases(c.tracks), Tails(c)));
    assert Items(c) == Items(d);
    forall k | 0 <= k < |Items(c)|
      ensures Rebased(c, Items(c)[k]) == Rebased(d, Items(d)[k])
    {
      var t := Items(c)[k].track;
      assert Timebases(c.tracks)[t] == Timebases(d.tracks)[t];
    }
  }

  lemma {:induction false} SameShown(c: Clip, d: Clip, items: seq<Item>)
    requires c.cut == d.cut
    ensures Shown(c, items) == Shown(d, items)
  {
    if items != [] {
      SameShown(c, d, items[1..]);
    }
  }

  /** A clip within reach is the same clip of the ring and of the log. */
  lemma ClipsAgree(r: Ring, l: Ring, span: nat)
    requires Abbreviates(r, l) && Invariant(r) && Invariant(l) && PtsOrdered(l.cuts) && PtsAfterDts(l.tracks)
    requires r.tracks != [] && WithinReach(r, l, span)
    ensures l.tracks != [] && SameClip(ClipLast(r, span), ClipLast(l, span))
  {
    hide Abbreviates, Invariant, ClipLast, Output, Tails, PtsOrdered, PtsAfterDts, WithinReach;
    SameCut(r, l, span);
    if ClipLast(l, span).Some? {
      var a, b := ClipLast(r, span).value, ClipLast(l, span).value;
      AbbreviatesStreams(r, l);
      forall i | 0 <= i < |r.tracks|
        ensures Tails(a)[i] == Tails(b)[i]
      {
        SameTail(r, l, a, b, i);
      }
      SameOutput(a, b);
    }
  }

  /** The same cut, duration and packets, or no clip from either. */
  predicate SameClip(a: Option<Clip>, b: Option<Clip>)
  {
    match (a, b)
    case (None, None) => true
    case (Some(c), Some(d)) =>
      c.cut == d.cut && c.origin == d.origin && Duration(c) == Duration(d) && Output(c) == Output(d)
    case _ => false
  }

  /**
   Eviction is invisible: with packets in decode order on each stream, keyframes presented in order and no packet of
   another stream presented before it decodes, whatever byte ceilings are set on the way, a clip no longer than the
   ring's span starts at the same cut and yields the same packets as from a ring that never evicts.
   */
  lemma {:induction false} EvictionIsInvisible(window: nat, anchor: nat, tb: Timebase, ops: seq<RingOp>, span: nat)
    requires InOrder(window, anchor, tb, ops)
    requires PtsOrdered(Log(window, anchor, tb, ops).cuts) && PtsAfterDts(Log(window, anchor, tb, ops).tracks)
    requires span <= Span(RunRing(window, anchor, tb, ops))
    ensures SameClip(ClipLast(RunRing(window, anchor, tb, ops), span), ClipLast(Log(window, anchor, tb, ops), span))
  {
    hide RunRing, Log, Abbreviates, Invariant, ClipLast, SameClip, PtsOrdered, PtsAfterDts, InOrder;
    var r, l := RunRing(window, anchor, tb, ops), Log(window, anchor, tb, ops);
    RunAbbreviates(window, anchor, tb, ops);
    SpanIsReached(r, l, span);
    ClipsAgree(r, l, span);
  }

  lemma SpanIsReached(r: Ring, l: Ring, span: nat)
    requires Abbreviates(r, l) && Invariant(r) && r.tracks != [] && span <= Span(r)
    ensures WithinReach(r, l, span)
  {
    hide ToNanos, Abbreviates, Invariant;
    CutsAgree(r, l);
    if r.cuts != [] {
      FrontCut(r);
    }
  }

  /** Without a ceiling the ring's reach is never less than its window, once anything at all is gone. */
  lemma {:induction false} WindowIsHeld(window: nat, anchor: nat, tb: Timebase, ops: seq<RingOp>, span: nat)
    requires InOrder(window, anchor, tb, ops) && RunRing(window, anchor, tb, ops).maxBytes.None? && span <= window
    requires PtsOrdered(Log(window, anchor, tb, ops).cuts) && PtsAfterDts(Log(window, anchor, tb, ops).tracks)
    ensures SameClip(ClipLast(RunRing(window, anchor, tb, ops), span), ClipLast(Log(window, anchor, tb, ops), span))
  {
    hide RunRing, Log, Abbreviates, Invariant, ClipLast, SameClip, PtsOrdered, PtsAfterDts, InOrder, WithinReach;
    var r, l := RunRing(window, anchor, tb, ops), Log(window, anchor, tb, ops);
    RunAbbreviates(window, anchor, tb, ops);
    WindowKept(window, anchor, tb, ops);
    WindowIsReached(r, l, span);
    ClipsAgree(r, l, span);
  }

  lemma WindowIsReached(r: Ring, l: Ring, span: nat)
    requires Abbreviates(r, l) && r.tracks != [] && r.maxBytes.None? && span <= r.window
    ensures WithinReach(r, l, span)
  {
    hide ToNanos, Keeps, OtherSpent;
    CutsAgree(r, l);
  }

  lemma {:induction false} WindowKept(window: nat, anchor: nat, tb: Timebase, ops: seq<RingOp>)
    ensures RunRing(window, anchor, tb, ops).window == window
    decreases |ops|
  {
    if ops != [] {
      WindowKept(window, anchor, tb, ops[..|ops| - 1]);
      StepWindow(RunRing(window, anchor, tb, ops[..|ops| - 1]), ops[|ops| - 1]);
    }
  }

  lemma StepWindow(r: Ring, op: RingOp)
    requires Invariant(r)
    ensures |r.tracks| > 0 && Step(r, op).0.window == r.window
  {
    hide Evict, Invariant;
    InvariantHasTracks(r);
    if op.PushOp? && Admit(r, op.meta).Admitted? {
      AppendKeeps(r, op.meta, op.payload);
      EvictKeeps(Append(r, Admit(r, op.meta).index, op.meta, op.payload));
    }
  }
}
