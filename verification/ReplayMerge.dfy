/** A clip's output is an exact merge of what the ring holds, and never shorter than what was asked for. */
module ReplayMerge {
  import opened Bytes
  import opened ReplayTime
  import opened ReplaySpec
  import opened ReplayClip
  import opened ReplayInvariant

  // ---- Reference definition: order, and each track's own packets ----

  function ItemKey(tracks: seq<Track>, item: Item): int
    requires item.track < |tracks|
  {
    ToNanos(item.entry.meta.dts, tracks[item.track].timebase)
  }

  /** Earlier decode time first; on a tie the lower track. */
  predicate Precedes(tracks: seq<Track>, a: Item, b: Item)
    requires a.track < |tracks| && b.track < |tracks|
  {
    ItemKey(tracks, a) < ItemKey(tracks, b) || (ItemKey(tracks, a) == ItemKey(tracks, b) && a.track <= b.track)
  }

  predicate Ordered(tracks: seq<Track>, items: seq<Item>)
  {
    && (forall k | 0 <= k < |items| :: items[k].track < |tracks|)
    && (forall j, k | 0 <= j < k < |items| :: Precedes(tracks, items[j], items[k]))
  }

  /** One track's items, in order. */
  function Project(items: seq<Item>, track: nat): seq<Entry>
  {
    if items == [] then []
    else (if items[0].track == track then [items[0].entry] else []) + Project(items[1..], track)
  }

  /** Which held packets belong in the clip. */
  predicate Belongs(c: Clip, i: nat, e: Entry)
    requires i < |c.tracks|
  {
    if i == 0 then e.meta.dts >= c.cut.dts && e.meta.pts >= c.cut.pts
    else ToNanos(e.meta.dts, c.tracks[i].timebase) >= ToNanos(c.cut.pts, c.tracks[0].timebase)
  }

  function Selected(c: Clip, i: nat, entries: seq<Entry>): seq<Entry>
    requires i < |c.tracks|
  {
    if entries == [] then []
    else (if Belongs(c, i, entries[0]) then [entries[0]] else []) + Selected(c, i, entries[1..])
  }

  // ---- The merge projects to its inputs ----

  lemma {:induction false} MergeProjects(tbs: seq<Timebase>, tails: seq<seq<Entry>>, i: nat)
    requires |tbs| == |tails| && i < |tails|
    ensures Project(Merge(tbs, tails), i) == tails[i]
    decreases Left(tails)
  {
    hide Key, ToNanos;
    var n := LeastUpTo(tbs, tails, |tails|);
    if n < |tails| {
      LeftAfter(tails, n);
      var rest := tails[n := tails[n][1..]];
      MergeProjects(tbs, rest, i);
      assert Merge(tbs, tails)[1..] == Merge(tbs, rest);
      if i == n {
        assert tails[n] == [tails[n][0]] + tails[n][1..];
      }
    }
  }

  lemma {:induction false} ProjectedEntry(items: seq<Item>, k: nat)
    requires k < |items|
    ensures items[k].entry in Project(items, items[k].track)
  {
    if k > 0 {
      ProjectedEntry(items[1..], k - 1);
    }
  }

  predicate TailsSorted(tails: seq<seq<Entry>>)
  {
    forall i | 0 <= i < |tails| :: Sorted(tails[i])
  }

  lemma PopKeepsSorted(tails: seq<seq<Entry>>, n: nat)
    requires TailsSorted(tails) && n < |tails| && tails[n] != []
    ensures TailsSorted(tails[n := tails[n][1..]])
  {
  }

  /** No packet of a sorted tail decodes before the least head, nor at the same time on a lower track. */
  lemma LeastIsFirst(tracks: seq<Track>, tails: seq<seq<Entry>>, n: nat, item: Item)
    requires |tails| == |tracks| && TailsSorted(tails) && item.track < |tails| && item.entry in tails[item.track]
    requires n == LeastUpTo(Timebases(tracks), tails, |tails|) && n < |tails|
    ensures Precedes(tracks, Item(n, tails[n][0]), item)
  {
    hide ToNanos, LeastUpTo;
    var t := item.track;
    var k :| 0 <= k < |tails[t]| && tails[t][k] == item.entry;
    NanosMonotone(tails[t][0].meta.dts, item.entry.meta.dts, tracks[t].timebase);
    assert Key(tails[n][0], Timebases(tracks)[n]) <= Key(tails[t][0], Timebases(tracks)[t]);
  }

  lemma {:induction false} MergeOrdered(tracks: seq<Track>, tails: seq<seq<Entry>>)
    requires |tails| == |tracks| && TailsSorted(tails)
    ensures Ordered(tracks, Merge(Timebases(tracks), tails))
    decreases Left(tails)
  {
    hide ToNanos, Precedes, TailsSorted;
    var tbs := Timebases(tracks);
    var n := LeastUpTo(tbs, tails, |tails|);
    if n < |tails| {
      LeftAfter(tails, n);
      var rest := tails[n := tails[n][1..]];
      PopKeepsSorted(tails, n);
      MergeOrdered(tracks, rest);
      var items := Merge(tbs, rest);
      forall k | 0 <= k < |items|
        ensures Precedes(tracks, Item(n, tails[n][0]), items[k])
      {
        ProjectedEntry(items, k);
        MergeProjects(tbs, rest, items[k].track);
        LeastIsFirst(tracks, tails, n, items[k]);
      }
      OrderedCons(tracks, Item(n, tails[n][0]), items);
    }
  }

  lemma OrderedCons(tracks: seq<Track>, first: Item, items: seq<Item>)
    requires first.track < |tracks| && Ordered(tracks, items)
    requires forall k | 0 <= k < |items| :: Precedes(tracks, first, items[k])
    ensures Ordered(tracks, [first] + items)
  {
    hide Precedes;
  }

  // ---- Dropping leading pictures ----

  lemma {:induction false} ShownWithin(c: Clip, items: seq<Item>, k: nat)
    requires k < |Shown(c, items)|
    ensures Shown(c, items)[k] in items && !Leading(c, Shown(c, items)[k])
  {
    if Leading(c, items[0]) {
      ShownWithin(c, items[1..], k);
    } else if k > 0 {
      ShownWithin(c, items[1..], k - 1);
    }
  }

  lemma {:induction false} ShownOrdered(c: Clip, items: seq<Item>)
    requires Ordered(c.tracks, items)
    ensures Ordered(c.tracks, Shown(c, items))
  {
    hide Precedes, Leading;
    if items != [] {
      var rest := Shown(c, items[1..]);
      ShownOrdered(c, items[1..]);
      forall k | 0 <= k < |rest|
        ensures Precedes(c.tracks, items[0], rest[k])
      {
        ShownWithin(c, items[1..], k);
        var m :| 0 <= m < |items[1..]| && items[1..][m] == rest[k];
        assert items[m + 1] == rest[k];
      }
      OrderedCons(c.tracks, items[0], rest);
    }
  }

  function NotLeading(c: Clip, entries: seq<Entry>): seq<Entry>
  {
    if entries == [] then []
    else (if entries[0].meta.pts >= c.cut.pts then [entries[0]] else []) + NotLeading(c, entries[1..])
  }

  lemma {:induction false} ShownProjects(c: Clip, items: seq<Item>, i: nat)
    ensures Project(Shown(c, items), i) == if i == 0 then NotLeading(c, Project(items, 0)) else Project(items, i)
  {
    if items != [] {
      ShownProjects(c, items[1..], i);
      var rest := Shown(c, items[1..]);
      if !Leading(c, items[0]) {
        assert ([items[0]] + rest)[1..] == rest;
      }
      if items[0].track == i {
        assert ([items[0].entry] + Project(items[1..], i))[1..] == Project(items[1..], i);
      } else {
        assert [] + Project(items[1..], i) == Project(items[1..], i);
        assert [] + Project(rest, i) == Project(rest, i);
      }
    }
  }

  // ---- Each track's part ----

  lemma {:induction false} SelectedAfter(c: Clip, i: nat, entries: seq<Entry>)
    requires i < |c.tracks|
    requires forall k | 0 <= k < |entries| :: !Before(entries[k], c.tracks[i].timebase, i == 0, c.cut, CutPts(c))
    ensures Selected(c, i, entries) == if i == 0 then NotLeading(c, entries) else entries
  {
    hide ToNanos;
    if entries != [] {
      SelectedAfter(c, i, entries[1..]);
      assert !Before(entries[0], c.tracks[i].timebase, i == 0, c.cut, CutPts(c));
      assert [entries[0]] + entries[1..] == entries;
    }
  }

  lemma {:induction false} SelectedSkips(c: Clip, i: nat, entries: seq<Entry>)
    requires i < |c.tracks|
    ensures var n := Skipped(entries, c.tracks[i].timebase, i == 0, c.cut, CutPts(c));
            Selected(c, i, entries) == Selected(c, i, entries[n..])
  {
    hide ToNanos;
    var tb := c.tracks[i].timebase;
    if entries != [] && Before(entries[0], tb, i == 0, c.cut, CutPts(c)) {
      SelectedSkips(c, i, entries[1..]);
      var n := Skipped(entries[1..], tb, i == 0, c.cut, CutPts(c));
      assert entries[1 + n..] == entries[1..][n..];
      assert [] + Selected(c, i, entries[1..]) == Selected(c, i, entries[1..]);
    }
  }

  /** In a sorted queue nothing past the starting point comes before the cut. */
  lemma NoneBeforeAfterStart(entries: seq<Entry>, tb: Timebase, anchor: bool, cut: CutPoint, cutPts: int, k: nat)
    requires Sorted(entries) && Skipped(entries, tb, anchor, cut, cutPts) <= k < |entries|
    ensures !Before(entries[k], tb, anchor, cut, cutPts)
  {
    hide ToNanos;
    var n := Skipped(entries, tb, anchor, cut, cutPts);
    NanosMonotone(entries[n].meta.dts, entries[k].meta.dts, tb);
    assert n < k ==> entries[n].meta.dts <= entries[k].meta.dts;
  }

  predicate ClipSorted(c: Clip)
  {
    c.tracks != [] && forall i | 0 <= i < |c.tracks| :: Sorted(c.tracks[i].entries)
  }

  lemma TailNotBefore(c: Clip, i: nat)
    requires ClipSorted(c) && i < |c.tracks|
    ensures forall k | 0 <= k < |Tails(c)[i]| :: !Before(Tails(c)[i][k], c.tracks[i].timebase, i == 0, c.cut, CutPts(c))
    ensures Sorted(Tails(c)[i])
  {
    hide Before, Skipped;
    var entries, n := c.tracks[i].entries, Start(c, i);
    forall k | 0 <= k < |Tails(c)[i]|
      ensures !Before(Tails(c)[i][k], c.tracks[i].timebase, i == 0, c.cut, CutPts(c))
    {
      NoneBeforeAfterStart(entries, c.tracks[i].timebase, i == 0, c.cut, CutPts(c), n + k);
    }
  }

  /**
   The clip's items are in decode order with ties to the lower track, and each track's items are exactly its held
   packets that belong: nothing lost, repeated or reordered.
   */
  lemma {:induction false} ClipIsExactMerge(c: Clip)
    requires ClipSorted(c)
    ensures Ordered(c.tracks, Items(c))
    ensures forall i | 0 <= i < |c.tracks| :: Project(Items(c), i) == Selected(c, i, c.tracks[i].entries)
  {
    hide Merge, Before, Skipped, Ordered;
    var tails := Tails(c);
    forall i | 0 <= i < |c.tracks|
      ensures Sorted(tails[i])
      ensures Project(Items(c), i) == Selected(c, i, c.tracks[i].entries)
    {
      TailNotBefore(c, i);
      SelectedSkips(c, i, c.tracks[i].entries);
      SelectedAfter(c, i, tails[i]);
      MergeProjects(Timebases(c.tracks), tails, i);
      MergeProjects(Timebases(c.tracks), tails, 0);
      ShownProjects(c, Merge(Timebases(c.tracks), tails), i);
    }
    MergeOrdered(c.tracks, tails);
    ShownOrdered(c, Merge(Timebases(c.tracks), tails));
  }

  /** Order and projections leave no freedom: any list with both is the clip's. */
  lemma {:induction false} OrderedListIsUnique(tracks: seq<Track>, a: seq<Item>, b: seq<Item>)
    requires Ordered(tracks, a) && Ordered(tracks, b)
    requires forall i | 0 <= i < |tracks| :: Project(a, i) == Project(b, i)
    ensures a == b
    decreases |a|
  {
    hide Precedes, Project, Ordered;
    if a == [] {
      assert b == [] by { NothingFirst(tracks, b); }
    } else {
      SameHead(tracks, a, b);
      OrderedRest(tracks, a);
      OrderedRest(tracks, b);
      forall i | 0 <= i < |tracks|
        ensures Project(a[1..], i) == Project(b[1..], i)
      {
        assert Project(a, i) == Project(b, i);
        ProjectRest(a, i);
        ProjectRest(b, i);
      }
      OrderedListIsUnique(tracks, a[1..], b[1..]);
      assert a == [a[0]] + a[1..] && b == [b[0]] + b[1..];
    }
  }

  lemma NothingFirst(tracks: seq<Track>, items: seq<Item>)
    requires Ordered(tracks, items) && forall i | 0 <= i < |tracks| :: Project(items, i) == Project([], i)
    ensures items == []
  {
    hide Precedes, Project;
    if items != [] {
      HeadOfProjection(items);
      NoItemsNoProjection(items[0].track);
    }
  }

  lemma OrderedRest(tracks: seq<Track>, items: seq<Item>)
    requires Ordered(tracks, items) && items != []
    ensures Ordered(tracks, items[1..]) && items[0].track < |tracks|
  {
    hide Precedes;
  }

  /** Two lists of the same order and contents begin alike. */
  lemma SameHead(tracks: seq<Track>, a: seq<Item>, b: seq<Item>)
    requires Ordered(tracks, a) && Ordered(tracks, b) && a != []
    requires forall i | 0 <= i < |tracks| :: Project(a, i) == Project(b, i)
    ensures b != [] && a[0] == b[0]
  {
    hide Precedes, Project, Ordered;
    OrderedRest(tracks, a);
    HeadOfProjection(a);
    NoItemsNoProjection(a[0].track);
    OrderedRest(tracks, b);
    HeadOfProjection(b);
    FirstPrecedesHead(tracks, a, b[0].track);
    FirstPrecedesHead(tracks, b, a[0].track);
    EachPrecedes(tracks, a[0], b[0]);
  }

  lemma EachPrecedes(tracks: seq<Track>, x: Item, y: Item)
    requires x.track < |tracks| && y.track < |tracks|
    ensures Precedes(tracks, x, y) && Precedes(tracks, y, x) ==> x.track == y.track
  {
  }

  lemma HeadOfProjection(items: seq<Item>)
    requires items != []
    ensures Project(items, items[0].track) != [] && Project(items, items[0].track)[0] == items[0].entry
  {
  }

  lemma NoItemsNoProjection(i: nat)
    ensures Project([], i) == []
  {
  }

  lemma ProjectRest(items: seq<Item>, i: nat)
    requires items != []
    ensures items[0].track == i ==> Project(items, i) != [] && Project(items[1..], i) == Project(items, i)[1..]
    ensures items[0].track != i ==> Project(items[1..], i) == Project(items, i)
  {
  }

  lemma {:induction false} ProjectionSource(items: seq<Item>, i: nat) returns (k: nat)
    requires Project(items, i) != []
    ensures k < |items| && items[k] == Item(i, Project(items, i)[0])
  {
    if items[0].track == i {
      k := 0;
    } else {
      var m := ProjectionSource(items[1..], i);
      k := m + 1;
    }
  }

  lemma FirstPrecedesHead(tracks: seq<Track>, items: seq<Item>, i: nat)
    requires Ordered(tracks, items) && items != [] && i < |tracks| && Project(items, i) != []
    ensures items[0].track < |tracks|
    ensures items[0] == Item(i, Project(items, i)[0]) || Precedes(tracks, items[0], Item(i, Project(items, i)[0]))
  {
    hide Precedes;
    var k := ProjectionSource(items, i);
  }

  // ---- Clips are never short ----

  function Min(a: nat, b: nat): nat { if a <= b then a else b }

  /** Which cut a clip of length `d` starts at: the latest one at least `d` old, else the oldest. */
  lemma {:induction false} CutChosen(r: Ring, d: nat)
    requires Invariant(r)
    ensures ClipLast(r, d).Some? <==> r.cuts != []
    ensures r.cuts != [] ==>
              var tb, target, c := r.tracks[0].timebase, r.newest.value - d, ClipLast(r, d).value;
              exists at | 0 <= at < |r.cuts| ::
                && c == Clip(r.tracks, r.newest, r.cuts[at], ToNanos(r.cuts[at].dts, tb))
                && (forall j | at < j < |r.cuts| :: ToNanos(r.cuts[j].dts, tb) > target)
                && (c.origin <= target ||
                    (at == 0 && forall j | 0 <= j < |r.cuts| :: ToNanos(r.cuts[j].dts, tb) > target))
  {
    hide ToNanos, TotalBytes;
    if r.cuts != [] {
      FrontCut(r);
      var tb, target := r.tracks[0].timebase, r.newest.value - d;
      var later := CutsUpTo(r.cuts, tb, target);
      var at := if later == 0 then 0 else later - 1;
      forall j | later <= j < |r.cuts|
        ensures ToNanos(r.cuts[j].dts, tb) > target
      {
        assert later < j ==> r.cuts[later].dts <= r.cuts[j].dts;
        NanosMonotone(r.cuts[later].dts, r.cuts[j].dts, tb);
      }
      assert ClipLast(r, d).value == Clip(r.tracks, r.newest, r.cuts[at], ToNanos(r.cuts[at].dts, tb));
    }
  }

  /** A clip reaches at least as far back as asked, or as far as the ring does; and never further than the ring does. */
  lemma {:induction false} NeverShort(r: Ring, d: nat)
    requires Invariant(r) && r.cuts != []
    ensures ClipLast(r, d).Some?
    ensures Min(d, Span(r)) <= Duration(ClipLast(r, d).value) <= Span(r)
  {
    hide ToNanos, TotalBytes;
    CutChosen(r, d);
    FrontCut(r);
    var tb, c := r.tracks[0].timebase, ClipLast(r, d).value;
    var at :| 0 <= at < |r.cuts| && c == Clip(r.tracks, r.newest, r.cuts[at], ToNanos(r.cuts[at].dts, tb))
              && (c.origin <= r.newest.value - d || at == 0);
    assert at > 0 ==> r.cuts[0].dts <= r.cuts[at].dts;
    NanosMonotone(r.cuts[0].dts, r.cuts[at].dts, tb);
  }

  // ---- The first packet ----

  /** How many held packets of a track, from the oldest on, stand before the first that belongs. */
  function NotYet(c: Clip, i: nat, entries: seq<Entry>): (n: nat)
    requires i < |c.tracks|
    ensures n <= |entries| && forall k | 0 <= k < n :: !Belongs(c, i, entries[k])
    ensures n < |entries| ==> Belongs(c, i, entries[n])
  {
    if entries == [] || Belongs(c, i, entries[0]) then 0 else 1 + NotYet(c, i, entries[1..])
  }

  lemma {:induction false} SelectedHead(c: Clip, i: nat, entries: seq<Entry>)
    requires i < |c.tracks| && NotYet(c, i, entries) < |entries|
    ensures Selected(c, i, entries) != [] && Selected(c, i, entries)[0] == entries[NotYet(c, i, entries)]
  {
    hide Belongs;
    if !Belongs(c, i, entries[0]) {
      SelectedHead(c, i, entries[1..]);
    }
  }

  lemma {:induction false} SelectedBelongs(c: Clip, i: nat, entries: seq<Entry>)
    requires i < |c.tracks|
    ensures forall k | 0 <= k < |Selected(c, i, entries)| :: Belongs(c, i, Selected(c, i, entries)[k])
  {
    hide Belongs;
    if entries != [] {
      SelectedBelongs(c, i, entries[1..]);
    }
  }

  /** The cut's own keyframe belongs, so the anchor's part begins with a packet of its decode time. */
  lemma AnchorHead(c: Clip)
    requires ClipSorted(c) && Holds(c.tracks[0].entries, c.cut)
    ensures var entries := c.tracks[0].entries;
            var n := NotYet(c, 0, entries);
            n < |entries| && entries[n].meta.dts == c.cut.dts && entries[n].meta.pts >= c.cut.pts
            && Selected(c, 0, entries) != [] && Selected(c, 0, entries)[0] == entries[n]
  {
    hide ToNanos, Selected;
    var entries := c.tracks[0].entries;
    var k :| 0 <= k < |entries| && IsCut(entries[k], c.cut);
    assert Belongs(c, 0, entries[k]);
    SelectedHead(c, 0, entries);
  }

  /** The first item is the anchor's: no other track starts before the cut is presented. */
  lemma FirstItem(c: Clip)
    requires ClipSorted(c) && Holds(c.tracks[0].entries, c.cut) && c.cut.pts >= c.cut.dts
    ensures Items(c) != [] && Items(c)[0] == Item(0, c.tracks[0].entries[NotYet(c, 0, c.tracks[0].entries)])
  {
    hide ToNanos, Items, Selected, NotYet, Project, Ordered;
    var items := Items(c);
    ClipIsExactMerge(c);
    AnchorHead(c);
    NoItemsNoProjection(0);
    var i, entry := items[0].track, items[0].entry;
    HeadOfProjection(items);
    FirstPrecedesHead(c.tracks, items, 0);
    SelectedBelongs(c, i, c.tracks[i].entries);
    NanosMonotone(c.cut.dts, c.cut.pts, c.tracks[0].timebase);
  }

  /** No packet that belongs was pushed before the cut's keyframe. */
  predicate KeyframeLeads(entries: seq<Entry>, cut: CutPoint)
  {
    exists k | 0 <= k < |entries| :: IsCut(entries[k], cut)
      && forall j | 0 <= j < k :: entries[j].meta.dts < cut.dts || entries[j].meta.pts < cut.pts
  }

  predicate StrictlySorted(entries: seq<Entry>)
  {
    forall i, j | 0 <= i < j < |entries| :: entries[i].meta.dts < entries[j].meta.dts
  }

  /**
   The first packet of a clip decodes at zero. It is the cut's keyframe exactly when no packet of the same decode time
   that belongs was pushed before that keyframe; strictly increasing decode times are enough.
   */
  lemma {:induction false} FirstPacket(r: Ring, d: nat)
    requires Invariant(r) && r.cuts != []
    requires ClipLast(r, d).Some? && ClipLast(r, d).value.cut.pts >= ClipLast(r, d).value.cut.dts
    ensures var c := ClipLast(r, d).value;
            var out := Output(c);
            && out != [] && out[0].dts == 0 && out[0].pts >= c.cut.pts - c.cut.dts
            && (IsCut(Items(c)[0].entry, c.cut) <==> KeyframeLeads(r.tracks[0].entries, c.cut))
            && (KeyframeLeads(r.tracks[0].entries, c.cut) ==> out[0].isKeyframe && out[0].pts == c.cut.pts - c.cut.dts)
            && (StrictlySorted(r.tracks[0].entries) ==> KeyframeLeads(r.tracks[0].entries, c.cut))
  {
    hide Items, Invariant, Holds, NotYet, KeyframeLeads, StrictlySorted, IsCut;
    InvariantHasTracks(r);
    var c := ClipLast(r, d).value;
    ChosenIsHeld(r, d);
    FirstItem(c);
    AnchorHead(c);
    LeadsIff(c);
    CutOutput(c);
  }

  lemma CutOutput(c: Clip)
    requires Items(c) != [] && Items(c)[0].track == 0 && c.tracks != []
    ensures Output(c) != [] && Output(c)[0].dts == Items(c)[0].entry.meta.dts - c.cut.dts
    ensures Output(c)[0].pts == Items(c)[0].entry.meta.pts - c.cut.dts
    ensures IsCut(Items(c)[0].entry, c.cut) ==> Output(c)[0].isKeyframe && Output(c)[0].pts == c.cut.pts - c.cut.dts
  {
    hide Items;
  }

  lemma LeadsIff(c: Clip)
    requires ClipSorted(c) && Holds(c.tracks[0].entries, c.cut)
    ensures var entries := c.tracks[0].entries;
            var n := NotYet(c, 0, entries);
            && (n < |entries| && IsCut(entries[n], c.cut) <==> KeyframeLeads(entries, c.cut))
            && (StrictlySorted(entries) ==> KeyframeLeads(entries, c.cut))
  {
    hide ToNanos, Selected;
    AnchorHead(c);
    var entries := c.tracks[0].entries;
    var k := KeyframeIndex(entries, c.cut);
    assert Belongs(c, 0, entries[k]);
  }

  lemma KeyframeIndex(entries: seq<Entry>, cut: CutPoint) returns (k: nat)
    requires Holds(entries, cut)
    ensures k < |entries| && IsCut(entries[k], cut)
  {
    k :| 0 <= k < |entries| && IsCut(entries[k], cut);
  }

  const SECOND: Timebase := Rational(1, 1)

  /** An anchor packet in whole seconds. */
  function Frame(dts: I64, pts: I64, key: bool): RingOp
  {
    PushOp(PacketMeta(0, pts, dts, 1, key, false), Held([]))
  }

  /** A keyframe, a packet that decodes with the next keyframe but is pushed before it, and that keyframe. */
  const REPEATED: seq<RingOp> := [Frame(0, 0, true), Frame(5, 10, false), Frame(5, 5, true)]

  function EntryOf(op: RingOp): Entry
    requires op.PushOp?
  {
    Entry(op.meta, op.payload)
  }

  lemma Seconds(t: int)
    ensures ToNanos(t, SECOND) == t * NANOS_PER_SEC
  {
  }

  /** One push onto a ring of the anchor alone, all of it inside the window. */
  lemma PushRoomy(r: Ring, dts: I64, pts: I64, key: bool)
    requires |r.tracks| == 1 && r.tracks[0].id == 0 && r.tracks[0].timebase == SECOND && r.maxBytes.None?
    requires r.window == 100 * NANOS_PER_SEC && !Behind(r.tracks[0].entries, dts) && 0 <= dts < 100
    requires (key || r.cuts != []) && (r.newest.Some? ==> 0 <= r.newest.value <= dts * NANOS_PER_SEC)
    requires |r.cuts| >= 2 ==> r.cuts[1].dts >= 0
    ensures var op := Frame(dts, pts, key);
            Step(r, op).0 == Ring([Track(0, SECOND, r.tracks[0].entries + [EntryOf(op)])],
              if key then r.cuts + [CutPoint(dts, pts)] else r.cuts, r.window, None, r.bytes, Some(dts * NANOS_PER_SEC))
  {
    hide Evict, ToNanos;
    var op := Frame(dts, pts, key);
    Seconds(dts);
    assert PositionFrom(r.tracks, 0, 0) == 0;
    var after := Append(r, 0, op.meta, op.payload);
    if |after.cuts| >= 2 {
      Seconds(after.cuts[1].dts);
    }
    NothingToEvict(after);
  }

  lemma NothingToEvict(r: Ring)
    requires |r.tracks| > 0 && !MustEvict(r)
    ensures Evict(r) == r
  {
  }

  lemma RepeatedRun()
    ensures RunRing(100 * NANOS_PER_SEC, 0, SECOND, REPEATED)
            == Ring([Track(0, SECOND, [EntryOf(REPEATED[0]), EntryOf(REPEATED[1]), EntryOf(REPEATED[2])])],
                 [CutPoint(0, 0), CutPoint(5, 5)], 100 * NANOS_PER_SEC, None, 0, Some(5 * NANOS_PER_SEC))
  {
    hide Step, Invariant, RunRing, Fresh;
    var window: nat := 100 * NANOS_PER_SEC;
    assert REPEATED == [REPEATED[0]] + [REPEATED[1]] + [REPEATED[2]] && [] + [REPEATED[0]] == [REPEATED[0]];
    RunMore(window, [], REPEATED[0]);
    RunMore(window, [REPEATED[0]], REPEATED[1]);
    RunMore(window, [REPEATED[0]] + [REPEATED[1]], REPEATED[2]);
    FreshAnchor(window);
    var r := Ring([Track(0, SECOND, [])], [], window, None, 0, None);
    PushRoomy(r, 0, 0, true);
    PushRoomy(Step(r, REPEATED[0]).0, 5, 10, false);
    PushRoomy(Step(Step(r, REPEATED[0]).0, REPEATED[1]).0, 5, 5, true);
    var e, f, g := EntryOf(REPEATED[0]), EntryOf(REPEATED[1]), EntryOf(REPEATED[2]);
    assert [] + [e] == [e] && [e] + [f] == [e, f] && [e, f] + [g] == [e, f, g];
    assert [] + [CutPoint(0, 0)] == [CutPoint(0, 0)]
        && [CutPoint(0, 0)] + [CutPoint(5, 5)] == [CutPoint(0, 0), CutPoint(5, 5)];
  }

  lemma RunMore(window: nat, ops: seq<RingOp>, op: RingOp)
    ensures RunRing(window, 0, SECOND, ops + [op]) == Step(RunRing(window, 0, SECOND, ops), op).0
  {
    hide Step, Fresh;
    assert (ops + [op])[..|ops|] == ops;
  }

  lemma FreshAnchor(window: nat)
    ensures RunRing(window, 0, SECOND, []) == Ring([Track(0, SECOND, [])], [], window, None, 0, None)
  {
  }

  /** A clip need not begin with its keyframe: when decode times repeat, another packet can stand before it. */
  lemma KeyframeComesSecond()
    ensures var r := RunRing(100 * NANOS_PER_SEC, 0, SECOND, REPEATED);
            && ClipLast(r, 0).Some?
            && var c := ClipLast(r, 0).value;
            && c.cut == CutPoint(5, 5) && !KeyframeLeads(r.tracks[0].entries, c.cut)
            && Items(c) != [] && Items(c)[0] == Item(0, EntryOf(REPEATED[1])) && !Output(c)[0].isKeyframe
  {
    hide RunRing, Items, ToNanos, Invariant, CutsUpTo;
    RepeatedRun();
    var r := RunRing(100 * NANOS_PER_SEC, 0, SECOND, REPEATED);
    Seconds(0);
    Seconds(5);
    assert CutsUpTo(r.cuts, SECOND, 5 * NANOS_PER_SEC) == 2;
    var c := ClipLast(r, 0).value;
    ChosenIsHeld(r, 0);
    FirstItem(c);
    assert NotYet(c, 0, r.tracks[0].entries) == 1;
    CutOutput(c);
  }

  lemma ChosenIsHeld(r: Ring, d: nat)
    requires Invariant(r) && r.cuts != []
    ensures ClipLast(r, d).Some?
    ensures var c := ClipLast(r, d).value;
            c.tracks == r.tracks && r.tracks != [] && Holds(r.tracks[0].entries, c.cut) && ClipSorted(c)
            && c.origin == ToNanos(c.cut.dts, c.tracks[0].timebase)
  {
    hide ToNanos, TotalBytes, Holds;
    CutChosen(r, d);
    assert forall i | 0 <= i < |r.tracks| :: TrackOk(r.tracks[i], r.newest);
  }

  /** No packet of a clip decodes before zero when the cut's keyframe does not present before it decodes. */
  lemma {:induction false} NoNegativeDts(r: Ring, d: nat, k: nat)
    requires Invariant(r) && r.cuts != [] && ClipLast(r, d).Some?
    requires ClipLast(r, d).value.cut.pts >= ClipLast(r, d).value.cut.dts
    requires k < |Output(ClipLast(r, d).value)|
    ensures Output(ClipLast(r, d).value)[k].dts >= 0
  {
    hide Invariant, Holds, Merge, ToNanos;
    InvariantHasTracks(r);
    var c := ClipLast(r, d).value;
    ChosenIsHeld(r, d);
    ItemSource(c, k);
    ItemAfterOrigin(c, Items(c)[k]);
  }

  lemma ItemAfterOrigin(c: Clip, item: Item)
    requires item.track < |c.tracks| && c.cut.pts >= c.cut.dts && c.origin == ToNanos(c.cut.dts, c.tracks[0].timebase)
    requires !Before(item.entry, c.tracks[item.track].timebase, item.track == 0, c.cut, CutPts(c))
    ensures Rebased(c, item).dts >= 0
  {
    if item.track > 0 {
      var tb, dts := c.tracks[item.track].timebase, item.entry.meta.dts;
      NanosMonotone(c.cut.dts, c.cut.pts, c.tracks[0].timebase);
      TicksMonotone(c.origin, ToNanos(dts, tb), tb);
      TicksOfNanos(dts, tb);
    }
  }

  // ---- Sixty-four bits are enough ----

  lemma TicksNotNegative(nanos: int, tb: Timebase)
    requires nanos >= 0
    ensures ToTicks(nanos, tb) >= 0
  {
    MulMonotone(0, nanos, tb.den);
  }

  lemma ItemFits(c: Clip, item: Item)
    requires item.track < |c.tracks| && c.cut.pts >= c.cut.dts >= 0
             && c.origin == ToNanos(c.cut.dts, c.tracks[0].timebase)
    requires !Before(item.entry, c.tracks[item.track].timebase, item.track == 0, c.cut, CutPts(c)) && !Leading(c, item)
    requires item.track > 0 ==> item.entry.meta.pts >= item.entry.meta.dts
    ensures 0 <= Rebased(c, item).dts < I64_LIMIT && 0 <= Rebased(c, item).pts < I64_LIMIT
  {
    hide ToNanos, ToTicks;
    ItemAfterOrigin(c, item);
    OriginNotNegative(c.cut.dts, c.tracks[0].timebase);
    TicksNotNegative(c.origin, c.tracks[item.track].timebase);
  }

  lemma OriginNotNegative(dts: int, tb: Timebase)
    requires dts >= 0
    ensures ToNanos(dts, tb) >= 0
  {
    MulMonotone(0, dts, Scale(tb));
  }

  /**
   Rebasing subtracts in 64 bits. Nothing overflows when the cut's keyframe decodes at zero or later and does not
   present before it decodes, and no packet of another stream does either.
   */
  lemma {:induction false} RebasedFits(r: Ring, d: nat, k: nat)
    requires Invariant(r) && r.cuts != [] && ClipLast(r, d).Some?
    requires ClipLast(r, d).value.cut.pts >= ClipLast(r, d).value.cut.dts >= 0
    requires forall i | 1 <= i < |r.tracks| :: forall j | 0 <= j < |r.tracks[i].entries| ::
               r.tracks[i].entries[j].meta.pts >= r.tracks[i].entries[j].meta.dts
    requires k < |Output(ClipLast(r, d).value)|
    ensures 0 <= Output(ClipLast(r, d).value)[k].dts < I64_LIMIT && 0 <= Output(ClipLast(r, d).value)[k].pts < I64_LIMIT
  {
    hide Invariant, Holds, Merge, ToNanos, Leading, Skipped;
    InvariantHasTracks(r);
    var c := ClipLast(r, d).value;
    ChosenIsHeld(r, d);
    var item := Items(c)[k];
    ItemSource(c, k);
    ItemFits(c, item);
  }

  /** An item is a held packet, neither before the cut nor one of its leading pictures. */
  lemma ItemSource(c: Clip, k: nat)
    requires ClipSorted(c) && k < |Items(c)|
    ensures var item := Items(c)[k];
            && item.track < |c.tracks| && item.entry in c.tracks[item.track].entries && !Leading(c, item)
            && !Before(item.entry, c.tracks[item.track].timebase, item.track == 0, c.cut, CutPts(c))
  {
    hide Merge, ToNanos, Leading, Before, Skipped;
    var all, item := Merge(Timebases(c.tracks), Tails(c)), Items(c)[k];
    ShownWithin(c, all, k);
    var m :| 0 <= m < |all| && all[m] == item;
    ProjectedEntry(all, m);
    MergeProjects(Timebases(c.tracks), Tails(c), item.track);
    TailNotBefore(c, item.track);
    var j :| 0 <= j < |Tails(c)[item.track]| && Tails(c)[item.track][j] == item.entry;
    assert c.tracks[item.track].entries[Start(c, item.track) + j] == item.entry;
  }
}
