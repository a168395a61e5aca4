/** A clip's packets: each track from its own starting point, merged by decode time and rebased. */
module ReplayClip {
  import opened Bytes
  import opened ReplayTime
  import opened ReplaySpec

  // ---- Where each track starts ----

  /** Whether a packet comes before the cut: by decode order on the anchor, by decode time elsewhere. */
  predicate Before(e: Entry, tb: Timebase, anchor: bool, cut: CutPoint, cutPts: int)
  {
    if anchor then e.meta.dts < cut.dts else ToNanos(e.meta.dts, tb) < cutPts
  }

  function Skipped(entries: seq<Entry>, tb: Timebase, anchor: bool, cut: CutPoint, cutPts: int): (n: nat)
    ensures n <= |entries|
    ensures forall k | 0 <= k < n :: Before(entries[k], tb, anchor, cut, cutPts)
    ensures n < |entries| ==> !Before(entries[n], tb, anchor, cut, cutPts)
  {
    if entries != [] && Before(entries[0], tb, anchor, cut, cutPts)
    then 1 + Skipped(entries[1..], tb, anchor, cut, cutPts) else 0
  }

  function CutPts(c: Clip): int
    requires c.tracks != []
  {
    ToNanos(c.cut.pts, c.tracks[0].timebase)
  }

  function Start(c: Clip, i: nat): (n: nat)
    requires i < |c.tracks|
    ensures n <= |c.tracks[i].entries|
  {
    Skipped(c.tracks[i].entries, c.tracks[i].timebase, i == 0, c.cut, CutPts(c))
  }

  function Tails(c: Clip): (r: seq<seq<Entry>>)
    ensures |r| == |c.tracks|
  {
    seq(|c.tracks|, i requires 0 <= i < |c.tracks| => c.tracks[i].entries[Start(c, i)..])
  }

  function Timebases(tracks: seq<Track>): (r: seq<Timebase>)
    ensures |r| == |tracks|
  {
    seq(|tracks|, i requires 0 <= i < |tracks| => tracks[i].timebase)
  }

  // ---- The merge ----

  datatype Item = Item(track: nat, entry: Entry)

  function Key(e: Entry, tb: Timebase): int
  {
    ToNanos(e.meta.dts, tb)
  }

  /** The track, among the first `k`, whose head decodes first, the lower one on ties; `|tails|` when all are empty. */
  function LeastUpTo(tbs: seq<Timebase>, tails: seq<seq<Entry>>, k: nat): (n: nat)
    requires |tbs| == |tails| && k <= |tails|
    ensures n < k || n == |tails|
    ensures n < k ==> tails[n] != []
    ensures n == |tails| ==> forall i | 0 <= i < k :: tails[i] == []
    ensures n < k ==> forall i | 0 <= i < k && tails[i] != [] ::
              && Key(tails[n][0], tbs[n]) <= Key(tails[i][0], tbs[i])
              && (i < n ==> Key(tails[n][0], tbs[n]) < Key(tails[i][0], tbs[i]))
  {
    if k == 0 then |tails|
    else
      var b := LeastUpTo(tbs, tails, k - 1);
      if tails[k - 1] == [] then b
      else if b == |tails| || Key(tails[k - 1][0], tbs[k - 1]) < Key(tails[b][0], tbs[b]) then k - 1
      else b
  }

  function Left(tails: seq<seq<Entry>>): nat
  {
    if tails == [] then 0 else |tails[0]| + Left(tails[1..])
  }

  lemma {:induction false} LeftAfter(tails: seq<seq<Entry>>, n: nat)
    requires n < |tails| && tails[n] != []
    ensures Left(tails[n := tails[n][1..]]) == Left(tails) - 1
    decreases n
  {
    var after := tails[n := tails[n][1..]];
    if n == 0 {
      assert after[1..] == tails[1..];
    } else {
      assert after[1..] == tails[1..][n - 1 := tails[1..][n - 1][1..]];
      LeftAfter(tails[1..], n - 1);
    }
  }

  function Merge(tbs: seq<Timebase>, tails: seq<seq<Entry>>): seq<Item>
    requires |tbs| == |tails|
    decreases Left(tails)
  {
    var n := LeastUpTo(tbs, tails, |tails|);
    if n == |tails| then []
    else
      LeftAfter(tails, n);
      [Item(n, tails[n][0])] + Merge(tbs, tails[n := tails[n][1..]])
  }

  // ---- What comes out ----

  datatype ClipPacket = ClipPacket(
    streamId: nat, pts: int, dts: int, duration: nat, isKeyframe: bool, isDiscard: bool, payload: Payload)

  /** Shown before the cut though decoded no earlier: it may refer to frames the clip does not have. */
  predicate Leading(c: Clip, item: Item)
  {
    item.track == 0 && item.entry.meta.pts < c.cut.pts
  }

  function Offset(c: Clip, track: nat): int
    requires track < |c.tracks|
  {
    if track == 0 then c.cut.dts else ToTicks(c.origin, c.tracks[track].timebase)
  }

  function Rebased(c: Clip, item: Item): ClipPacket
    requires item.track < |c.tracks|
  {
    var m := item.entry.meta;
    ClipPacket(m.streamId, m.pts - Offset(c, item.track), m.dts - Offset(c, item.track), m.duration, m.isKeyframe,
               m.isDiscard, item.entry.payload)
  }

  predicate InTracks(c: Clip, items: seq<Item>)
  {
    forall k | 0 <= k < |items| :: items[k].track < |c.tracks|
  }

  /** The items that are not leading pictures. */
  function Shown(c: Clip, items: seq<Item>): (r: seq<Item>)
    ensures InTracks(c, items) ==> InTracks(c, r)
  {
    if items == [] then []
    else if Leading(c, items[0]) then Shown(c, items[1..])
    else [items[0]] + Shown(c, items[1..])
  }

  function RebasedAll(c: Clip, items: seq<Item>): (r: seq<ClipPacket>)
    requires InTracks(c, items)
    ensures |r| == |items|
  {
    seq(|items|, k requires 0 <= k < |items| => Rebased(c, items[k]))
  }

  lemma {:induction false} MergeInTracks(tbs: seq<Timebase>, tails: seq<seq<Entry>>)
    requires |tbs| == |tails|
    ensures forall k | 0 <= k < |Merge(tbs, tails)| :: Merge(tbs, tails)[k].track < |tails|
    decreases Left(tails)
  {
    var n := LeastUpTo(tbs, tails, |tails|);
    if n < |tails| {
      LeftAfter(tails, n);
      MergeInTracks(tbs, tails[n := tails[n][1..]]);
    }
  }

  function Items(c: Clip): (r: seq<Item>)
    ensures InTracks(c, r)
  {
    MergeInTracks(Timebases(c.tracks), Tails(c));
    Shown(c, Merge(Timebases(c.tracks), Tails(c)))
  }

  function Output(c: Clip): seq<ClipPacket>
  {
    RebasedAll(c, Items(c))
  }

  // ---- The iterator ----

  predicate Sorted(entries: seq<Entry>)
  {
    forall i, j | 0 <= i < j < |entries| :: entries[i].meta.dts <= entries[j].meta.dts
  }

  /** The first index from which packets no longer come before the cut, by bisection of a sorted queue. */
  method PartitionPoint(entries: seq<Entry>, tb: Timebase, anchor: bool, cut: CutPoint, cutPts: int) returns (n: nat)
    requires Sorted(entries)
    ensures n == Skipped(entries, tb, anchor, cut, cutPts)
  {
    hide ToNanos;
    var lo, hi := 0, |entries|;
    while lo < hi
      invariant 0 <= lo <= hi <= |entries|
      invariant forall k | 0 <= k < lo :: Before(entries[k], tb, anchor, cut, cutPts)
      invariant forall k | hi <= k < |entries| :: !Before(entries[k], tb, anchor, cut, cutPts)
    {
      var mid := (lo + hi) / 2;
      if Before(entries[mid], tb, anchor, cut, cutPts) {
        forall k | lo <= k <= mid
          ensures Before(entries[k], tb, anchor, cut, cutPts)
        {
          NanosMonotone(entries[k].meta.dts, entries[mid].meta.dts, tb);
        }
        lo := mid + 1;
      } else {
        forall k | mid <= k < hi
          ensures !Before(entries[k], tb, anchor, cut, cutPts)
        {
          NanosMonotone(entries[mid].meta.dts, entries[k].meta.dts, tb);
        }
        hi := mid;
      }
    }
    n := lo;
    BoundaryIsUnique(entries, tb, anchor, cut, cutPts, n);
  }

  lemma BoundaryIsUnique(entries: seq<Entry>, tb: Timebase, anchor: bool, cut: CutPoint, cutPts: int, n: nat)
    requires n <= |entries|
    requires forall k | 0 <= k < n :: Before(entries[k], tb, anchor, cut, cutPts)
    requires forall k | n <= k < |entries| :: !Before(entries[k], tb, anchor, cut, cutPts)
    ensures n == Skipped(entries, tb, anchor, cut, cutPts)
  {
    hide ToNanos, Before;
    var m := Skipped(entries, tb, anchor, cut, cutPts);
    assert m < |entries| ==> !Before(entries[m], tb, anchor, cut, cutPts);
    assert n < |entries| ==> !Before(entries[n], tb, anchor, cut, cutPts);
  }

  function CursorTails(tracks: seq<Track>, cursors: seq<nat>): (r: seq<seq<Entry>>)
    requires |cursors| == |tracks| && forall i | 0 <= i < |tracks| :: cursors[i] <= |tracks[i].entries|
    ensures |r| == |tracks|
  {
    seq(|tracks|, i requires 0 <= i < |tracks| => tracks[i].entries[cursors[i]..])
  }

  /** Yields a clip's packets one at a time; the clip is a borrowed, unchanging view of the ring. */
  class ClipEntries {
    const clip: Clip
    var cursors: seq<nat>

    ghost predicate Valid()
      reads this
    {
      |cursors| == |clip.tracks| && forall i | 0 <= i < |cursors| :: cursors[i] <= |clip.tracks[i].entries|
    }

    /** The items still to be merged, leading pictures included. */
    ghost function Pending(): (r: seq<Item>)
      requires Valid()
      reads this
      ensures InTracks(clip, r)
    {
      var tbs, tails := Timebases(clip.tracks), CursorTails(clip.tracks, cursors);
      MergeInTracks(tbs, tails);
      Merge(tbs, tails)
    }

    ghost function Remaining(): seq<ClipPacket>
      requires Valid()
      reads this
    {
      RebasedAll(clip, Shown(clip, Pending()))
    }

    constructor (c: Clip)
      requires c.tracks != [] && forall i | 0 <= i < |c.tracks| :: Sorted(c.tracks[i].entries)
      ensures Valid() && clip == c && Remaining() == Output(c)
    {
      clip := c;
      cursors := [];
      new;
      hide Merge, Skipped, Shown, RebasedAll;
      for i := 0 to |c.tracks|
        invariant clip == c && |cursors| == i
        invariant forall k | 0 <= k < i :: cursors[k] == Start(c, k)
      {
        var n := PartitionPoint(c.tracks[i].entries, c.tracks[i].timebase, i == 0, c.cut, CutPts(c));
        cursors := cursors + [n];
      }
      assert CursorTails(c.tracks, cursors) == Tails(c);
    }

    /** The next packet, or none when every track is used up. */
    method Next() returns (r: Option<ClipPacket>)
      requires Valid()
      modifies this
      ensures Valid()
      ensures old(Remaining()) == match r case None => [] case Some(p) => [p] + Remaining()
      ensures r.None? ==> Remaining() == []
    {
      hide Merge, RebasedAll, Offset, LeastUpTo;
      ghost var before := Remaining();
      while true
        invariant Valid() && Remaining() == before
        decreases |Pending()|
      {
        ghost var pending := Pending();
        var item := Advance();
        if item.None? {
          NoneShown(clip);
          return None;
        }
        if Leading(clip, item.value) {
          assert pending[1..] == Pending();
          continue;
        }
        assert pending[1..] == Pending();
        RebasedFirst(clip, item.value, Shown(clip, Pending()));
        return Some(Rebased(clip, item.value));
      }
    }

    /** Takes the head of the queue that goes next in the merge. */
    method Advance() returns (item: Option<Item>)
      requires Valid()
      modifies this
      ensures Valid()
      ensures old(Pending()) == match item case None => [] case Some(x) => [x] + Pending()
      ensures item.None? ==> cursors == old(cursors)
      ensures item.Some? ==> item.value.track < |clip.tracks|
    {
      hide Key, ToNanos;
      ghost var tbs, tails := Timebases(clip.tracks), CursorTails(clip.tracks, cursors);
      var best: Option<nat> := None;
      for i := 0 to |clip.tracks|
        invariant best == if LeastUpTo(tbs, tails, i) == |tails| then None else Some(LeastUpTo(tbs, tails, i))
      {
        var entries := clip.tracks[i].entries;
        if cursors[i] < |entries| {
          assert tails[i][0] == entries[cursors[i]];
          if best.None? {
            best := Some(i);
          } else {
            var b := best.value;
            assert tails[b][0] == clip.tracks[b].entries[cursors[b]];
            if Key(entries[cursors[i]], clip.tracks[i].timebase)
               < Key(clip.tracks[b].entries[cursors[b]], clip.tracks[b].timebase) {
              best := Some(i);
            }
          }
        }
      }
      if best.None? {
        return None;
      }
      var track := best.value;
      var entry := clip.tracks[track].entries[cursors[track]];
      cursors := cursors[track := cursors[track] + 1];
      assert CursorTails(clip.tracks, cursors) == tails[track := tails[track][1..]];
      return Some(Item(track, entry));
    }
  }

  lemma NoneShown(c: Clip)
    ensures RebasedAll(c, Shown(c, [])) == []
  {
  }

  lemma RebasedFirst(c: Clip, item: Item, rest: seq<Item>)
    requires item.track < |c.tracks| && InTracks(c, rest)
    ensures InTracks(c, [item] + rest) && RebasedAll(c, [item] + rest) == [Rebased(c, item)] + RebasedAll(c, rest)
  {
    hide Rebased;
  }

  /** All packets of a clip, in the order the iterator yields them. */
  method CollectClip(c: Clip) returns (packets: seq<ClipPacket>)
    requires c.tracks != [] && forall i | 0 <= i < |c.tracks| :: Sorted(c.tracks[i].entries)
    ensures packets == Output(c)
  {
    hide Output, ClipEntries.Remaining;
    var it := new ClipEntries(c);
    packets := [];
    while true
      invariant it.Valid() && fresh(it)
      invariant packets + it.Remaining() == Output(c)
      decreases |it.Remaining()|
    {
      ghost var left := it.Remaining();
      var p := it.Next();
      if p.None? {
        return;
      }
      assert packets + left == packets + [p.value] + it.Remaining();
      packets := packets + [p.value];
    }
  }
}
