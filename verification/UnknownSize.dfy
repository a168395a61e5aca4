/** A Cluster means the same whether its size is explicit or unknown: section 6.2 of RFC 8794. */
module UnknownSize {
  import opened Bytes
  import opened Vint
  import opened Ids
  import opened DemuxSpec
  import opened Chunking

  // ---- Two readers, one of which knows where the Cluster ends ----

  /**
   How the two stacks correspond: the same unknown-size ancestors, the Cluster in question as long as each reader holds
   it, and above it the same elements, whose ends differ by the difference in length of the two size fields.
   */
  datatype Layout = Layout(
    ancestors: seq<OpenElement>, known: Option<nat>, unknown: bool, over: seq<OpenElement>, overTwin: seq<OpenElement>)

  function KnownPart(x: Layout): seq<OpenElement>
  {
    if x.known.Some? then [OpenElement(CLUSTER, x.known)] else []
  }

  function UnknownPart(x: Layout): seq<OpenElement>
  {
    if x.unknown then [OpenElement(CLUSTER, None)] else []
  }

  predicate SameElement(e: OpenElement, f: OpenElement, d: int)
  {
    e.id == f.id && e.end.Some? == f.end.Some? && (e.end.Some? ==> f.end.value == e.end.value + d)
  }

  predicate AllUnknown(stack: seq<OpenElement>)
  {
    forall i | 0 <= i < |stack| :: stack[i].end == None
  }

  predicate Stacks(s: seq<OpenElement>, t: seq<OpenElement>, x: Layout, d: int)
  {
    && s == x.ancestors + KnownPart(x) + x.over
    && t == x.ancestors + UnknownPart(x) + x.overTwin
    && |x.over| == |x.overTwin|
    && (forall i | 0 <= i < |x.over| :: SameElement(x.over[i], x.overTwin[i], d))
    && AllUnknown(x.ancestors)
    && !TopUnknownCluster(x.ancestors) && !Asks(TopId(x.ancestors))
  }

  /** The elements whose sub-elements count only inside them. */
  predicate Asks(top: Option<nat>)
  {
    || top == Some(VIDEO) || top == Some(AUDIO) || top == Some(CUE_POINT) || top == Some(CUE_TRACK_POSITIONS)
    || top == Some(SEEK)
  }

  predicate Twins(s: State, t: State, x: Layout, d: int)
  {
    && s.rest == t.rest && s.core == t.core && s.halted == t.halted && t.pos == s.pos + d
    && (s.nested ==> t.nested)
    && Stacks(s.stack, t.stack, x, d)
  }

  lemma TwinTops(s: seq<OpenElement>, t: seq<OpenElement>, x: Layout, d: int)
    requires Stacks(s, t, x, d)
    ensures x.over != [] ==> s != [] && t != [] && SameElement(Top(s), Top(t), d)
    ensures x.over == [] && x.known.Some? ==> s != [] && Top(s) == OpenElement(CLUSTER, x.known)
    ensures x.over == [] && x.known.None? ==>
              s == x.ancestors && !TopUnknownCluster(s) && (s != [] ==> Top(s).end.None?)
    ensures x.over == [] && x.unknown ==> TopUnknownCluster(t)
    ensures x.over == [] && !x.unknown ==> t == x.ancestors && !TopUnknownCluster(t) && (t != [] ==> Top(t).end.None?)
  {
  }

  /** Later on the same ancestors are open; the Cluster is as it was, or closed in either reader. */
  predicate Continues(x: Layout, y: Layout)
  {
    y.ancestors == x.ancestors && (y.known.Some? ==> y.known == x.known) && (y.unknown ==> x.unknown)
  }

  lemma PopBoth(s: State, t: State, x: Layout, d: int) returns (y: Layout)
    requires Twins(s, t, x, d) && x.over != []
    ensures s.stack != [] && t.stack != [] && Twins(Pop(s), Pop(t), y, d) && Continues(x, y)
  {
    hide Stacks, OnClose, SameElement;
    TwinTops(s.stack, t.stack, x, d);
    SameIds(s.stack, t.stack, d);
    DropOver(s.stack, t.stack, x, d);
    var n := |x.over| - 1;
    y := x.(over := x.over[..n], overTwin := x.overTwin[..n]);
  }

  lemma SameIds(s: seq<OpenElement>, t: seq<OpenElement>, d: int)
    requires s != [] && t != [] && SameElement(Top(s), Top(t), d)
    ensures Top(s).id == Top(t).id
  {
  }

  lemma DropOver(s: seq<OpenElement>, t: seq<OpenElement>, x: Layout, d: int)
    requires Stacks(s, t, x, d) && x.over != []
    ensures var n := |x.over| - 1;
            && s != [] && t != [] && |x.overTwin| == |x.over|
            && Stacks(s[..|s| - 1], t[..|t| - 1], x.(over := x.over[..n], overTwin := x.overTwin[..n]), d)
  {
    hide SameElement;
    var n := |x.over| - 1;
    var y := x.(over := x.over[..n], overTwin := x.overTwin[..n]);
    assert s[..|s| - 1] == y.ancestors + KnownPart(y) + y.over;
    assert t[..|t| - 1] == y.ancestors + UnknownPart(y) + y.overTwin;
  }

  lemma DropCluster(s: seq<OpenElement>, t: seq<OpenElement>, x: Layout, d: int)
    requires Stacks(s, t, x, d) && x.over == []
    ensures x.known.Some? ==> s != [] && Stacks(s[..|s| - 1], t, x.(known := None), d)
    ensures x.unknown ==> t != [] && Stacks(s, t[..|t| - 1], x.(unknown := false), d)
  {
    hide SameElement;
    if x.known.Some? {
      var y := x.(known := None);
      assert s[..|s| - 1] == y.ancestors + KnownPart(y) + y.over;
    }
    if x.unknown {
      var y := x.(unknown := false);
      assert t[..|t| - 1] == y.ancestors + UnknownPart(y) + y.overTwin;
    }
  }

  lemma {:induction false} FinishTwins(s: State, t: State, x: Layout, d: int) returns (y: Layout)
    requires Twins(s, t, x, d)
    ensures Twins(CloseFinished(s), CloseFinished(t), y, d) && Continues(x, y)
    decreases |s.stack|
  {
    hide OnClose, Stacks;
    TwinTops(s.stack, t.stack, x, d);
    if x.over != [] && TopFinished(s.stack, s.pos) {
      y := PopBoth(s, t, x, d);
      y := FinishTwins(Pop(s), Pop(t), y, d);
    } else if x.over == [] && x.known.Some? && TopFinished(s.stack, s.pos) {
      y := x.(known := None);
      ClosingClusterIsSilent(s);
      DropCluster(s.stack, t.stack, x, d);
      y := FinishTwins(Pop(s), t, y, d);
    } else {
      y := x;
    }
  }

  lemma ClosingClusterIsSilent(s: State)
    requires s.stack != [] && Top(s.stack).id == CLUSTER
    ensures Pop(s) == s.(stack := s.stack[..|s.stack| - 1])
  {
  }

  lemma {:induction false} SiblingTwins(s: State, t: State, id: nat, x: Layout, d: int) returns (y: Layout)
    requires Twins(s, t, x, d)
    ensures Twins(CloseBeforeSibling(s, id), CloseBeforeSibling(t, id), y, d) && Continues(x, y)
    decreases |t.stack|
  {
    hide OnClose, Stacks;
    TwinTops(s.stack, t.stack, x, d);
    if !IsSegmentLevelChild(id) {
      y := x;
    } else if x.over != [] && TopUnknownCluster(s.stack) {
      y := PopBoth(s, t, x, d);
      y := SiblingTwins(Pop(s), Pop(t), id, y, d);
    } else if x.over == [] && x.unknown {
      y := x.(unknown := false);
      ClosingClusterIsSilent(t);
      DropCluster(s.stack, t.stack, x, d);
      y := SiblingTwins(s, Pop(t), id, y, d);
    } else {
      y := x;
    }
  }

  lemma OpenTwins(s: State, t: State, id: nat, size: Option<nat>, len: nat, x: Layout, d: int) returns (y: Layout)
    requires Twins(s, t, x, d) && len <= |s.rest|
    ensures Twins(Open(s, id, size, len), Open(t, id, size, len), y, d) && Continues(x, y)
  {
    hide OnOpen, Stacks;
    TwinTops(s.stack, t.stack, x, d);
    var e, f := Top(Open(s, id, size, len).stack), Top(Open(t, id, size, len).stack);
    y := x.(over := x.over + [e], overTwin := x.overTwin + [f]);
    PushTwins(s.stack, t.stack, x, d, e, f);
  }

  lemma PushTwins(s: seq<OpenElement>, t: seq<OpenElement>, x: Layout, d: int, e: OpenElement, f: OpenElement)
    requires Stacks(s, t, x, d) && SameElement(e, f, d)
    ensures Stacks(s + [e], t + [f], x.(over := x.over + [e], overTwin := x.overTwin + [f]), d)
  {
    var y := x.(over := x.over + [e], overTwin := x.overTwin + [f]);
    assert s + [e] == y.ancestors + KnownPart(y) + y.over;
    assert t + [f] == y.ancestors + UnknownPart(y) + y.overTwin;
  }

  lemma LeafAsks(core: Core, p: Option<nat>, q: Option<nat>, id: nat, body: seq<Byte>)
    requires p == q || (!Asks(p) && !Asks(q))
    ensures HandleLeaf(core, p, id, body) == HandleLeaf(core, q, id, body)
  {
    hide BlockLeaf, ReadUint, FromBigEndian;
  }

  lemma EnterTwins(s: State, t: State, id: nat, size: Option<nat>, len: nat, x: Layout, d: int) returns (y: Layout)
    requires Twins(s, t, x, d) && len <= |s.rest|
    ensures Twins(Enter(s, id, size, len).0, Enter(t, id, size, len).0, y, d)
    ensures Enter(s, id, size, len).1 == Enter(t, id, size, len).1 && Continues(x, y)
  {
    hide HandleLeaf, Open;
    y := x;
    if IsDescendMaster(id) {
      y := OpenTwins(s, t, id, size, len, x, d);
    } else if size.Some? && len + size.value <= |s.rest| {
      TwinTops(s.stack, t.stack, x, d);
      LeafAsks(s.core, TopId(s.stack), TopId(t.stack), id, s.rest[len..len + size.value]);
    }
  }

  lemma StepTwins(s: State, t: State, x: Layout, d: int) returns (y: Layout)
    requires Twins(s, t, x, d)
    ensures Twins(Step(s).0, Step(t).0, y, d) && Step(s).1 == Step(t).1 && Continues(x, y)
  {
    hide ReadHeader, Enter, CloseBeforeSibling;
    var h := ReadHeader(s.rest);
    y := x;
    if !h.NoId? && !h.BadId? {
      RestKept(s, h.id);
      RestKept(t, h.id);
      y := SiblingTwins(s, t, h.id, x, d);
      if h.Complete? {
        y := EnterTwins(CloseBeforeSibling(s, h.id), CloseBeforeSibling(t, h.id), h.id, h.size, h.len, y, d);
      }
    }
  }

  lemma {:induction false} RunTwins(s: State, t: State, x: Layout, d: int) returns (y: Layout)
    requires Twins(s, t, x, d)
    ensures Twins(Run(s), Run(t), y, d) && Continues(x, y)
    decreases |s.rest|
  {
    hide Step, CloseFinished;
    FinishKept(s);
    FinishKept(t);
    y := FinishTwins(s, t, x, d);
    var c, e := CloseFinished(s), CloseFinished(t);
    y := StepTwins(c, e, y, d);
    if Step(c).1 {
      y := RunTwins(Step(c).0, Step(e).0, y, d);
    }
  }

  // ---- Replacing the size field ----

  /** A pass that stopped for want of bytes goes on when they come. */
  lemma {:induction false} RunResumes(s: State, more: seq<Byte>)
    requires !s.halted && Run(s).rest == [] && !Run(s).halted
    ensures Run(Feed(s, more)) == Run(Feed(Run(s), more))
    decreases |s.rest|
  {
    hide Step, CloseFinished;
    FinishKept(s);
    FinishKept(Feed(s, more));
    var c := CloseFinished(s);
    FinishFeeds(s, more);
    StepFeeds(c, more);
    if Step(c).1 {
      StepNotHalted(c);
      RunResumes(Step(c).0, more);
    } else {
      StoppedEmpty(c);
      FinishTwice(s);
      FinishFeeds(c, more);
    }
  }

  lemma {:induction false} FinishTwice(s: State)
    ensures CloseFinished(CloseFinished(s)) == CloseFinished(s)
    decreases |s.stack|
  {
    if TopFinished(s.stack, s.pos) {
      FinishTwice(Pop(s));
    }
  }

  lemma StoppedEmpty(s: State)
    requires !Step(s).1 && Step(s).0.rest == [] && !Step(s).0.halted
    ensures Step(s).0 == s
  {
    hide CloseBeforeSibling, HandleLeaf, OnOpen;
    var h := ReadHeader(s.rest);
    if !h.NoId? && !h.BadId? {
      RestKept(s, h.id);
    }
  }

  /** A Cluster header with the given size field. */
  function ClusterHeader(field: seq<Byte>): seq<Byte>
  {
    IdBytes(CLUSTER) + field
  }

  lemma ClusterHeaderRead(field: seq<Byte>, after: seq<Byte>)
    requires SizeAt(field).Ok? && SizeAt(field).value.1 == |field|
    ensures var size := SizeAt(field).value.0;
            ReadHeader(ClusterHeader(field) + after) ==
            Complete(CLUSTER, if size.unknown then None else Some(size.value), 4 + |field|)
  {
    hide SizeAt, IdAt, IdBytes;
    var bytes := ClusterHeader(field) + after;
    assert bytes == IdBytes(CLUSTER) + (field + after);
    IdRoundTrip(CLUSTER, field + after);
    assert bytes[4..] == field + after;
    DecodersIgnoreWhatFollows(field, after);
  }

  lemma Resume(before: seq<Byte>, more: seq<Byte>)
    requires OnePass(before).rest == [] && !OnePass(before).halted
    ensures OnePass(before + more) == Run(Feed(OnePass(before), more))
  {
    hide Run;
    assert Feed(Feed(START, before), more) == Feed(START, before + more);
    RunResumes(Feed(START, before), more);
  }

  /** The open elements once the unknown-size Clusters on top have closed. */
  function Bare(stack: seq<OpenElement>): (r: seq<OpenElement>)
    ensures !TopUnknownCluster(r)
    ensures AllUnknown(stack) ==> AllUnknown(r)
  {
    if TopUnknownCluster(stack) then Bare(stack[..|stack| - 1]) else stack
  }

  /** Only unknown-size elements are open, and a Cluster here stands in none whose sub-elements are its own. */
  predicate UnderUnknown(stack: seq<OpenElement>)
  {
    AllUnknown(stack) && !Asks(TopId(Bare(stack)))
  }

  lemma {:induction false} SiblingUnderUnknown(s: State)
    requires AllUnknown(s.stack)
    ensures CloseBeforeSibling(s, CLUSTER) == s.(stack := Bare(s.stack)) && CloseFinished(s) == s
    decreases |s.stack|
  {
    if TopUnknownCluster(s.stack) {
      ClosingClusterIsSilent(s);
      SiblingUnderUnknown(Pop(s));
    }
  }

  /** A Cluster's header takes its place above whatever is left open. */
  function Entered(s: State, fieldLen: nat, size: VintSize, after: seq<Byte>): State
  {
    var start := s.pos + 4 + fieldLen;
    var end := if size.unknown then None else Some(start + size.value);
    s.(pos := start, rest := after, core := OnOpen(s.core, CLUSTER),
       stack := Bare(s.stack) + [OpenElement(CLUSTER, end)])
  }

  lemma OpenCluster(s: State, field: seq<Byte>, after: seq<Byte>)
    requires AllUnknown(s.stack) && s.rest == ClusterHeader(field) + after && !s.halted
    requires SizeAt(field).Ok? && SizeAt(field).value.1 == |field|
    ensures Run(s) == Run(Entered(s, |field|, SizeAt(field).value.0, after))
  {
    hide SizeAt, ReadHeader, CloseFinished, CloseBeforeSibling, Bare, Open, Entered, AllUnknown, Leaf;
    ClusterHeaderRead(field, after);
    SiblingUnderUnknown(s);
    OpenIsEntered(s, |field|, SizeAt(field).value.0, after);
    assert Step(s) == (Entered(s, |field|, SizeAt(field).value.0, after), true);
  }

  lemma OpenIsEntered(s: State, n: nat, size: VintSize, after: seq<Byte>)
    requires AllUnknown(s.stack) && 4 + n <= |s.rest| && s.rest[4 + n..] == after
    ensures Open(s.(stack := Bare(s.stack)), CLUSTER, if size.unknown then None else Some(size.value), 4 + n)
            == Entered(s, n, size, after)
  {
    hide OnOpen, Bare, Nests;
    NestsAnywhere(Bare(s.stack), if size.unknown then None else Some(s.pos + 4 + n + size.value));
  }

  lemma NestsAnywhere(stack: seq<OpenElement>, end: Option<nat>)
    requires AllUnknown(stack)
    ensures Nests(stack, end)
  {
  }

  /** The same understood, the same left unread, the same halt, and nesting kept. */
  predicate Alike(s: State, t: State)
  {
    s.core == t.core && s.rest == t.rest && s.halted == t.halted && (s.nested ==> t.nested)
  }

  /** What a size field must be for a Cluster's explicit size, and the place it must be in, to be written as unknown. */
  predicate Replaceable(before: seq<Byte>, field: seq<Byte>, width: nat)
  {
    && OnePass(before).rest == [] && !OnePass(before).halted && UnderUnknown(OnePass(before).stack)
    && SizeAt(field).Ok? && SizeAt(field).value.1 == |field| && !SizeAt(field).value.0.unknown && 1 <= width <= 8
  }

  /** What the two readers of a Cluster have open at the end; its body begins at `start` where its size is explicit. */
  predicate OpenAlike(before: State, start: nat, size: nat, s: State, t: State, x: Layout, d: int)
  {
    && Stacks(s.stack, t.stack, x, d) && x.ancestors == Bare(before.stack)
    && (x.known.Some? ==> x.known.value == start + size)
  }

  ghost predicate SomehowOpenAlike(before: State, start: nat, size: nat, s: State, t: State, d: int)
  {
    exists x :: OpenAlike(before, start, size, s, t, x, d)
  }

  /**
   With only unknown-size elements open, writing a Cluster's size as unknown, in any width, changes nothing of what is
   understood, whatever the Cluster holds and whatever comes after it. At the end both readers have open what was open
   around the Cluster, perhaps the Cluster, with its end in one of them, and above it the same elements, whose ends
   differ by the difference in length of the two size fields.
   */
  lemma {:induction false} UnknownSizeCluster(before: seq<Byte>, field: seq<Byte>, width: nat, after: seq<Byte>)
    requires Replaceable(before, field, width)
    ensures var s, size := OnePass(before), SizeAt(field).value.0.value;
            var explicit := OnePass(before + ClusterHeader(field) + after);
            var open := OnePass(before + ClusterHeader(UnknownBytes(width)) + after);
            && Alike(explicit, open)
            && SomehowOpenAlike(s, s.pos + 4 + |field|, size, explicit, open, width - |field|)
  {
    hide SizeAt, Run, UnknownBytes, OnOpen, Bare, OnePass;
    var s, unknown := OnePass(before), UnknownBytes(width);
    Resume(before, ClusterHeader(field) + after);
    Resume(before, ClusterHeader(unknown) + after);
    assert before + (ClusterHeader(field) + after) == before + ClusterHeader(field) + after;
    assert before + (ClusterHeader(unknown) + after) == before + ClusterHeader(unknown) + after;
    UnknownDecodes(width, []);
    assert unknown + [] == unknown;
    OpenCluster(Feed(s, ClusterHeader(field) + after), field, after);
    OpenCluster(Feed(s, ClusterHeader(unknown) + after), unknown, after);
    var x := EnteredTwins(s, |field|, SizeAt(field).value.0, width, SizeAt(unknown).value.0, after);
    var explicit := OnePass(before + ClusterHeader(field) + after);
    var open := OnePass(before + ClusterHeader(unknown) + after);
    assert OpenAlike(s, s.pos + 4 + |field|, SizeAt(field).value.0.value, explicit, open, x, width - |field|);
  }

  /** Two readers that have just entered the Cluster, one of them knowing its size, stay alike to the end. */
  lemma EnteredTwins(s: State, n: nat, size: VintSize, m: nat, unknown: VintSize, after: seq<Byte>)
    returns (y: Layout)
    requires UnderUnknown(s.stack) && !size.unknown && unknown.unknown
    ensures Twins(Run(Entered(s, n, size, after)), Run(Entered(s, m, unknown, after)), y, m - n)
    ensures y.ancestors == Bare(s.stack) && (y.known.Some? ==> y.known.value == s.pos + 4 + n + size.value)
  {
    hide Run, OnOpen, Bare;
    var a, b := Entered(s, n, size, after), Entered(s, m, unknown, after);
    var x := Layout(Bare(s.stack), Some(s.pos + 4 + n + size.value), true, [], []);
    assert a.stack == x.ancestors + KnownPart(x) + x.over;
    assert b.stack == x.ancestors + UnknownPart(x) + x.overTwin;
    y := RunTwins(a, b, x, m - n);
  }

  // ---- Any number of Clusters at once ----

  /** A stream in pieces: plain bytes, and Cluster headers with a size field and, where that is to go, a width. */
  datatype Piece = Plain(bytes: seq<Byte>) | ClusterStart(field: seq<Byte>, width: Option<nat>)

  function PieceBytes(p: Piece, open: bool): seq<Byte>
    requires p.ClusterStart? && p.width.Some? ==> 1 <= p.width.value <= 8
  {
    match p
    case Plain(bytes) => bytes
    case ClusterStart(field, width) => ClusterHeader(if open && width.Some? then UnknownBytes(width.value) else field)
  }

  predicate GoodWidths(pieces: seq<Piece>)
  {
    forall i | 0 <= i < |pieces| :: pieces[i].ClusterStart? && pieces[i].width.Some? ==> 1 <= pieces[i].width.value <= 8
  }

  /** The stream with the first `k` pieces as they are and unknown sizes from there on. */
  function Spelled(pieces: seq<Piece>, k: nat): seq<Byte>
    requires GoodWidths(pieces)
  {
    if pieces == [] then []
    else
      var n := |pieces| - 1;
      Spelled(pieces[..n], k) + PieceBytes(pieces[n], n >= k)
  }

  /** Every size field that is to go may go, judged by the stream as it is. */
  ghost predicate AllReplaceable(pieces: seq<Piece>)
    requires GoodWidths(pieces)
  {
    forall i | 0 <= i < |pieces| :: pieces[i].ClusterStart? && pieces[i].width.Some? ==>
      Replaceable(Spelled(pieces[..i], i), pieces[i].field, pieces[i].width.value)
  }

  lemma {:induction false} SpelledAround(pieces: seq<Piece>, k: nat) returns (after: seq<Byte>)
    requires GoodWidths(pieces) && k < |pieces|
    ensures Spelled(pieces, k + 1) == Spelled(pieces[..k], k) + PieceBytes(pieces[k], false) + after
    ensures Spelled(pieces, k) == Spelled(pieces[..k], k) + PieceBytes(pieces[k], true) + after
    decreases |pieces|
  {
    hide PieceBytes;
    var n := |pieces| - 1;
    if k == n {
      after := [];
      SpelledSame(pieces[..n], k);
    } else {
      var front := SpelledAround(pieces[..n], k);
      after := front + PieceBytes(pieces[n], true);
      assert pieces[..n][..k] == pieces[..k];
    }
  }

  lemma {:induction false} SpelledSame(pieces: seq<Piece>, k: nat)
    requires GoodWidths(pieces) && |pieces| <= k
    ensures Spelled(pieces, k + 1) == Spelled(pieces, k)
  {
    hide PieceBytes;
    if pieces != [] {
      SpelledSame(pieces[..|pieces| - 1], k);
    }
  }

  /** From the last piece back, one size field after the other. */
  lemma {:induction false} ReplacedFrom(pieces: seq<Piece>, k: nat)
    requires GoodWidths(pieces) && AllReplaceable(pieces) && k <= |pieces|
    ensures Alike(OnePass(Spelled(pieces, |pieces|)), OnePass(Spelled(pieces, k)))
    decreases |pieces| - k
  {
    hide OnePass, Spelled, UnknownBytes, Replaceable;
    if k < |pieces| {
      ReplacedFrom(pieces, k + 1);
      var after := SpelledAround(pieces, k);
      if pieces[k].ClusterStart? && pieces[k].width.Some? {
        UnknownSizeCluster(Spelled(pieces[..k], k), pieces[k].field, pieces[k].width.value, after);
      }
    }
  }

  /**
   Writing any set of a stream's Clusters with unknown sizes, each in any width, changes nothing of what is understood
   or left unread, and a well-nested stream stays well nested.
   */
  lemma {:induction false} UnknownSizeClusters(pieces: seq<Piece>)
    requires GoodWidths(pieces) && AllReplaceable(pieces)
    ensures Alike(OnePass(Spelled(pieces, |pieces|)), OnePass(Spelled(pieces, 0)))
  {
    ReplacedFrom(pieces, 0);
  }

  /** The same, however either stream is cut into pushes. */
  lemma {:induction false} UnknownSizeClustersInChunks(
    pieces: seq<Piece>, explicitChunks: seq<seq<Byte>>, openChunks: seq<seq<Byte>>)
    requires GoodWidths(pieces) && AllReplaceable(pieces)
    requires Concat(explicitChunks) == Spelled(pieces, |pieces|) && Concat(openChunks) == Spelled(pieces, 0)
    requires WellNested(Concat(explicitChunks))
    ensures Alike(PushAll(explicitChunks), PushAll(openChunks))
  {
    hide OnePass, PushAll, Spelled, AllReplaceable;
    UnknownSizeClusters(pieces);
    ChunkingInvariance(explicitChunks);
    ChunkingInvariance(openChunks);
  }

  // ---- Unknown-size Clusters never stack up ----

  predicate NoStackedClusters(stack: seq<OpenElement>)
  {
    forall i | 0 < i < |stack| ::
      !(stack[i - 1] == OpenElement(CLUSTER, None) && stack[i] == OpenElement(CLUSTER, None))
  }

  lemma {:induction false} FinishUnstacked(s: State)
    requires NoStackedClusters(s.stack)
    ensures NoStackedClusters(CloseFinished(s).stack)
    decreases |s.stack|
  {
    hide OnClose;
    if TopFinished(s.stack, s.pos) {
      FinishUnstacked(Pop(s));
    }
  }

  lemma {:induction false} SiblingUnstacked(s: State, id: nat)
    requires NoStackedClusters(s.stack)
    ensures var c := CloseBeforeSibling(s, id);
            NoStackedClusters(c.stack) && (id == CLUSTER ==> !TopUnknownCluster(c.stack))
    decreases |s.stack|
  {
    hide OnClose;
    if IsSegmentLevelChild(id) && TopUnknownCluster(s.stack) {
      SiblingUnstacked(Pop(s), id);
    }
  }

  lemma StepUnstacked(s: State)
    requires NoStackedClusters(s.stack)
    ensures NoStackedClusters(Step(s).0.stack)
  {
    hide ReadHeader, CloseBeforeSibling, HandleLeaf, OnOpen;
    var h := ReadHeader(s.rest);
    if !h.NoId? && !h.BadId? {
      RestKept(s, h.id);
      SiblingUnstacked(s, h.id);
    }
  }

  lemma {:induction false} RunUnstacked(s: State)
    requires NoStackedClusters(s.stack)
    ensures NoStackedClusters(Run(s).stack)
    decreases |s.rest|
  {
    hide Step, CloseFinished;
    FinishKept(s);
    FinishUnstacked(s);
    var c := CloseFinished(s);
    StepUnstacked(c);
    if Step(c).1 {
      RunUnstacked(Step(c).0);
    }
  }

  /** For any bytes in any chunks, no unknown-size Cluster is ever open directly on another. */
  lemma {:induction false} ClustersNeverStack(chunks: seq<seq<Byte>>)
    ensures NoStackedClusters(PushAll(chunks).stack)
    decreases |chunks|
  {
    hide Run;
    if chunks != [] {
      ClustersNeverStack(chunks[..|chunks| - 1]);
      var f := Feed(PushAll(chunks[..|chunks| - 1]), chunks[|chunks| - 1]);
      if !f.halted {
        RunUnstacked(f);
      }
    }
  }
}
