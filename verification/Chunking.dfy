/** The reader's answer does not depend on how the stream was cut into pushes. */
module Chunking {
  import opened Bytes
  import opened Vint
  import opened Ids
  import opened DemuxSpec

  // ---- Bytes that arrive later ----

  predicate Waits(h: Header)
  {
    h.NoId? || h.IdOnly?
  }

  /** A header that did not wait for bytes stays as it is; one that had its ID keeps the ID. */
  lemma HeaderExtends(rest: seq<Byte>, more: seq<Byte>)
    ensures !Waits(ReadHeader(rest)) ==> ReadHeader(rest + more) == ReadHeader(rest)
    ensures ReadHeader(rest).IdOnly? ==>
              !ReadHeader(rest + more).NoId? && !ReadHeader(rest + more).BadId? &&
              ReadHeader(rest + more).id == ReadHeader(rest).id
  {
    hide IdAt, SizeAt;
    DecodersIgnoreWhatFollows(rest, more);
    if IdAt(rest).Ok? {
      var n := IdAt(rest).value.1;
      assert (rest + more)[n..] == rest[n..] + more;
      DecodersIgnoreWhatFollows(rest[n..], more);
    }
  }

  lemma {:induction false} FinishFeeds(s: State, more: seq<Byte>)
    ensures CloseFinished(Feed(s, more)) == Feed(CloseFinished(s), more)
    decreases |s.stack|
  {
    if TopFinished(s.stack, s.pos) {
      FinishFeeds(Pop(s), more);
      assert Pop(Feed(s, more)) == Feed(Pop(s), more);
    }
  }

  lemma {:induction false} SiblingFeeds(s: State, id: nat, more: seq<Byte>)
    ensures CloseBeforeSibling(Feed(s, more), id) == Feed(CloseBeforeSibling(s, id), more)
    decreases |s.stack|
  {
    if IsSegmentLevelChild(id) && TopUnknownCluster(s.stack) {
      SiblingFeeds(Pop(s), id, more);
      assert Pop(Feed(s, more)) == Feed(Pop(s), more);
    }
  }

  lemma EnterFeeds(s: State, id: nat, size: Option<nat>, len: nat, more: seq<Byte>)
    requires len <= |s.rest|
    ensures Enter(s, id, size, len).1
            ==> Enter(Feed(s, more), id, size, len) == (Feed(Enter(s, id, size, len).0, more), true)
    ensures Enter(s, id, size, len).0.halted && !s.halted ==>
              Enter(Feed(s, more), id, size, len) == (Feed(Enter(s, id, size, len).0, more), false)
  {
    hide HandleLeaf, OnOpen;
    assert (s.rest + more)[len..] == s.rest[len..] + more;
    if size.Some? && len + size.value <= |s.rest| {
      assert (s.rest + more)[len + size.value..] == s.rest[len + size.value..] + more;
      assert (s.rest + more)[len..len + size.value] == s.rest[len..len + size.value];
    }
  }

  /** A step that took an element in, or halted, does the same with more bytes behind it. */
  lemma StepFeeds(s: State, more: seq<Byte>)
    requires !s.halted
    ensures Step(s).1 ==> Step(Feed(s, more)) == (Feed(Step(s).0, more), true)
    ensures Step(s).0.halted ==> Step(Feed(s, more)) == (Feed(Step(s).0, more), false)
  {
    hide ReadHeader, Enter, CloseBeforeSibling;
    var h := ReadHeader(s.rest);
    HeaderExtends(s.rest, more);
    if !h.NoId? && !h.BadId? {
      RestKept(s, h.id);
      SiblingFeeds(s, h.id, more);
      if h.Complete? {
        EnterFeeds(CloseBeforeSibling(s, h.id), h.id, h.size, h.len, more);
      }
    }
  }

  // ---- Nesting ----

  /** Each element's end is at or before its parent's, unknown ends only over unknown ends. */
  predicate StackNested(stack: seq<OpenElement>)
  {
    forall i | 0 < i < |stack| :: Nests(stack[..i], stack[i].end)
  }

  lemma PushKeepsNesting(stack: seq<OpenElement>, e: OpenElement)
    requires StackNested(stack) && Nests(stack, e.end)
    ensures StackNested(stack + [e])
  {
    var all := stack + [e];
    forall i | 0 < i < |all|
      ensures Nests(all[..i], all[i].end)
    {
      if i == |stack| {
        assert all[..i] == stack;
      } else {
        assert all[..i] == stack[..i];
      }
    }
  }

  lemma PopKeepsNesting(stack: seq<OpenElement>)
    requires StackNested(stack) && stack != []
    ensures StackNested(stack[..|stack| - 1])
  {
    var front := stack[..|stack| - 1];
    forall i | 0 < i < |front|
      ensures Nests(front[..i], front[i].end)
    {
      assert front[..i] == stack[..i];
    }
  }

  /** On a nested stack the top's end is the earliest. */
  lemma {:induction false} TopEndsFirst(stack: seq<OpenElement>, i: nat)
    requires StackNested(stack) && i < |stack|
    ensures stack[i].end.Some? ==> Top(stack).end.Some? && Top(stack).end.value <= stack[i].end.value
    decreases |stack| - i
  {
    if i + 1 < |stack| {
      assert Nests(stack[..i + 1], stack[i + 1].end);
      assert Top(stack[..i + 1]) == stack[i];
      TopEndsFirst(stack, i + 1);
    }
  }

  lemma {:induction false} FinishKeepsNesting(s: State)
    requires StackNested(s.stack)
    ensures StackNested(CloseFinished(s).stack) && !TopFinished(CloseFinished(s).stack, s.pos)
    decreases |s.stack|
  {
    if TopFinished(s.stack, s.pos) {
      PopKeepsNesting(s.stack);
      FinishKeepsNesting(Pop(s));
    }
  }

  /** Under an unknown-size Cluster nothing has an end, so closing it finishes nothing. */
  lemma {:induction false} SiblingKeepsNesting(s: State, id: nat)
    requires StackNested(s.stack) && !TopFinished(s.stack, s.pos)
    ensures var r := CloseBeforeSibling(s, id);
            && StackNested(r.stack) && !TopFinished(r.stack, s.pos)
            && CloseBeforeSibling(r, id) == r
    decreases |s.stack|
  {
    if IsSegmentLevelChild(id) && TopUnknownCluster(s.stack) {
      PopKeepsNesting(s.stack);
      if |s.stack| > 1 {
        TopEndsFirst(s.stack, |s.stack| - 2);
      }
      SiblingKeepsNesting(Pop(s), id);
    }
  }

  lemma StepKeepsNesting(s: State)
    requires StackNested(s.stack) && !TopFinished(s.stack, s.pos)
    ensures Step(s).0.nested ==> s.nested && StackNested(Step(s).0.stack)
    ensures !Step(s).1 ==> !TopFinished(Step(s).0.stack, Step(s).0.pos) && StackNested(Step(s).0.stack)
  {
    hide ReadHeader, CloseBeforeSibling, HandleLeaf, OnOpen, StackNested;
    var h := ReadHeader(s.rest);
    if !h.NoId? && !h.BadId? {
      RestKept(s, h.id);
      SiblingKeepsNesting(s, h.id);
      var c := CloseBeforeSibling(s, h.id);
      if h.Complete? && IsDescendMaster(h.id) && Nests(c.stack, Top(Step(s).0.stack).end) {
        PushKeepsNesting(c.stack, Top(Step(s).0.stack));
      }
    }
  }

  /** A run that ends nested was nested all along, and leaves every open end ahead of the read position. */
  lemma {:induction false} RunNested(s: State)
    requires StackNested(s.stack) && Run(s).nested
    ensures s.nested
    ensures StackNested(Run(s).stack) && !TopFinished(Run(s).stack, Run(s).pos)
    decreases |s.rest|
  {
    hide Step, StackNested;
    FinishKept(s);
    FinishKeepsNesting(s);
    var c := CloseFinished(s);
    StepKeepsNesting(c);
    if Step(c).1 {
      RunStays(Step(c).0);
      RunNested(Step(c).0);
    }
  }

  /** The nesting record never recovers. */
  lemma {:induction false} RunStays(s: State)
    ensures Run(s).nested ==> s.nested
    decreases |s.rest|
  {
    FinishKept(s);
    var c := CloseFinished(s);
    StepStays(c);
    if Step(c).1 {
      RunStays(Step(c).0);
    }
  }

  lemma StepStays(s: State)
    ensures Step(s).0.nested ==> s.nested
  {
    hide ReadHeader, CloseBeforeSibling, HandleLeaf, OnOpen;
    var h := ReadHeader(s.rest);
    if !h.NoId? && !h.BadId? {
      RestKept(s, h.id);
    }
  }

  // ---- Pushing in two goes ----

  /** A step that only waits leaves a state from which the same step, given bytes, goes as if it had never waited. */
  lemma WaitingStep(c: State, more: seq<Byte>)
    requires !c.halted && StackNested(c.stack) && !TopFinished(c.stack, c.pos)
    requires !Step(c).1 && !Step(c).0.halted
    ensures var n := Step(c).0;
            CloseFinished(Feed(n, more)) == Feed(n, more) && Step(Feed(n, more)) == Step(Feed(c, more))
  {
    hide ReadHeader, CloseBeforeSibling, HandleLeaf, OnOpen, OnClose;
    var h := ReadHeader(c.rest);
    HeaderExtends(c.rest, more);
    if !h.NoId? && !h.BadId? {
      RestKept(c, h.id);
      SiblingKeepsNesting(c, h.id);
      SiblingFeeds(c, h.id, more);
      SiblingFeeds(CloseBeforeSibling(c, h.id), h.id, more);
      if h.Complete? {
        WaitingLeaf(c, h, more);
      }
    }
  }

  lemma WaitingLeaf(c: State, h: Header, more: seq<Byte>)
    requires h.Complete? && h == ReadHeader(c.rest) && !c.halted && !Step(c).1 && !Step(c).0.halted
    ensures Step(c).0 == CloseBeforeSibling(c, h.id)
  {
    RestKept(c, h.id);
  }

  lemma {:induction false} RunFeeds(s: State, more: seq<Byte>)
    requires !s.halted && StackNested(s.stack) && Run(Feed(s, more)).nested
    ensures Run(Feed(s, more)) == Pump(Feed(Run(s), more))
    decreases |s.rest|
  {
    hide Step, StackNested, CloseFinished;
    var c := CloseFinished(s);
    FinishKept(s);
    FinishKept(Feed(s, more));
    FinishFeeds(s, more);
    FinishKeepsNesting(s);
    StepFeeds(c, more);
    if Step(c).1 {
      StepNotHalted(c);
      FinishFeedsNesting(s, c, more);
      RunFeeds(Step(c).0, more);
    } else if !Step(c).0.halted {
      WaitingStep(c, more);
      FinishKept(Feed(Step(c).0, more));
    }
  }

  lemma FinishFeedsNesting(s: State, c: State, more: seq<Byte>)
    requires c == CloseFinished(s) && StackNested(c.stack) && !TopFinished(c.stack, c.pos) && !c.halted && Step(c).1
    requires Run(Feed(s, more)) == Run(Feed(Step(c).0, more)) && Run(Feed(s, more)).nested
    ensures StackNested(Step(c).0.stack)
  {
    RunStays(Feed(Step(c).0, more));
    StepKeepsNesting(c);
  }

  // ---- Any number of pushes ----

  /** The whole stream in one push that never drops anything. */
  function OnePass(bytes: seq<Byte>): State
  {
    Run(Feed(START, bytes))
  }

  predicate WellNested(bytes: seq<Byte>)
  {
    OnePass(bytes).nested
  }

  function Unbased(s: State): State
  {
    s.(base := 0)
  }

  lemma {:induction false} FinishUnbased(s: State)
    ensures CloseFinished(Unbased(s)) == Unbased(CloseFinished(s))
    decreases |s.stack|
  {
    if TopFinished(s.stack, s.pos) {
      FinishUnbased(Pop(s));
    }
  }

  lemma {:induction false} SiblingUnbased(s: State, id: nat)
    ensures CloseBeforeSibling(Unbased(s), id) == Unbased(CloseBeforeSibling(s, id))
    decreases |s.stack|
  {
    if IsSegmentLevelChild(id) && TopUnknownCluster(s.stack) {
      SiblingUnbased(Pop(s), id);
    }
  }

  lemma StepUnbased(s: State)
    ensures Step(Unbased(s)) == (Unbased(Step(s).0), Step(s).1)
  {
    hide ReadHeader, CloseBeforeSibling, HandleLeaf, OnOpen;
    var h := ReadHeader(s.rest);
    if !h.NoId? && !h.BadId? {
      RestKept(s, h.id);
      SiblingUnbased(s, h.id);
    }
  }

  lemma {:induction false} RunUnbased(s: State)
    ensures Run(Unbased(s)) == Unbased(Run(s))
    decreases |s.rest|
  {
    hide Step, CloseFinished;
    var c := CloseFinished(s);
    FinishKept(s);
    FinishKept(Unbased(s));
    FinishUnbased(s);
    StepUnbased(c);
    if Step(c).1 {
      RunUnbased(Step(c).0);
    }
  }

  /** Dropping the consumed prefix changes nothing but the base when every open end is still ahead. */
  lemma CompactRebases(s: State)
    requires StackNested(s.stack) && !TopFinished(s.stack, s.pos)
    ensures Unbased(Compact(s)) == Unbased(s)
    ensures s.base <= s.pos ==> Compact(s).base <= s.pos
    ensures forall i | 0 <= i < |s.stack| && s.stack[i].end.Some? :: Compact(s).stack[i].end.value > s.pos
  {
    forall i | 0 <= i < |s.stack|
      ensures WrapEnd(s.stack[i], s.pos) == s.stack[i]
      ensures s.stack[i].end.Some? ==> s.stack[i].end.value > s.pos
    {
      TopEndsFirst(s.stack, i);
    }
    assert WrapEnds(s.stack, s.pos) == s.stack;
  }

  lemma PushUnbased(s: State, chunk: seq<Byte>, once: State)
    requires Unbased(s) == Unbased(once) && StackNested(once.stack)
    requires Pump(Feed(once, chunk)).nested && !TopFinished(once.stack, once.pos)
    ensures Unbased(Push(s, chunk)) == Unbased(Pump(Feed(once, chunk)))
    ensures StackNested(Push(s, chunk).stack) && !TopFinished(Push(s, chunk).stack, Push(s, chunk).pos)
    ensures forall i | 0 <= i < |Push(s, chunk).stack| && Push(s, chunk).stack[i].end.Some? ::
              Push(s, chunk).stack[i].end.value > Push(s, chunk).pos
  {
    hide Run, Step;
    var f, g := Feed(s, chunk), Feed(once, chunk);
    assert Unbased(f) == Unbased(g);
    if !f.halted {
      RunUnbased(f);
      RunUnbased(g);
      RunNested(g);
    }
    CompactRebases(Pump(f));
  }

  /**
   For every well-nested stream and every way of cutting it into pushes, the reader ends where one pass over the whole
   stream ends: same elements understood, same frames, same open elements, same unread bytes. And no compaction ever
   leaves an open element's end at or below the offset dropped.
   */
  lemma {:induction false} ChunkingInvariance(chunks: seq<seq<Byte>>)
    requires WellNested(Concat(chunks))
    ensures Unbased(PushAll(chunks)) == Unbased(OnePass(Concat(chunks)))
    ensures forall i | 0 <= i < |PushAll(chunks).stack| && PushAll(chunks).stack[i].end.Some? ::
              PushAll(chunks).stack[i].end.value > PushAll(chunks).pos >= PushAll(chunks).base
    decreases |chunks|
  {
    hide Run, Step, Push;
    if chunks == [] {
      EmptyRun();
    } else {
      var front, last := chunks[..|chunks| - 1], chunks[|chunks| - 1];
      var whole := Concat(front);
      assert Feed(Feed(START, whole), last) == Feed(START, whole + last);
      RunPrefixNested(Feed(START, whole), last);
      RunFeeds(Feed(START, whole), last);
      ChunkingInvariance(front);
      RunNested(Feed(START, whole));
      PushUnbased(PushAll(front), last, OnePass(whole));
      BaseBehind(chunks);
    }
  }

  lemma EmptyRun()
    ensures Run(Feed(START, [])) == START
  {
    assert Feed(START, []) == START;
    assert CloseFinished(START) == START;
    assert Step(START) == (START, false);
  }

  /** If a stream is well nested, so is every prefix of it. */
  lemma {:induction false} RunPrefixNested(s: State, more: seq<Byte>)
    requires !s.halted && StackNested(s.stack) && Run(Feed(s, more)).nested
    ensures Run(s).nested
    decreases |s.rest|
  {
    hide Run, Step;
    RunFeeds(s, more);
    if !Run(s).halted {
      RunStays(Feed(Run(s), more));
    }
  }

  lemma {:induction false} BaseBehind(chunks: seq<seq<Byte>>)
    ensures PushAll(chunks).base <= PushAll(chunks).pos
    decreases |chunks|
  {
    hide Step, CloseFinished;
    if chunks != [] {
      var front := chunks[..|chunks| - 1];
      BaseBehind(front);
      RunBase(Feed(PushAll(front), chunks[|chunks| - 1]));
    }
  }

  lemma {:induction false} RunBase(s: State)
    ensures Run(s).base == s.base && Run(s).pos >= s.pos
    decreases |s.rest|
  {
    hide CloseFinished;
    FinishKept(s);
    var c := CloseFinished(s);
    StepBase(c);
    if Step(c).1 {
      RunBase(Step(c).0);
    }
  }

  lemma StepBase(s: State)
    ensures Step(s).0.base == s.base && Step(s).0.pos >= s.pos
  {
    hide ReadHeader, CloseBeforeSibling, HandleLeaf, OnOpen;
    var h := ReadHeader(s.rest);
    if !h.NoId? && !h.BadId? {
      RestKept(s, h.id);
    }
  }

  // ---- The buffer ----

  /**
   After a push the buffer has no consumed part, or one below 64 KiB that is less than half the buffer; bytes are only
   dropped once consumed, and all of them then.
   */
  lemma {:induction false} ConsumedIsBounded(s: State, chunk: seq<Byte>)
    requires s.base <= s.pos
    ensures var r := Push(s, chunk);
            && r.base <= r.pos && (r.base == s.base || r.base == r.pos)
            && (r.base == r.pos || (r.pos - r.base < 0x1_0000 && 2 * (r.pos - r.base) < r.pos - r.base + |r.rest|))
            && (r.pos - s.base < 0x1_0000 && 2 * (r.pos - s.base) < r.pos - s.base + |r.rest| ==> r.base == s.base)
  {
    hide Run, WrapEnds;
    if !s.halted {
      RunAdvances(Feed(s, chunk));
    }
  }

  lemma {:induction false} RunAdvances(s: State)
    ensures Run(s).pos >= s.pos && Run(s).base == s.base
    decreases |s.rest|
  {
    hide Step, CloseFinished;
    FinishKept(s);
    var c := CloseFinished(s);
    StepAdvances(c);
    if Step(c).1 {
      RunAdvances(Step(c).0);
    }
  }

  lemma StepAdvances(s: State)
    ensures Step(s).0.pos >= s.pos && Step(s).0.base == s.base
  {
    hide ReadHeader, CloseBeforeSibling, HandleLeaf, OnOpen;
    var h := ReadHeader(s.rest);
    if !h.NoId? && !h.BadId? {
      RestKept(s, h.id);
    }
  }

  /**
   Compaction keeps every open end at its distance from the read position, told in 64 bits: an end that lies ahead stays
   where it is, and one already passed comes to lie 2 to the 64 further on.
   */
  lemma {:induction false} EndsAreRebased(s: State, i: nat)
    requires i < |s.stack| && (s.stack[i].end.Some? ==> s.pos - s.stack[i].end.value <= U64_LIMIT)
    ensures |Compact(s).stack| == |s.stack|
    ensures var e, c := s.stack[i], Compact(s).stack[i];
            && c.id == e.id && (c.end.None? <==> e.end.None?)
            && (e.end.Some? ==>
                  c.end.value == if Compact(s).base == s.base || e.end.value >= s.pos then e.end.value
                                 else e.end.value + 0x1_0000_0000_0000_0000)
  {
  }
}
