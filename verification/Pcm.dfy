/** The pull side of the audio path: blocks in, samples and clock spans out, and the clock drain that turns
    the device position back into media time. All times count frames of 1/48000 s. */
module Pcm {
  datatype Frame = Frame(left: int, right: int)

  /** Decoded frames; the first one plays at media time `media`. */
  datatype Block = Block(media: int, frames: seq<Frame>)

  /** `frames` output frames from `output` on play the media from `media` on. */
  datatype Span = Span(output: nat, frames: nat, media: int)

  // --- What the blocks say, frame by frame ---

  /** All frames of the blocks in order. */
  function Flat(blocks: seq<Block>): seq<Frame> {
    if blocks == [] then [] else blocks[0].frames + Flat(blocks[1..])
  }

  function Count(media: int, frames: nat): (r: seq<int>)
    ensures |r| == frames && forall i :: 0 <= i < frames ==> r[i] == media + i
  {
    seq(frames, i => media + i)
  }

  /** The media time of each of these frames. */
  function Times(blocks: seq<Block>): seq<int> {
    if blocks == [] then [] else Count(blocks[0].media, |blocks[0].frames|) + Times(blocks[1..])
  }

  lemma {:induction false} TimesCoverFrames(blocks: seq<Block>)
    ensures |Times(blocks)| == |Flat(blocks)|
  {
    if blocks != [] {
      TimesCoverFrames(blocks[1..]);
    }
  }

  /** The media times that clock spans report, output frame by output frame. */
  function Reported(spans: seq<Span>): seq<int> {
    if spans == [] then [] else Count(spans[0].media, spans[0].frames) + Reported(spans[1..])
  }

  /** The spans follow each other without gap from `from` to `to`. */
  predicate Tiles(spans: seq<Span>, from: nat, to: nat) {
    if spans == [] then from == to
    else spans[0].output == from && Tiles(spans[1..], from + spans[0].frames, to)
  }

  /** A position in a queue of blocks: `offset` frames of the first one are already played. */
  predicate Position(queue: seq<Block>, offset: nat) {
    offset > 0 ==> queue != [] && offset < |queue[0].frames|
  }

  function Rest(queue: seq<Block>, offset: nat): seq<Frame>
    requires Position(queue, offset)
  {
    if queue == [] then [] else queue[0].frames[offset..] + Flat(queue[1..])
  }

  function RestTimes(queue: seq<Block>, offset: nat): seq<int>
    requires Position(queue, offset)
  {
    if queue == [] then [] else Count(queue[0].media, |queue[0].frames|)[offset..] + Times(queue[1..])
  }

  // --- One call of the device ---

  datatype Pulled = Pulled(data: seq<Frame>, spans: seq<Span>, queue: seq<Block>, offset: nat)

  function Min(a: nat, b: nat): nat {
    if a < b then a else b
  }

  /** The place in the queue `count` frames further on within the first block. */
  function NextQueue(queue: seq<Block>, offset: nat, count: nat): (r: seq<Block>)
    requires queue != [] && Position(queue, offset) && offset + count <= |queue[0].frames|
    ensures Position(r, NextOffset(queue, offset, count))
  {
    if offset + count == |queue[0].frames| then queue[1..] else queue
  }

  function NextOffset(queue: seq<Block>, offset: nat, count: nat): nat
    requires queue != [] && Position(queue, offset) && offset + count <= |queue[0].frames|
  {
    if offset + count == |queue[0].frames| then 0 else offset + count
  }

  /** What the first block contributes to a request, and the queue after it. */
  datatype Taken = Taken(piece: seq<Frame>, span: Span, queue: seq<Block>, offset: nat)

  function Take(queue: seq<Block>, offset: nat, want: nat, output: nat): (t: Taken)
    requires queue != [] && Position(queue, offset)
    ensures Position(t.queue, t.offset) && |t.piece| <= want && (|t.queue| < |queue| || |t.piece| == want)
  {
    var count := Min(|queue[0].frames| - offset, want);
    Taken(queue[0].frames[offset..offset + count],
          Span(output, count, queue[0].media + offset),
          NextQueue(queue, offset, count),
          NextOffset(queue, offset, count))
  }

  function Prepend(frames: seq<Frame>, spans: seq<Span>, rest: Pulled): Pulled {
    Pulled(frames + rest.data, spans + rest.spans, rest.queue, rest.offset)
  }

  /** A request for `want` frames at output position `output`, of which the clock queue takes `room` spans
      before it refuses one. */
  function Pull(queue: seq<Block>, offset: nat, want: nat, room: nat, output: nat): Pulled
    requires Position(queue, offset)
    decreases |queue|, want
  {
    if want == 0 || queue == [] || room == 0 then Pulled([], [], queue, offset)
    else
      var t := Take(queue, offset, want, output);
      Prepend(t.piece, [t.span], Pull(t.queue, t.offset, want - |t.piece|, room - 1, output + |t.piece|))
  }

  lemma Regroup<T>(a: seq<T>, b: seq<T>, c: seq<T>)
    ensures (a + b) + c == a + (b + c)
  {
  }

  lemma Chain<T>(a: seq<T>, b: seq<T>, c: seq<T>, bc: seq<T>, abc: seq<T>)
    requires b + c == bc && abc == a + bc
    ensures (a + b) + c == abc
  {
    Regroup(a, b, c);
  }

  lemma SplitAt<T>(s: seq<T>, i: nat, j: nat, tail: seq<T>)
    requires i <= j <= |s|
    ensures s[i..] + tail == s[i..j] + (s[j..] + tail)
    ensures j == |s| ==> s[i..] + tail == s[i..j] + tail
  {
    assert s[i..] == s[i..j] + s[j..];
    Regroup(s[i..j], s[j..], tail);
  }

  lemma RestOfAll(queue: seq<Block>)
    ensures Rest(queue, 0) == Flat(queue) && RestTimes(queue, 0) == Times(queue)
  {
    if queue != [] {
      assert queue[0].frames[0..] == queue[0].frames;
      var times := Count(queue[0].media, |queue[0].frames|);
      assert times[0..] == times;
    }
  }

  lemma TakeFrames(queue: seq<Block>, offset: nat, want: nat, output: nat)
    requires queue != [] && Position(queue, offset)
    ensures var t := Take(queue, offset, want, output);
            Rest(queue, offset) == t.piece + Rest(t.queue, t.offset)
  {
    var frames, tail := queue[0].frames, Flat(queue[1..]);
    var t := Take(queue, offset, want, output);
    var next := offset + |t.piece|;
    SplitAt(frames, offset, next, tail);
    if next == |frames| {
      RestOfAll(queue[1..]);
      assert Rest(t.queue, t.offset) == tail;
    } else {
      assert Rest(t.queue, t.offset) == frames[next..] + tail;
    }
  }

  lemma TakeTimes(queue: seq<Block>, offset: nat, want: nat, output: nat)
    requires queue != [] && Position(queue, offset)
    ensures var t := Take(queue, offset, want, output);
            && RestTimes(queue, offset) == Count(t.span.media, t.span.frames) + RestTimes(t.queue, t.offset)
            && t.span.output == output && t.span.frames == |t.piece|
  {
    var times, tail := Count(queue[0].media, |queue[0].frames|), Times(queue[1..]);
    var t := Take(queue, offset, want, output);
    var next := offset + |t.piece|;
    CountSlice(queue[0].media, |queue[0].frames|, offset, |t.piece|);
    SplitAt(times, offset, next, tail);
    if next == |times| {
      RestOfAll(queue[1..]);
      assert RestTimes(t.queue, t.offset) == tail;
    } else {
      assert RestTimes(t.queue, t.offset) == times[next..] + tail;
    }
  }

  lemma CountSlice(media: int, frames: nat, offset: nat, count: nat)
    requires offset + count <= frames
    ensures Count(media, frames)[offset..offset + count] == Count(media + offset, count)
  {
  }

  /** A request stops short only if there are no more blocks or the clock queue is full. */
  lemma {:induction false} PullStopsShort(queue: seq<Block>, offset: nat, want: nat, room: nat, output: nat)
    requires Position(queue, offset)
    ensures var p := Pull(queue, offset, want, room, output);
            && Position(p.queue, p.offset)
            && |p.data| <= want && |p.spans| <= room
            && (|p.data| < want ==> p.queue == [] || |p.spans| == room)
    decreases |queue|, want
  {
    if want > 0 && queue != [] && room > 0 {
      var t := Take(queue, offset, want, output);
      PullStopsShort(t.queue, t.offset, want - |t.piece|, room - 1, output + |t.piece|);
    }
  }

  /** A request delivered the next frames and no others, left the rest, and its spans give each frame its
      media time. */
  ghost predicate Exact(queue: seq<Block>, offset: nat, p: Pulled) {
    && Position(queue, offset) && Position(p.queue, p.offset)
    && p.data + Rest(p.queue, p.offset) == Rest(queue, offset)
    && Reported(p.spans) + RestTimes(p.queue, p.offset) == RestTimes(queue, offset)
  }

  lemma NothingIsExact(queue: seq<Block>, offset: nat)
    requires Position(queue, offset)
    ensures Exact(queue, offset, Pulled([], [], queue, offset))
  {
    assert [] + Rest(queue, offset) == Rest(queue, offset);
    assert Reported([]) + RestTimes(queue, offset) == RestTimes(queue, offset);
  }

  lemma TakeIsExact(queue: seq<Block>, offset: nat, want: nat, output: nat, rest: Pulled)
    requires queue != [] && Position(queue, offset)
    requires Exact(Take(queue, offset, want, output).queue, Take(queue, offset, want, output).offset, rest)
    ensures Exact(queue, offset, Prepend(Take(queue, offset, want, output).piece, [Take(queue, offset, want, output).span], rest))
  {
    var t := Take(queue, offset, want, output);
    var times := Count(t.span.media, t.span.frames);
    TakeFrames(queue, offset, want, output);
    TakeTimes(queue, offset, want, output);
    Chain(t.piece, rest.data, Rest(rest.queue, rest.offset), Rest(t.queue, t.offset), Rest(queue, offset));
    Chain(times, Reported(rest.spans), RestTimes(rest.queue, rest.offset), RestTimes(t.queue, t.offset), RestTimes(queue, offset));
    assert ([t.span] + rest.spans)[1..] == rest.spans;
  }

  lemma PullStep(queue: seq<Block>, offset: nat, want: nat, room: nat, output: nat)
    requires Position(queue, offset) && want > 0 && queue != [] && room > 0
    ensures var t := Take(queue, offset, want, output);
            Pull(queue, offset, want, room, output)
            == Prepend(t.piece, [t.span], Pull(t.queue, t.offset, want - |t.piece|, room - 1, output + |t.piece|))
  {
  }

  lemma {:induction false} PullIsExact(queue: seq<Block>, offset: nat, want: nat, room: nat, output: nat)
    requires Position(queue, offset)
    ensures Exact(queue, offset, Pull(queue, offset, want, room, output))
    decreases |queue|, want
  {
    if want == 0 || queue == [] || room == 0 {
      NothingIsExact(queue, offset);
    } else {
      var t := Take(queue, offset, want, output);
      var rest := Pull(t.queue, t.offset, want - |t.piece|, room - 1, output + |t.piece|);
      PullIsExact(t.queue, t.offset, want - |t.piece|, room - 1, output + |t.piece|);
      TakeIsExact(queue, offset, want, output, rest);
      PullStep(queue, offset, want, room, output);
    }
  }

  lemma {:induction false} PullTiles(queue: seq<Block>, offset: nat, want: nat, room: nat, output: nat)
    requires Position(queue, offset)
    ensures var p := Pull(queue, offset, want, room, output);
            Tiles(p.spans, output, output + |p.data|)
    decreases |queue|, want
  {
    if want > 0 && queue != [] && room > 0 {
      var t := Take(queue, offset, want, output);
      PullTiles(t.queue, t.offset, want - |t.piece|, room - 1, output + |t.piece|);
      var rest := Pull(t.queue, t.offset, want - |t.piece|, room - 1, output + |t.piece|);
      assert ([t.span] + rest.spans)[1..] == rest.spans;
    }
  }

  /** The spans of one call tile exactly the output it produced. */
  lemma PullTells(queue: seq<Block>, offset: nat, want: nat, room: nat, output: nat)
    requires Position(queue, offset)
    ensures var p := Pull(queue, offset, want, room, output);
            && Tiles(p.spans, output, output + |p.data|)
            && |Reported(p.spans)| == |p.data|
  {
    var p := Pull(queue, offset, want, room, output);
    PullTiles(queue, offset, want, room, output);
    TilesSize(p.spans, output, output + |p.data|);
  }

  // --- The clock ---

  /** The position shown, and the end of the newest span that was looked at. */
  datatype Shown = Shown(position: int, lastEnd: nat, lastMedia: int)

  datatype Drained = Drained(shown: Shown, spans: seq<Span>)

  function End(span: Span): Shown {
    Shown(span.media + span.frames, span.output + span.frames, span.media + span.frames)
  }

  /** Draining stops at the first span that is not completely played. */
  function Drain(spans: seq<Span>, played: nat, shown: Shown): Drained {
    if spans == [] then Drained(shown, [])
    else if played < spans[0].output then Drained(End(spans[0]).(position := shown.position), spans)
    else
      var offset := Min(played - spans[0].output, spans[0].frames);
      var next := End(spans[0]).(position := spans[0].media + offset);
      if offset < spans[0].frames then Drained(next, spans) else Drain(spans[1..], played, next)
  }

  /** Of contiguous spans the drain reports the media time of the played frame, or the end if all is played. */
  lemma {:induction false} DrainReportsPlayed(spans: seq<Span>, from: nat, to: nat, played: nat, shown: Shown)
    requires Tiles(spans, from, to) && from <= played
    ensures from <= to && |Reported(spans)| == to - from
    ensures var d := Drain(spans, played, shown);
            && (played < to ==> d.shown.position == Reported(spans)[played - from])
            && (played >= to ==> d.spans == [])
            && (played >= to && spans != [] ==> d.shown == End(spans[|spans| - 1]) && d.shown.lastEnd == to)
  {
    TilesSize(spans, from, to);
    if spans != [] {
      TilesSize(spans[1..], from + spans[0].frames, to);
      var offset := Min(played - spans[0].output, spans[0].frames);
      if offset == spans[0].frames {
        var next := End(spans[0]).(position := spans[0].media + offset);
        DrainReportsPlayed(spans[1..], from + spans[0].frames, to, played, next);
      }
    }
  }

  /** A drain leaves the spans from the first that is not completely played on, and remembers the end of the last one
      it looked at; before the first span begins it shows what was shown. */
  lemma {:induction false} DrainNotes(spans: seq<Span>, played: nat, shown: Shown)
    requires forall i :: 0 <= i < |spans| ==> spans[i].frames > 0
    ensures var d := Drain(spans, played, shown);
            && |d.spans| <= |spans| && d.spans == spans[|spans| - |d.spans|..]
            && (forall i :: 0 <= i < |spans| - |d.spans| ==> spans[i].output + spans[i].frames <= played)
            && (d.spans != [] ==>
                  && played < d.spans[0].output + d.spans[0].frames
                  && d.shown.lastEnd == d.spans[0].output + d.spans[0].frames
                  && d.shown.lastMedia == d.spans[0].media + d.spans[0].frames)
            && (d.spans == [] && spans != [] ==> d.shown == End(spans[|spans| - 1]))
            && (spans != [] && played < spans[0].output ==> d.shown.position == shown.position)
            && (spans == [] ==> d.shown == shown)
  {
    if spans != [] && played >= spans[0].output && Min(played - spans[0].output, spans[0].frames) == spans[0].frames {
      DrainNotes(spans[1..], played, End(spans[0]).(position := spans[0].media + spans[0].frames));
    }
  }

  lemma {:induction false} TilesSize(spans: seq<Span>, from: nat, to: nat)
    requires Tiles(spans, from, to)
    ensures from <= to && |Reported(spans)| == to - from
  {
    if spans != [] {
      TilesSize(spans[1..], from + spans[0].frames, to);
    }
  }

  /** What is left after a drain starts no later than the played frame and still tiles to the end. */
  lemma {:induction false} DrainKeepsTiling(spans: seq<Span>, from: nat, to: nat, played: nat, shown: Shown)
    returns (rest: nat)
    requires Tiles(spans, from, to) && from <= played
    ensures from <= rest <= to && rest <= played && Tiles(Drain(spans, played, shown).spans, rest, to)
    ensures rest - from <= |Reported(spans)|
    ensures Reported(Drain(spans, played, shown).spans) == Reported(spans)[rest - from..]
  {
    TilesSize(spans, from, to);
    rest := from;
    if spans != [] {
      var offset := Min(played - spans[0].output, spans[0].frames);
      if offset == spans[0].frames {
        var next := End(spans[0]).(position := spans[0].media + offset);
        rest := DrainKeepsTiling(spans[1..], from + spans[0].frames, to, played, next);
        assert Reported(spans)[rest - from..] == Reported(spans[1..])[rest - from - spans[0].frames..];
      }
    }
  }

  // --- Whole runs ---

  /** `pushed`, `delivered` and `reported` are history: all blocks so far, all frames the device received,
      and the last position shown. `played` is the device's latest position. */
  datatype State = State(
    pushed: seq<Block>,
    queue: seq<Block>,
    offset: nat,
    delivered: seq<Frame>,
    clock: seq<Span>,
    played: nat,
    shown: Shown)

  datatype Event =
    | Push(block: Block)
    | Request(want: nat, room: nat)
    | Tick(played: nat)

  /** The device plays forward, and only what it received. */
  predicate Enabled(s: State, e: Event) {
    e.Tick? ==> s.played <= e.played <= |s.delivered|
  }

  function Apply(s: State, e: Event): (t: State)
    requires Position(s.queue, s.offset) && Enabled(s, e)
    ensures Position(t.queue, t.offset)
  {
    match e
    case Push(block) => s.(pushed := s.pushed + [block], queue := s.queue + [block])
    case Request(want, room) =>
      PullStopsShort(s.queue, s.offset, want, room, |s.delivered|);
      var p := Pull(s.queue, s.offset, want, room, |s.delivered|);
      s.(queue := p.queue, offset := p.offset, delivered := s.delivered + p.data, clock := s.clock + p.spans)
    case Tick(played) =>
      var d := Drain(s.clock, played, s.shown);
      s.(clock := d.spans, played := played, shown := d.shown)
  }

  ghost predicate Inv(s: State) {
    && Position(s.queue, s.offset)
    && s.delivered + Rest(s.queue, s.offset) == Flat(s.pushed)
    && exists from: nat :: Clocked(s, from)
  }

  /** The queued spans cover what is delivered but not yet drained, with the media times of the blocks. */
  ghost predicate Clocked(s: State, from: nat) {
    && from <= s.played <= |s.delivered| <= |Times(s.pushed)|
    && Tiles(s.clock, from, |s.delivered|)
    && Reported(s.clock) == Times(s.pushed)[from..|s.delivered|]
    && Position(s.queue, s.offset)
    && RestTimes(s.queue, s.offset) == Times(s.pushed)[|s.delivered|..]
  }

  lemma {:induction false} FlatAppend(a: seq<Block>, b: Block)
    ensures Flat(a + [b]) == Flat(a) + b.frames
    ensures Times(a + [b]) == Times(a) + Count(b.media, |b.frames|)
  {
    if a == [] {
      assert (a + [b])[1..] == [];
    } else {
      FlatAppend(a[1..], b);
      assert (a + [b])[1..] == a[1..] + [b];
    }
  }

  lemma RestAppend(a: seq<Block>, offset: nat, b: Block)
    requires Position(a, offset)
    ensures Position(a + [b], offset) && Rest(a + [b], offset) == Rest(a, offset) + b.frames
  {
    if a == [] {
      RestOfAll([b]);
      FlatAppend([], b);
      assert [] + [b] == [b];
    } else {
      FlatAppend(a[1..], b);
      assert (a + [b])[0] == a[0] && (a + [b])[1..] == a[1..] + [b];
      Regroup(a[0].frames[offset..], Flat(a[1..]), b.frames);
    }
  }

  lemma RestTimesAppend(a: seq<Block>, offset: nat, b: Block)
    requires Position(a, offset)
    ensures Position(a + [b], offset) && RestTimes(a + [b], offset) == RestTimes(a, offset) + Count(b.media, |b.frames|)
  {
    if a == [] {
      RestOfAll([b]);
      FlatAppend([], b);
      assert [] + [b] == [b];
    } else {
      FlatAppend(a[1..], b);
      assert (a + [b])[0] == a[0] && (a + [b])[1..] == a[1..] + [b];
      Regroup(Count(a[0].media, |a[0].frames|)[offset..], Times(a[1..]), Count(b.media, |b.frames|));
    }
  }

  lemma {:induction false} TilesAppend(a: seq<Span>, b: seq<Span>, from: nat, mid: nat, to: nat)
    requires Tiles(a, from, mid) && Tiles(b, mid, to)
    ensures Tiles(a + b, from, to) && Reported(a + b) == Reported(a) + Reported(b)
  {
    if a == [] {
      assert a + b == b;
    } else {
      TilesAppend(a[1..], b, from + a[0].frames, mid, to);
      assert (a + b)[1..] == a[1..] + b;
    }
  }

  lemma PushKeepsInv(s: State, block: Block)
    requires Inv(s)
    ensures Inv(Apply(s, Push(block)))
  {
    var from: nat :| Clocked(s, from);
    var t := Apply(s, Push(block));
    FlatAppend(s.pushed, block);
    RestAppend(s.queue, s.offset, block);
    RestTimesAppend(s.queue, s.offset, block);
    var n := |s.delivered|;
    assert Times(t.pushed)[from..n] == Times(s.pushed)[from..n];
    assert Times(t.pushed)[n..] == Times(s.pushed)[n..] + Count(block.media, |block.frames|);
    assert Clocked(t, from);
  }

  lemma Slices(all: seq<int>, from: nat, n: nat, head: seq<int>, tail: seq<int>)
    requires from <= n <= |all| && head + tail == all[n..]
    ensures n + |head| <= |all| && tail == all[n + |head|..]
    ensures all[from..n] + head == all[from..n + |head|]
  {
    assert |all[n..]| == |all| - n == |head| + |tail|;
    assert head == (head + tail)[..|head|] == all[n..][..|head|] == all[n..n + |head|];
    assert tail == (head + tail)[|head|..] == all[n..][|head|..];
  }

  lemma RequestKeepsInv(s: State, want: nat, room: nat)
    requires Inv(s)
    ensures Inv(Apply(s, Request(want, room)))
  {
    var from: nat :| Clocked(s, from);
    var n := |s.delivered|;
    var p := Pull(s.queue, s.offset, want, room, n);
    PullIsExact(s.queue, s.offset, want, room, n);
    PullTells(s.queue, s.offset, want, room, n);
    var t := Apply(s, Request(want, room));
    Regroup(s.delivered, p.data, Rest(p.queue, p.offset));
    TilesAppend(s.clock, p.spans, from, n, n + |p.data|);
    Slices(Times(s.pushed), from, n, Reported(p.spans), RestTimes(p.queue, p.offset));
    assert Clocked(t, from);
  }

  lemma TickKeepsInv(s: State, played: nat)
    requires Inv(s) && Enabled(s, Tick(played))
    ensures Inv(Apply(s, Tick(played)))
  {
    var from: nat :| Clocked(s, from);
    var rest := DrainKeepsTiling(s.clock, from, |s.delivered|, played, s.shown);
    var t := Apply(s, Tick(played));
    assert Times(s.pushed)[from..|s.delivered|][rest - from..] == Times(s.pushed)[rest..|s.delivered|];
    assert Clocked(t, rest);
  }

  lemma StepKeepsInv(s: State, e: Event)
    requires Inv(s) && Enabled(s, e)
    ensures Inv(Apply(s, e))
  {
    match e
    case Push(block) => PushKeepsInv(s, block);
    case Request(want, room) => RequestKeepsInv(s, want, room);
    case Tick(played) => TickKeepsInv(s, played);
  }

  predicate Runnable(s: State, es: seq<Event>)
    requires Position(s.queue, s.offset)
    decreases |es|
  {
    es == [] || (Enabled(s, es[0]) && Runnable(Apply(s, es[0]), es[1..]))
  }

  function Run(s: State, es: seq<Event>): State
    requires Position(s.queue, s.offset) && Runnable(s, es)
    decreases |es|
  {
    if es == [] then s else Run(Apply(s, es[0]), es[1..])
  }

  lemma {:induction false} RunKeepsInv(s: State, es: seq<Event>)
    requires Inv(s) && Runnable(s, es)
    ensures Inv(Run(s, es)) && s.delivered <= Run(s, es).delivered
    decreases |es|
  {
    if es != [] {
      StepKeepsInv(s, es[0]);
      RunKeepsInv(Apply(s, es[0]), es[1..]);
      assert s.delivered <= Apply(s, es[0]).delivered;
    }
  }

  const INITIAL := State([], [], 0, [], [], 0, Shown(0, 0, 0))

  /** In every run the delivered frames are the blocks' frames in order: a prefix of all, followed by what
      is still queued. Nothing is lost, repeated or reordered. */
  lemma DeliversThePrefix(es: seq<Event>)
    requires Runnable(INITIAL, es)
    ensures var s := Run(INITIAL, es);
            s.delivered <= Flat(s.pushed) && (s.queue == [] ==> s.delivered == Flat(s.pushed))
  {
    InitialInv();
    RunKeepsInv(INITIAL, es);
  }

  lemma InitialInv()
    ensures Inv(INITIAL)
  {
    assert Times([])[0..0] == [] == Times([])[0..];
    assert Clocked(INITIAL, 0);
  }

  lemma TickShows(s: State, played: nat)
    requires Inv(s) && Enabled(s, Tick(played)) && played < |s.delivered|
    ensures played < |Times(s.pushed)| && Apply(s, Tick(played)).shown.position == Times(s.pushed)[played]
  {
    var from: nat :| Clocked(s, from);
    DrainReportsPlayed(s.clock, from, |s.delivered|, played, s.shown);
    assert Reported(s.clock)[played - from] == Times(s.pushed)[played];
  }

  /** In every run, when the device has played `played` of the delivered frames, a tick shows the media
      time of the next frame. */
  lemma ShowsThePlayedFrame(es: seq<Event>, played: nat)
    requires Runnable(INITIAL, es) && Enabled(Run(INITIAL, es), Tick(played))
    requires played < |Run(INITIAL, es).delivered|
    ensures var s := Run(INITIAL, es);
            && Inv(s) && played < |Times(s.pushed)|
            && Apply(s, Tick(played)).shown.position == Times(s.pushed)[played]
  {
    InitialInv();
    RunKeepsInv(INITIAL, es);
    TickShows(Run(INITIAL, es), played);
  }

  // --- The objects ---

  /** The channel the device pulls from. Blocks that arrive during a call are as good as queued before
      it, and draining only makes room; so a call is given the queue it sees and the spans it gets rid of. */
  class PcmChannel {
    var queue: seq<Block>
    var clock: seq<Span>
    var output: nat
    var offset: nat
    var valid: bool

    ghost predicate Valid()
      reads this
    {
      Position(queue, offset)
    }

    constructor (blocks: seq<Block>)
      ensures Valid() && queue == blocks && clock == [] && output == 0 && offset == 0 && !valid
    {
      queue, clock, output, offset, valid := blocks, [], 0, 0, false;
    }

    method PassDesc(channels: nat, rate: nat)
      modifies this`valid
      ensures valid <==> channels == 2 && rate == 48000
    {
      valid := channels == 2 && rate == 48000;
    }

    /** Passes on what the first block still has, or as much of it as is wanted. */
    method CopyBlock(data: array<Frame>, produced: nat, requested: nat, ghost given: seq<Frame>, ghost was: seq<Frame>)
      returns (count: nat, ghost t: Taken)
      requires Valid() && produced < requested <= data.Length && queue != []
      requires |given| == produced && Filled(data[..], given, was)
      modifies this`queue, this`clock, this`offset, data
      ensures Valid() && queue == t.queue && offset == t.offset && count == |t.piece|
      ensures t == Take(old(queue), old(offset), requested - produced, output + produced)
      ensures clock == old(clock) + [t.span]
      ensures Filled(data[..], given + t.piece, was)
    {
      t := Take(queue, offset, requested - produced, output + produced);
      var block := queue[0];
      count := Min(|block.frames| - offset, requested - produced);
      clock := clock + [Span(output + produced, count, block.media + offset)];
      ghost var before := data[..];
      CopyInto(data, produced, block.frames, offset, count);
      FillOn(before, data[..], given, was, t.piece);
      offset := offset + count;
      if offset == |block.frames| {
        offset := 0;
        queue := queue[1..];
      }
    }

    /** The copying loop; `given` and `told` are what it passed on. */
    method CopyBlocks(data: array<Frame>, requested: nat, room: nat)
      returns (produced: nat, ghost given: seq<Frame>, ghost told: seq<Span>)
      requires Valid() && requested <= data.Length
      modifies this`queue, this`clock, this`offset, data
      ensures Valid() && produced == |given| <= requested
      ensures Filled(data[..], given, old(data[..])) && clock == old(clock) + told
      ensures Pulled(given, told, queue, offset) == Pull(old(queue), old(offset), requested, room, output)
    {
      produced, given, told := 0, [], [];
      var accepted := 0;
      ghost var want, left, out := requested, room, output;
      ghost var all := Pull(queue, offset, requested, room, output);
      ghost var rest := all;
      ghost var was := data[..];
      PrependNothing(all);
      while produced < requested
        invariant Valid() && produced <= requested && accepted <= room
        invariant |told| == accepted && clock == old(clock) + told
        invariant |given| == produced && Filled(data[..], given, was)
        invariant want == requested - produced && left == room - accepted && out == output + produced
        invariant rest == Pull(queue, offset, want, left, out)
        invariant all == Prepend(given, told, rest)
        decreases |queue|, requested - produced
      {
        if queue == [] || accepted == room {
          break;
        }
        var count, t := CopyBlock(data, produced, requested, given, was);
        want, left, out := want - |t.piece|, left - 1, out + |t.piece|;
        ghost var more := Pull(t.queue, t.offset, want, left, out);
        assert rest == Prepend(t.piece, [t.span], more);
        PrependTaken(given, told, t, more);
        assert all == Prepend(given + t.piece, told + [t.span], more);
        Regroup(old(clock), told, [t.span]);
        given, told, rest := given + t.piece, told + [t.span], more;
        accepted := accepted + 1;
        produced := produced + count;
      }
      AppendNothing(given, told, queue, offset);
    }

    method NextPcm(data: array<Frame>, requested: nat, room: nat) returns (produced: nat)
      requires Valid() && requested <= data.Length
      modifies this`queue, this`clock, this`offset, data
      ensures Valid() && produced <= requested
      ensures data[..][produced..] == old(data[..])[produced..]
      ensures old(clock) <= clock
      ensures !valid ==> produced == 0 && queue == old(queue) && offset == old(offset) && clock == old(clock)
      ensures valid ==> Pulled(data[..][..produced], clock[|old(clock)|..], queue, offset)
                        == Pull(old(queue), old(offset), requested, room, output)
    {
      if !valid {
        return 0;
      }
      ghost var was := data[..];
      var n, given, told := CopyBlocks(data, requested, room);
      produced := n;
      FilledIs(data[..], given, was);
      Appended(old(clock), told);
    }
  }

  lemma PrependNothing(rest: Pulled)
    ensures Prepend([], [], rest) == rest
  {
    assert [] + rest.data == rest.data && [] + rest.spans == rest.spans;
  }

  lemma AppendNothing(frames: seq<Frame>, spans: seq<Span>, queue: seq<Block>, offset: nat)
    ensures Prepend(frames, spans, Pulled([], [], queue, offset)) == Pulled(frames, spans, queue, offset)
  {
    assert frames + [] == frames && spans + [] == spans;
  }

  lemma PrependTaken(given: seq<Frame>, told: seq<Span>, t: Taken, more: Pulled)
    ensures Prepend(given, told, Prepend(t.piece, [t.span], more)) == Prepend(given + t.piece, told + [t.span], more)
  {
    Regroup(given, t.piece, more.data);
    Regroup(told, [t.span], more.spans);
  }

  /** `given` was written over the beginning of `was`. */
  ghost predicate Filled(data: seq<Frame>, given: seq<Frame>, was: seq<Frame>) {
    && |given| <= |data| == |was|
    && (forall k :: 0 <= k < |given| ==> data[k] == given[k])
    && (forall k :: |given| <= k < |data| ==> data[k] == was[k])
  }

  /** `piece` was written at `at`. */
  ghost predicate Copied(before: seq<Frame>, after: seq<Frame>, at: nat, piece: seq<Frame>) {
    && at + |piece| <= |before| == |after|
    && (forall k :: 0 <= k < |before| ==>
          after[k] == if at <= k < at + |piece| then piece[k - at] else before[k])
  }

  lemma FillOn(before: seq<Frame>, after: seq<Frame>, given: seq<Frame>, was: seq<Frame>, piece: seq<Frame>)
    requires Filled(before, given, was) && Copied(before, after, |given|, piece)
    ensures Filled(after, given + piece, was)
  {
  }

  lemma FilledIs(data: seq<Frame>, given: seq<Frame>, was: seq<Frame>)
    requires Filled(data, given, was)
    ensures data[..|given|] == given && data[|given|..] == was[|given|..]
  {
  }

  lemma Appended(clock: seq<Span>, told: seq<Span>)
    ensures clock <= clock + told && (clock + told)[|clock|..] == told
  {
  }

  /** Copies `count` frames. */
  method CopyInto(data: array<Frame>, at: nat, frames: seq<Frame>, offset: nat, count: nat)
    requires at + count <= data.Length && offset + count <= |frames|
    modifies data
    ensures Copied(old(data[..]), data[..], at, frames[offset..offset + count])
  {
    forall k | 0 <= k < count {
      data[at + k] := frames[offset + k];
    }
  }

  /** The player's side of the clock queue. */
  class ClockReader {
    var spans: seq<Span>
    var shown: Shown

    method DrainClock(played: nat)
      modifies this
      ensures Drained(shown, spans) == Drain(old(spans), played, old(shown))
    {
      while spans != []
        invariant Drain(spans, played, shown) == Drain(old(spans), played, old(shown))
        decreases |spans|
      {
        var span := spans[0];
        shown := End(span).(position := shown.position);
        if played < span.output {
          break;
        }
        var offset := Min(played - span.output, span.frames);
        shown := shown.(position := span.media + offset);
        if offset < span.frames {
          break;
        }
        spans := spans[1..];
      }
    }
  }
}
