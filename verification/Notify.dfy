/** The player's notifications: positions and cache values are coalesced behind one token each, and
    whatever belongs to a superseded source, stop or seek is dropped. */
module Notify {
  datatype Kind = Position | Cache | Other

  /** `revision` and `source` say what request the value was produced for; the code does not carry them. */
  datatype Note = Note(epoch: nat, kind: Kind, value: int, revision: nat, source: nat)

  datatype Latest = Nothing | Pending(note: Note)

  datatype Slot = Slot(latest: Latest, queued: bool)

  datatype Channel = Channel(epoch: nat, queue: seq<Note>, position: Slot, cache: Slot, open: bool)

  function SlotOf(c: Channel, kind: Kind): Slot {
    if kind.Position? then c.position else c.cache
  }

  function WithSlot(c: Channel, kind: Kind, slot: Slot): Channel {
    if kind.Position? then c.(position := slot) else c.(cache := slot)
  }

  // --- The channel, as functions ---

  /** A coalesced value replaces the pending one; the queue gets a token only if none is on its way. */
  function Sent(c: Channel, note: Note): (Channel, bool) {
    if note.kind.Other? then (if c.open then c.(queue := c.queue + [note]) else c, c.open)
    else if SlotOf(c, note.kind).queued then (WithSlot(c, note.kind, Slot(Pending(note), true)), true)
    else if c.open then (WithSlot(c, note.kind, Slot(Pending(note), true)).(queue := c.queue + [note]), true)
    else (WithSlot(c, note.kind, Slot(Nothing, false)), false)
  }

  function Advance(c: Channel): Channel {
    c.(epoch := c.epoch + 1,
       position := c.position.(latest := Nothing),
       cache := c.cache.(latest := Nothing))
  }

  /** A token stands for whatever is pending when the consumer gets to it. */
  function Resolved(c: Channel, token: Note): (Channel, Latest) {
    if token.kind.Other? then (c, Pending(token))
    else (WithSlot(c, token.kind, Slot(Nothing, false)), SlotOf(c, token.kind).latest)
  }

  // --- Player, worker, cache reporters and consumer ---

  datatype Command = Source | Stop | Seek | Play | Pause | Volume

  datatype Hand = Idle | Taken(token: Note) | Ready(note: Note)

  /** A value the user interface got, with the revision and source requested at that moment. */
  datatype Delivery = Delivery(note: Note, revision: nat, source: nat)

  /** `newestPosition` and `newestCache` are history: the last value accepted in the epoch it was made in. */
  datatype State = State(
    channel: Channel,
    revision: nat,
    source: nat,
    closed: bool,
    activeRevision: nat,
    activeSource: nat,
    loaded: map<nat, Note>,
    hand: Hand,
    delivered: seq<Delivery>,
    newestPosition: Latest,
    newestCache: Latest)

  datatype Event =
    | Submit(command: Command)
    | Close
    | CloseChannel
    | Activate(revision: nat, source: nat)
    | WorkerSend(kind: Kind, value: int)
    | CacheLoad(reporter: nat, value: int, revision: nat, source: nat)
    | CachePush(reporter: nat)
    | Take
    | ResolveToken
    | Deliver

  const INITIAL :=
    State(Channel(0, [], Slot(Nothing, false), Slot(Nothing, false), true),
          0, 0, false, 0, 0, map[], Idle, [], Nothing, Nothing)

  predicate Cancelled(s: State) {
    s.closed || s.activeRevision != s.revision || s.activeSource != s.source
  }

  predicate Enabled(s: State, e: Event) {
    match e
    case WorkerSend(kind, _) => !kind.Cache?
    case CachePush(r) => r in s.loaded
    case Take => s.hand.Idle? && s.channel.queue != []
    case ResolveToken => s.hand.Taken?
    case Deliver => s.hand.Ready?
    case _ => true
  }

  function Newest(s: State, kind: Kind): Latest {
    if kind.Position? then s.newestPosition else s.newestCache
  }

  /** Records an accepted value that is not already out of date. */
  function Accepted(s: State, note: Note): State {
    var (channel, ok) := Sent(s.channel, note);
    var t := s.(channel := channel);
    if !ok || note.epoch != s.channel.epoch then t
    else if note.kind.Position? then t.(newestPosition := Pending(note))
    else if note.kind.Cache? then t.(newestCache := Pending(note))
    else t
  }

  function Apply(s: State, e: Event): State
    requires Enabled(s, e)
  {
    match e
    case Submit(command) =>
      if s.closed then s
      else
        var t := if command.Source? || command.Stop? then s.(source := s.source + 1) else s;
        if command.Source? || command.Stop? || command.Seek?
        then t.(revision := t.revision + 1, channel := Advance(t.channel))
        else t
    case Close =>
      if s.closed then s else s.(closed := true, revision := s.revision + 1, channel := Advance(s.channel))
    case CloseChannel => s.(channel := s.channel.(open := false))
    case Activate(revision, source) => s.(activeRevision := revision, activeSource := source)
    case WorkerSend(kind, value) =>
      if Cancelled(s) then s
      else Accepted(s, Note(s.channel.epoch, kind, value, s.activeRevision, s.activeSource))
    case CacheLoad(r, value, revision, source) =>
      s.(loaded := s.loaded[r := Note(s.channel.epoch, Cache, value, revision, source)])
    case CachePush(r) => Accepted(s, s.loaded[r]).(loaded := s.loaded - {r})
    case Take => s.(hand := Taken(s.channel.queue[0]), channel := s.channel.(queue := s.channel.queue[1..]))
    case ResolveToken =>
      var (channel, latest) := Resolved(s.channel, s.hand.token);
      s.(channel := channel,
         hand := if latest.Pending? && latest.note.epoch == channel.epoch then Ready(latest.note) else Idle)
    case Deliver =>
      if s.hand.note.epoch != s.channel.epoch then s.(hand := Idle)
      else s.(hand := Idle, delivered := s.delivered + [Delivery(s.hand.note, s.revision, s.source)])
  }

  // --- Invariants ---

  /** A value of the worker is about the requested revision and source as long as its epoch is the current
      one. Cache reporters know nothing of requests: their values say only when they were reported. */
  predicate Honest(s: State, n: Note) {
    && n.epoch <= s.channel.epoch
    && (!n.kind.Cache? ==> n.revision == n.epoch && (n.epoch == s.channel.epoch ==> n.source == s.source))
  }

  function Tokens(queue: seq<Note>, kind: Kind): nat {
    if queue == [] then 0 else (if queue[0].kind == kind then 1 else 0) + Tokens(queue[1..], kind)
  }

  function InFlight(s: State, kind: Kind): nat {
    Tokens(s.channel.queue, kind) + if s.hand.Taken? && s.hand.token.kind == kind then 1 else 0
  }

  /** Exactly one token is on its way for a slot that is marked queued, none otherwise; and nothing is
      pending without a token. */
  predicate OneToken(s: State, kind: Kind) {
    && InFlight(s, kind) == (if SlotOf(s.channel, kind).queued then 1 else 0)
    && (SlotOf(s.channel, kind).latest.Pending? ==>
          SlotOf(s.channel, kind).queued && SlotOf(s.channel, kind).latest.note.kind == kind)
  }

  predicate AllHonest(s: State, queue: seq<Note>) {
    forall i :: 0 <= i < |queue| ==> Honest(s, queue[i])
  }

  predicate GenuineChannel(s: State) {
    && AllHonest(s, s.channel.queue)
    && (s.channel.position.latest.Pending? ==>
          Honest(s, s.channel.position.latest.note) && s.channel.position.latest.note.epoch == s.channel.epoch)
    && (s.channel.cache.latest.Pending? ==> Honest(s, s.channel.cache.latest.note))
  }

  predicate GenuineHands(s: State) {
    && (forall r :: r in s.loaded ==> Honest(s, s.loaded[r]) && s.loaded[r].kind.Cache?)
    && (s.hand.Taken? ==> Honest(s, s.hand.token))
    && (s.hand.Ready? ==> Honest(s, s.hand.note))
  }

  predicate Genuine(s: State) {
    s.channel.epoch == s.revision && GenuineChannel(s) && GenuineHands(s)
  }

  /** Everything delivered was of the current epoch, and what the worker sent was, at that moment, about the
      requested revision and source. */
  predicate Current(s: State) {
    forall k :: 0 <= k < |s.delivered| ==>
      && s.delivered[k].note.epoch == s.delivered[k].revision
      && (!s.delivered[k].note.kind.Cache? ==>
            s.delivered[k].note.revision == s.delivered[k].revision && s.delivered[k].note.source == s.delivered[k].source)
  }

  predicate Inv(s: State) {
    Genuine(s) && OneToken(s, Position) && OneToken(s, Cache) && Current(s)
  }

  lemma {:induction false} TokensAppend(queue: seq<Note>, n: Note, kind: Kind)
    ensures Tokens(queue + [n], kind) == Tokens(queue, kind) + if n.kind == kind then 1 else 0
  {
    if queue != [] {
      TokensAppend(queue[1..], n, kind);
      assert (queue + [n])[1..] == queue[1..] + [n];
    }
  }

  lemma SendKeepsTokens(s: State, n: Note, kind: Kind)
    requires OneToken(s, kind) && !kind.Other?
    ensures OneToken(s.(channel := Sent(s.channel, n).0), kind)
  {
    TokensAppend(s.channel.queue, n, kind);
  }

  /** Whatever is honest stays so while epoch and source do. */
  lemma SameHonest(s: State, t: State)
    requires s.channel.epoch == t.channel.epoch && s.source == t.source
    ensures forall m :: Honest(t, m) <==> Honest(s, m)
  {
  }

  lemma SentShape(c: Channel, n: Note)
    ensures var d := Sent(c, n).0;
            && d.epoch == c.epoch && (d.queue == c.queue || d.queue == c.queue + [n])
            && (d.position.latest == c.position.latest || d.position.latest.Nothing?
                || (n.kind.Position? && d.position.latest == Pending(n)))
            && (d.cache.latest == c.cache.latest || d.cache.latest.Nothing?
                || (n.kind.Cache? && d.cache.latest == Pending(n)))
  {
  }

  lemma SentIsGenuine(s: State, n: Note)
    requires GenuineChannel(s) && Honest(s, n) && (n.kind.Position? ==> n.epoch == s.channel.epoch)
    ensures GenuineChannel(s.(channel := Sent(s.channel, n).0))
  {
    var t := s.(channel := Sent(s.channel, n).0);
    SentShape(s.channel, n);
    SameHonest(s, t);
    assert AllHonest(t, s.channel.queue + [n]);
  }

  lemma AcceptedIsGenuine(s: State, n: Note)
    requires Genuine(s) && Honest(s, n) && (n.kind.Position? ==> n.epoch == s.channel.epoch)
    ensures Genuine(Accepted(s, n))
  {
    var t := Accepted(s, n);
    SentIsGenuine(s, n);
    SentShape(s.channel, n);
    SameHonest(s, t);
    assert t.channel == Sent(s.channel, n).0;
  }

  lemma AcceptedKeepsInv(s: State, n: Note)
    requires Inv(s) && Honest(s, n) && (n.kind.Position? ==> n.epoch == s.channel.epoch)
    ensures Inv(Accepted(s, n))
  {
    AcceptedIsGenuine(s, n);
    SendKeepsTokens(s, n, Position);
    SendKeepsTokens(s, n, Cache);
  }

  lemma CachePushKeepsInv(s: State, r: nat)
    requires Inv(s) && Enabled(s, CachePush(r))
    ensures Inv(Apply(s, CachePush(r)))
  {
    AcceptedKeepsInv(s, s.loaded[r]);
    var t := Accepted(s, s.loaded[r]);
    SameHonest(t, t.(loaded := s.loaded - {r}));
  }

  /** Steps that change neither the channel nor what is in hand. */
  lemma QuietKeepsInv(s: State, e: Event)
    requires Inv(s) && (e.CacheLoad? || e.Activate? || e.CloseChannel?)
    ensures Inv(Apply(s, e))
  {
    SameHonest(s, Apply(s, e));
  }

  /** Advancing the epoch outdates every value; nothing pending is left. */
  lemma AdvanceKeepsInv(s: State, source: nat, closed: bool)
    requires Inv(s)
    ensures Inv(s.(source := source, closed := closed, revision := s.revision + 1, channel := Advance(s.channel)))
  {
    var t := s.(source := source, closed := closed, revision := s.revision + 1, channel := Advance(s.channel));
    assert forall m :: Honest(s, m) ==> Honest(t, m);
  }

  lemma TakeKeepsInv(s: State)
    requires Inv(s) && Enabled(s, Take)
    ensures Inv(Apply(s, Take))
  {
    var t := Apply(s, Take);
    assert forall m :: Honest(s, m) <==> Honest(t, m);
  }

  lemma ResolveKeepsInv(s: State)
    requires Inv(s) && Enabled(s, ResolveToken)
    ensures Inv(Apply(s, ResolveToken))
  {
    var t := Apply(s, ResolveToken);
    assert forall m :: Honest(s, m) <==> Honest(t, m);
  }

  lemma DeliverKeepsInv(s: State)
    requires Inv(s) && Enabled(s, Deliver)
    ensures Inv(Apply(s, Deliver))
  {
    var t := Apply(s, Deliver);
    assert forall m :: Honest(s, m) <==> Honest(t, m);
    assert forall k :: 0 <= k < |s.delivered| ==> t.delivered[k] == s.delivered[k];
  }

  lemma StepKeepsInv(s: State, e: Event)
    requires Inv(s) && Enabled(s, e)
    ensures Inv(Apply(s, e))
  {
    match e
    case Submit(command) => SubmitKeepsInv(s, command);
    case Close => if !s.closed { AdvanceKeepsInv(s, s.source, true); }
    case WorkerSend(kind, value) =>
      if !Cancelled(s) {
        AcceptedKeepsInv(s, Note(s.channel.epoch, kind, value, s.activeRevision, s.activeSource));
      }
    case CachePush(r) => CachePushKeepsInv(s, r);
    case Take => TakeKeepsInv(s);
    case ResolveToken => ResolveKeepsInv(s);
    case Deliver => DeliverKeepsInv(s);
    case _ => QuietKeepsInv(s, e);
  }

  lemma SubmitKeepsInv(s: State, command: Command)
    requires Inv(s)
    ensures Inv(Apply(s, Submit(command)))
  {
    if !s.closed && (command.Source? || command.Stop? || command.Seek?) {
      AdvanceKeepsInv(s, if command.Seek? then s.source else s.source + 1, s.closed);
    }
  }

  predicate Runnable(s: State, es: seq<Event>)
    decreases |es|
  {
    es == [] || (Enabled(s, es[0]) && Runnable(Apply(s, es[0]), es[1..]))
  }

  function Run(s: State, es: seq<Event>): State
    requires Runnable(s, es)
    decreases |es|
  {
    if es == [] then s else Run(Apply(s, es[0]), es[1..])
  }

  lemma {:induction false} RunKeepsInv(s: State, es: seq<Event>)
    requires Inv(s) && Runnable(s, es)
    ensures Inv(Run(s, es))
    decreases |es|
  {
    if es != [] {
      StepKeepsInv(s, es[0]);
      RunKeepsInv(Apply(s, es[0]), es[1..]);
    }
  }

  /** In every run, what the user interface gets from the worker is never about a superseded source, stop or
      seek, nothing it gets is of an earlier epoch, and each pending value has exactly one token on its way. */
  lemma NothingSupersededIsDelivered(es: seq<Event>)
    requires Runnable(INITIAL, es)
    ensures Current(Run(INITIAL, es)) && OneToken(Run(INITIAL, es), Position) && OneToken(Run(INITIAL, es), Cache)
    ensures Run(INITIAL, es).channel.epoch == Run(INITIAL, es).revision
  {
    RunKeepsInv(INITIAL, es);
  }

  lemma RunFirst(s: State, e: Event, es: seq<Event>)
    requires Enabled(s, e) && Runnable(Apply(s, e), es)
    ensures Runnable(s, [e] + es) && Run(s, [e] + es) == Run(Apply(s, e), es)
  {
    assert ([e] + es)[1..] == es;
  }

  /** The first steps of a run, one after the other, lead from `s` to `t`. */
  predicate Leads(s: State, es: seq<Event>, t: State) {
    Runnable(s, es) && Run(s, es) == t
  }

  lemma LeadsFirst(s: State, e: Event, u: State, es: seq<Event>, t: State)
    requires Enabled(s, e) && u == Apply(s, e) && Leads(u, es, t)
    ensures Leads(s, [e] + es, t)
  {
    RunFirst(s, e, es);
  }

  /** A cache value carries no identity: one that is reported for a source after the next was requested is
      delivered all the same. */
  lemma CacheValueOfAnotherSource(value: int) returns (es: seq<Event>)
    ensures Runnable(INITIAL, es) && |Run(INITIAL, es).delivered| == 1
    ensures var d := Run(INITIAL, es).delivered[0];
            d.note.kind.Cache? && d.note.value == value && d.note.source == 1 && d.source == 2
  {
    var a, b, c := Submit(Source), CacheLoad(0, value, 1, 1), CachePush(0);
    var s1 := Apply(INITIAL, a);
    var s2 := Apply(s1, a);
    var s3 := Apply(s2, b);
    var s4 := Apply(s3, c);
    var s5 := Apply(s4, Take);
    var s6 := Apply(s5, ResolveToken);
    var s7 := Apply(s6, Deliver);
    assert Leads(s7, [], s7);
    LeadsFirst(s6, Deliver, s7, [], s7);
    LeadsFirst(s5, ResolveToken, s6, [Deliver] + [], s7);
    LeadsFirst(s4, Take, s5, [ResolveToken] + ([Deliver] + []), s7);
    LeadsFirst(s3, c, s4, [Take] + ([ResolveToken] + ([Deliver] + [])), s7);
    LeadsFirst(s2, b, s3, [c] + ([Take] + ([ResolveToken] + ([Deliver] + []))), s7);
    LeadsFirst(s1, a, s2, [b] + ([c] + ([Take] + ([ResolveToken] + ([Deliver] + [])))), s7);
    es := [a] + ([a] + ([b] + ([c] + ([Take] + ([ResolveToken] + ([Deliver] + []))))));
    LeadsFirst(INITIAL, a, s1, [a] + ([b] + ([c] + ([Take] + ([ResolveToken] + ([Deliver] + []))))), s7);
  }

  // --- The newest value is shown ---

  function LastDelivered(delivered: seq<Delivery>, kind: Kind): Latest {
    if delivered == [] then Nothing
    else if delivered[|delivered| - 1].note.kind == kind then Pending(delivered[|delivered| - 1].note)
    else LastDelivered(delivered[..|delivered| - 1], kind)
  }

  /** Nothing that could still be delivered. */
  predicate Harmless(s: State, l: Latest) {
    l.Pending? ==> l.note.epoch != s.channel.epoch
  }

  function InHand(s: State, kind: Kind): Latest {
    if s.hand.Ready? && s.hand.note.kind == kind then Pending(s.hand.note) else Nothing
  }

  /** A value is pending behind its token, in the consumer's hand, or the last one of its kind delivered,
      with nothing of its epoch behind it. */
  predicate Shown(s: State, kind: Kind, n: Note) {
    var latest := SlotOf(s.channel, kind).latest;
    || latest == Pending(n)
    || (Harmless(s, latest) && InHand(s, kind) == Pending(n))
    || (Harmless(s, latest) && Harmless(s, InHand(s, kind)) && LastDelivered(s.delivered, kind) == Pending(n))
  }

  /** Whatever was last accepted in the current epoch is on its way or shown. */
  predicate NewestShown(s: State, kind: Kind) {
    Newest(s, kind).Pending? && Newest(s, kind).note.epoch == s.channel.epoch ==>
      Newest(s, kind).note.kind == kind && Shown(s, kind, Newest(s, kind).note)
  }

  predicate NewestIsOld(s: State, kind: Kind) {
    Newest(s, kind).Pending? ==> Newest(s, kind).note.epoch <= s.channel.epoch
  }

  /** A value that is already out of date takes the place of the pending newest one. */
  predicate Hides(s: State, e: Event) {
    && e.CachePush? && e.reporter in s.loaded && s.loaded[e.reporter].epoch != s.channel.epoch
    && s.newestCache.Pending? && s.newestCache.note.epoch == s.channel.epoch
    && s.channel.cache.latest == s.newestCache
  }

  lemma AcceptedKeepsNewest(s: State, n: Note, kind: Kind)
    requires Inv(s) && !kind.Other? && NewestShown(s, kind) && NewestIsOld(s, kind) && n.epoch == s.channel.epoch
    ensures NewestShown(Accepted(s, n), kind) && NewestIsOld(Accepted(s, n), kind)
  {
    var t := Accepted(s, n);
    if n.kind == kind {
      assert Sent(s.channel, n).1 ==> SlotOf(t.channel, kind).latest == Pending(n);
      assert !Sent(s.channel, n).1 ==> !SlotOf(s.channel, kind).queued;
    } else {
      assert SlotOf(t.channel, kind) == SlotOf(s.channel, kind);
    }
  }

  lemma LateKeepsNewest(s: State, r: nat, kind: Kind)
    requires Inv(s) && Enabled(s, CachePush(r)) && !kind.Other? && NewestShown(s, kind) && NewestIsOld(s, kind)
    requires s.loaded[r].epoch != s.channel.epoch && (kind.Cache? ==> !Hides(s, CachePush(r)))
    ensures NewestShown(Apply(s, CachePush(r)), kind) && NewestIsOld(Apply(s, CachePush(r)), kind)
  {
    var t := Apply(s, CachePush(r));
    assert t.channel.epoch == s.channel.epoch && t.hand == s.hand && t.delivered == s.delivered;
    assert Newest(t, kind) == Newest(s, kind);
    if kind.Position? {
      assert t.channel.position == s.channel.position;
    } else {
      assert Harmless(t, t.channel.cache.latest);
    }
  }

  lemma StepKeepsNewest(s: State, e: Event, kind: Kind)
    requires Inv(s) && Enabled(s, e) && !kind.Other? && NewestShown(s, kind) && NewestIsOld(s, kind)
    requires kind.Cache? ==> !Hides(s, e)
    ensures NewestShown(Apply(s, e), kind) && NewestIsOld(Apply(s, e), kind)
  {
    var t := Apply(s, e);
    match e
    case WorkerSend(k, value) =>
      if !Cancelled(s) {
        AcceptedKeepsNewest(s, Note(s.channel.epoch, k, value, s.activeRevision, s.activeSource), kind);
      }
    case CachePush(r) =>
      if s.loaded[r].epoch != s.channel.epoch {
        LateKeepsNewest(s, r, kind);
      } else {
        AcceptedKeepsNewest(s, s.loaded[r], kind);
      }
    case ResolveToken => ResolveKeepsNewest(s, kind);
    case Deliver => DeliverKeepsNewest(s, kind);
    case _ =>
  }

  lemma ResolveKeepsNewest(s: State, kind: Kind)
    requires Inv(s) && Enabled(s, ResolveToken) && !kind.Other? && NewestShown(s, kind)
    ensures NewestShown(Apply(s, ResolveToken), kind)
  {
    if s.hand.token.kind == kind {
      var latest := SlotOf(s.channel, kind).latest;
      assert SlotOf(Apply(s, ResolveToken).channel, kind).latest.Nothing?;
    } else {
      assert SlotOf(Apply(s, ResolveToken).channel, kind) == SlotOf(s.channel, kind);
    }
  }

  lemma LastAppend(delivered: seq<Delivery>, d: Delivery, kind: Kind)
    ensures LastDelivered(delivered + [d], kind) ==
              if d.note.kind == kind then Pending(d.note) else LastDelivered(delivered, kind)
  {
    assert (delivered + [d])[..|delivered|] == delivered;
  }

  lemma DeliverKeepsNewest(s: State, kind: Kind)
    requires Inv(s) && Enabled(s, Deliver) && !kind.Other? && NewestShown(s, kind)
    ensures NewestShown(Apply(s, Deliver), kind)
  {
    var t := Apply(s, Deliver);
    LastAppend(s.delivered, Delivery(s.hand.note, s.revision, s.source), kind);
    assert SlotOf(t.channel, kind) == SlotOf(s.channel, kind);
  }

  /** No late cache value of the run takes the place of the newest one. */
  predicate Timely(s: State, es: seq<Event>)
    requires Runnable(s, es)
    decreases |es|
  {
    es == [] || (!Hides(s, es[0]) && Timely(Apply(s, es[0]), es[1..]))
  }

  lemma {:induction false} RunKeepsNewest(s: State, es: seq<Event>, kind: Kind)
    requires Inv(s) && Runnable(s, es) && !kind.Other? && NewestShown(s, kind) && NewestIsOld(s, kind)
    requires kind.Cache? ==> Timely(s, es)
    ensures NewestShown(Run(s, es), kind)
    decreases |es|
  {
    if es != [] {
      StepKeepsInv(s, es[0]);
      StepKeepsNewest(s, es[0], kind);
      RunKeepsNewest(Apply(s, es[0]), es[1..], kind);
    }
  }

  /** When the consumer has nothing left to do, the last position (cache value) delivered is the newest one
      accepted in the current epoch. For cache values this needs that no late one hid it. */
  lemma QuietShowsNewest(es: seq<Event>, kind: Kind)
    requires Runnable(INITIAL, es) && !kind.Other? && (kind.Cache? ==> Timely(INITIAL, es))
    requires Run(INITIAL, es).hand.Idle? && Run(INITIAL, es).channel.queue == []
    requires Newest(Run(INITIAL, es), kind).Pending?
    requires Newest(Run(INITIAL, es), kind).note.epoch == Run(INITIAL, es).channel.epoch
    ensures LastDelivered(Run(INITIAL, es).delivered, kind) == Newest(Run(INITIAL, es), kind)
  {
    RunKeepsInv(INITIAL, es);
    RunKeepsNewest(INITIAL, es, kind);
    assert OneToken(Run(INITIAL, es), kind);
  }

  /** A cache value enqueued over the pending newest one leaves the newest on its way exactly if it is not
      out of date itself, or the same value is what was shown last: the epoch is read before the lock is taken. */
  lemma LateCacheValueHidesNewest(s: State, r: nat)
    requires Inv(s) && Enabled(s, CachePush(r)) && NewestShown(s, Cache)
    requires s.newestCache.Pending? && s.newestCache.note.epoch == s.channel.epoch
    requires s.channel.cache.latest == s.newestCache && s.hand.Idle?
    ensures NewestShown(Apply(s, CachePush(r)), Cache) <==>
              s.loaded[r].epoch == s.channel.epoch || LastDelivered(s.delivered, Cache) == s.newestCache
  {
    var n := s.loaded[r];
    var t := Apply(s, CachePush(r));
    assert s.channel.cache.queued;
    assert t.channel.cache.latest == Pending(n);
    if n.epoch != s.channel.epoch {
      assert t.newestCache == s.newestCache && n != s.newestCache.note;
    }
  }

  /** When a reporter enqueues late, after another one enqueued in the current epoch, the consumer drops what
      it finds, and the newest value is not delivered. */
  lemma LateValueIsDropped(s: State, r: nat, late: nat) returns (t: State)
    requires s.hand.Idle? && s.channel.queue == [] && s.channel.cache == Slot(Nothing, false) && s.channel.open
    requires r in s.loaded && late in s.loaded && r != late && s.loaded[r].kind.Cache? && s.loaded[late].kind.Cache?
    requires s.loaded[r].epoch == s.channel.epoch && s.loaded[late].epoch != s.channel.epoch
    ensures Leads(s, [CachePush(r), CachePush(late), Take, ResolveToken], t)
    ensures t.hand.Idle? && t.channel.queue == [] && t.delivered == s.delivered
    ensures t.newestCache == Pending(s.loaded[r]) && t.channel.epoch == s.channel.epoch
  {
    var s1 := Apply(s, CachePush(r));
    var s2 := Apply(s1, CachePush(late));
    var s3 := Apply(s2, Take);
    t := Apply(s3, ResolveToken);
    assert Leads(t, [], t);
    LeadsFirst(s3, ResolveToken, t, [], t);
    LeadsFirst(s2, Take, s3, [ResolveToken], t);
    LeadsFirst(s1, CachePush(late), s2, [Take, ResolveToken], t);
    LeadsFirst(s, CachePush(r), s1, [CachePush(late), Take, ResolveToken], t);
    assert [ResolveToken] + [] == [ResolveToken] && [Take] + [ResolveToken] == [Take, ResolveToken];
    assert [CachePush(late)] + [Take, ResolveToken] == [CachePush(late), Take, ResolveToken];
    assert [CachePush(r)] + [CachePush(late), Take, ResolveToken] == [CachePush(r), CachePush(late), Take, ResolveToken];
  }

  /** This happens: the first reporter reads the epoch before a seek, the second one after it. */
  lemma NewestCacheValueLost(value: int) returns (es: seq<Event>)
    ensures Runnable(INITIAL, es)
    ensures var s := Run(INITIAL, es);
            && s.hand.Idle? && s.channel.queue == [] && s.delivered == []
            && s.newestCache.Pending? && s.newestCache.note.value == value && s.newestCache.note.epoch == s.channel.epoch
  {
    var a, b, c := CacheLoad(0, value - 1, 0, 0), Submit(Seek), CacheLoad(1, value, 1, 0);
    var s1 := Apply(INITIAL, a);
    var s2 := Apply(s1, b);
    var s3 := Apply(s2, c);
    var t := LateValueIsDropped(s3, 1, 0);
    var rest := [CachePush(1), CachePush(0), Take, ResolveToken];
    LeadsFirst(s2, c, s3, rest, t);
    LeadsFirst(s1, b, s2, [c] + rest, t);
    LeadsFirst(INITIAL, a, s1, [b] + ([c] + rest), t);
    es := [a] + ([b] + ([c] + rest));
  }

  // --- The consumer gets there ---

  function Left(s: State): nat {
    3 * |s.channel.queue| + match s.hand case Idle => 0 case Taken(_) => 2 case Ready(_) => 1
  }

  /** Left to itself, the consumer empties the queue and shows the newest position of the epoch. */
  lemma {:induction false} ConsumerFinishes(s: State) returns (es: seq<Event>)
    requires Inv(s) && NewestShown(s, Position) && NewestIsOld(s, Position)
    ensures Runnable(s, es) && |es| <= Left(s)
    ensures Run(s, es).hand.Idle? && Run(s, es).channel.queue == []
    ensures Run(s, es).newestPosition == s.newestPosition && Run(s, es).channel.epoch == s.channel.epoch
    ensures s.newestPosition.Pending? && s.newestPosition.note.epoch == s.channel.epoch ==>
              LastDelivered(Run(s, es).delivered, Position) == s.newestPosition
    decreases Left(s)
  {
    if s.hand.Idle? && s.channel.queue == [] {
      es := [];
      assert OneToken(s, Position);
    } else {
      var e := match s.hand case Idle => Take case Taken(_) => ResolveToken case Ready(_) => Deliver;
      StepKeepsInv(s, e);
      StepKeepsNewest(s, e, Position);
      var rest := ConsumerFinishes(Apply(s, e));
      es := [e] + rest;
      assert es[1..] == rest;
    }
  }

  // --- What is sent arrives ---

  /** The values of the other kinds of epoch `epoch` in a queue. */
  function Others(queue: seq<Note>, epoch: nat): seq<Note> {
    if queue == [] then []
    else (if queue[0].kind.Other? && queue[0].epoch == epoch then [queue[0]] else []) + Others(queue[1..], epoch)
  }

  function Notes(delivered: seq<Delivery>): (r: seq<Note>)
    ensures |r| == |delivered| && forall i :: 0 <= i < |r| ==> r[i] == delivered[i].note
  {
    seq(|delivered|, i requires 0 <= i < |delivered| => delivered[i].note)
  }

  function Held(h: Hand): seq<Note> {
    match h case Idle => [] case Taken(n) => [n] case Ready(n) => [n]
  }

  /** The other values of the current epoch: delivered, in the consumer's hand, and queued, oldest first. */
  function Way(s: State): seq<Note> {
    Others(Notes(s.delivered), s.channel.epoch) + Others(Held(s.hand), s.channel.epoch) + Others(s.channel.queue, s.channel.epoch)
  }

  lemma {:induction false} OthersAppend(queue: seq<Note>, n: Note, epoch: nat)
    ensures Others(queue + [n], epoch) == Others(queue, epoch) + Others([n], epoch)
  {
    if queue == [] {
      assert [] + [n] == [n];
    } else {
      assert (queue + [n])[1..] == queue[1..] + [n];
      OthersAppend(queue[1..], n, epoch);
    }
  }

  lemma OthersTaken(queue: seq<Note>, epoch: nat)
    requires queue != []
    ensures Others(queue, epoch) == Others([queue[0]], epoch) + Others(queue[1..], epoch)
  {
    assert [queue[0]][1..] == [];
  }

  lemma SentOnItsWay(c: Channel, n: Note)
    ensures Others(Sent(c, n).0.queue, c.epoch) ==
            Others(c.queue, c.epoch) + if n.kind.Other? && n.epoch == c.epoch && c.open then [n] else []
  {
    OthersAppend(c.queue, n, c.epoch);
  }

  /** Values that are not coalesced are delivered in the order in which they were sent, none of the current epoch is
      lost, and none comes from nowhere: every step only adds what the worker sends. */
  lemma OthersKeepOrder(s: State, e: Event)
    requires Inv(s) && Enabled(s, e) && Apply(s, e).channel.epoch == s.channel.epoch
    ensures Way(Apply(s, e)) == Way(s) +
              if e.WorkerSend? && e.kind.Other? && !Cancelled(s) && s.channel.open
              then [Note(s.channel.epoch, Other, e.value, s.activeRevision, s.activeSource)] else []
  {
    var t, epoch := Apply(s, e), s.channel.epoch;
    match e
    case WorkerSend(k, v) =>
      if !Cancelled(s) { AcceptedWay(s, Note(epoch, k, v, s.activeRevision, s.activeSource)); }
    case CachePush(r) => AcceptedWay(s, s.loaded[r]);
    case Take => TakenWay(s);
    case ResolveToken =>
      ResolvedWay(s);
    case Deliver => DeliveredWay(s);
    case _ =>
  }

  lemma AcceptedWay(s: State, n: Note)
    ensures Way(Accepted(s, n)) == Way(s) + if n.kind.Other? && n.epoch == s.channel.epoch && s.channel.open then [n] else []
  {
    SentOnItsWay(s.channel, n);
    assert Accepted(s, n).delivered == s.delivered && Accepted(s, n).hand == s.hand;
    assert Accepted(s, n).channel.epoch == s.channel.epoch;
  }

  lemma TakenWay(s: State)
    requires Enabled(s, Take)
    ensures Way(Apply(s, Take)) == Way(s)
  {
    OthersTaken(s.channel.queue, s.channel.epoch);
    assert Others([], s.channel.epoch) == [];
  }

  lemma OneOther(n: Note, epoch: nat)
    ensures Others([n], epoch) == if n.kind.Other? && n.epoch == epoch then [n] else []
  {
    assert [n][1..] == [];
  }

  lemma ResolvedWay(s: State)
    requires Inv(s) && Enabled(s, ResolveToken)
    ensures var t := Apply(s, ResolveToken);
            Others(Held(t.hand), s.channel.epoch) == Others(Held(s.hand), s.channel.epoch) && t.channel.queue == s.channel.queue
  {
    var t := Apply(s, ResolveToken);
    OneOther(s.hand.token, s.channel.epoch);
    assert OneToken(s, Position) && OneToken(s, Cache);
    if t.hand.Ready? { OneOther(t.hand.note, s.channel.epoch); }
  }

  lemma DeliveredWay(s: State)
    requires Enabled(s, Deliver)
    ensures Way(Apply(s, Deliver)) == Way(s)
  {
    var t, epoch := Apply(s, Deliver), s.channel.epoch;
    OneOther(s.hand.note, epoch);
    if s.hand.note.epoch == epoch {
      OthersAppend(Notes(s.delivered), s.hand.note, epoch);
      assert Notes(t.delivered) == Notes(s.delivered) + [s.hand.note];
    }
  }

  /** A position that the worker sends while it works for the newest request is the newest one, pending behind its
      token, unless the interface has closed the channel. */
  lemma SentIsNewest(s: State, value: int)
    requires Inv(s) && !Cancelled(s) && s.channel.open
    ensures var t := Apply(s, WorkerSend(Position, value));
            var n := Note(s.channel.epoch, Position, value, s.activeRevision, s.activeSource);
            && t.newestPosition == Pending(n) && t.channel.position == Slot(Pending(n), true)
            && InFlight(t, Position) == 1
  {
    StepKeepsInv(s, WorkerSend(Position, value));
  }

  /** A worker that took a command works for the newest request until a source, stop or seek is submitted, or the
      player is closed: then it is cancelled. */
  lemma CancelledIff(s: State, later: seq<Command>)
    requires !s.closed
    ensures !Cancelled(Apply(s, Activate(s.revision, s.source)))
    ensures Cancelled(After(Apply(s, Activate(s.revision, s.source)), later)) <==>
              exists k :: 0 <= k < |later| && (later[k].Source? || later[k].Stop? || later[k].Seek?)
    ensures Cancelled(Apply(s, Close))
  {
    var t := Apply(s, Activate(s.revision, s.source));
    AfterCounts(t, later);
    AfterKeepsActive(t, later);
  }

  lemma {:induction false} AfterKeepsActive(s: State, commands: seq<Command>)
    ensures After(s, commands).activeRevision == s.activeRevision && After(s, commands).activeSource == s.activeSource
    decreases |commands|
  {
    if commands != [] { AfterKeepsActive(s, commands[..|commands| - 1]); }
  }

  // --- The object ---

  class NotifyChannel {
    var epoch: nat
    var queue: seq<Note>
    var position: Slot
    var cache: Slot
    var open: bool

    ghost function View(): Channel
      reads this
    {
      Channel(epoch, queue, position, cache, open)
    }

    constructor ()
      ensures View() == INITIAL.channel
    {
      epoch, queue, position, cache, open := 0, [], Slot(Nothing, false), Slot(Nothing, false), true;
    }

    method Push(note: Note) returns (ok: bool)
      modifies this`queue
      ensures ok == open && queue == if ok then old(queue) + [note] else old(queue)
    {
      ok := open;
      if ok {
        queue := queue + [note];
      }
    }

    /** The coalescing under the lock, for the slot of the given kind. */
    method EnqueueLatest(note: Note, slot: Slot) returns (updated: Slot, ok: bool)
      requires !note.kind.Other? && slot == SlotOf(View(), note.kind)
      modifies this`queue
      ensures (WithSlot(View(), note.kind, updated), ok) == old(Sent(View(), note))
    {
      updated := slot.(latest := Pending(note));
      if slot.queued {
        return updated, true;
      }
      updated := updated.(queued := true);
      ok := Push(note);
      if !ok {
        updated := Slot(Nothing, false);
      }
    }

    /** Reads the epoch and hands the value on; `info` is the value as its producer made it. */
    method Send(info: Note) returns (ok: bool)
      modifies this`queue, this`position, this`cache
      ensures (View(), ok) == old(Sent(View(), info.(epoch := epoch)))
    {
      var note := info.(epoch := epoch);
      if note.kind.Position? {
        var slot, accepted := EnqueueLatest(note, position);
        position, ok := slot, accepted;
      } else if note.kind.Cache? {
        var slot, accepted := EnqueueLatest(note, cache);
        cache, ok := slot, accepted;
      } else {
        ok := Push(note);
      }
    }

    method Resolve(token: Note) returns (result: Latest)
      modifies this`position, this`cache
      ensures (View(), result) == old(Resolved(View(), token))
    {
      if token.kind.Other? {
        return Pending(token);
      }
      result := TakeLatest(token.kind);
    }

    method AdvanceEpoch()
      modifies this`epoch, this`position, this`cache
      ensures View() == old(Advance(View()))
    {
      position, cache := position.(latest := Nothing), cache.(latest := Nothing);
      epoch := epoch + 1;
    }

    method TakeLatest(kind: Kind) returns (result: Latest)
      requires !kind.Other?
      modifies this`position, this`cache
      ensures result == old(SlotOf(View(), kind)).latest
      ensures View() == old(WithSlot(View(), kind, Slot(Nothing, false)))
    {
      if kind.Position? {
        result := position.latest;
        position := Slot(Nothing, false);
      } else {
        result := cache.latest;
        cache := Slot(Nothing, false);
      }
    }
  }

  /** A submitted command with the revision and source it was submitted under. */
  datatype Submitted = Submitted(command: Command, revision: nat, source: nat)

  /** Only a source, stop or seek supersedes what was submitted before; a source survives later seeks. */
  predicate Superseded(c: Submitted, revision: nat, source: nat) {
    c.source != source || (!c.command.Source? && c.revision != revision)
  }

  /** The player: submitting happens under the ingress lock, as does sending from the worker. */
  class Player {
    const channel: NotifyChannel
    var actions: seq<Submitted>
    var revision: nat
    var source: nat
    var closed: bool
    var activeRevision: nat
    var activeSource: nat

    ghost function View(): State
      reads this, channel
    {
      State(channel.View(), revision, source, closed, activeRevision, activeSource, map[], Idle, [], Nothing, Nothing)
    }

    constructor (channel: NotifyChannel)
      requires channel.View() == INITIAL.channel
      ensures this.channel == channel && actions == [] && View() == INITIAL && Inv(View())
    {
      this.channel, actions := channel, [];
      revision, source, closed, activeRevision, activeSource := 0, 0, false, 0, 0;
    }

    method Submit(command: Command)
      modifies this, channel
      ensures View() == old(Apply(View(), Event.Submit(command)))
      ensures actions == if closed then old(actions) else old(actions) + [Submitted(command, revision, source)]
    {
      if closed {
        return;
      }
      if command.Source? || command.Stop? {
        source := source + 1;
      }
      if command.Source? || command.Stop? || command.Seek? {
        revision := revision + 1;
        channel.AdvanceEpoch();
      }
      actions := actions + [Submitted(command, revision, source)];
    }

    method Close()
      modifies this, channel
      ensures View() == old(Apply(View(), Event.Close)) && actions == old(actions) && closed
    {
      if closed {
        return;
      }
      closed := true;
      revision := revision + 1;
      channel.AdvanceEpoch();
    }

    method IsCancelled() returns (cancelled: bool)
      ensures cancelled == Cancelled(View())
    {
      cancelled := closed || activeRevision != revision || activeSource != source;
    }

    /** Nothing is sent for a request that was superseded. */
    method Send(kind: Kind, value: int) returns (sent: bool)
      requires !kind.Cache?
      modifies channel
      ensures View() == old(View().(channel := Apply(View(), WorkerSend(kind, value)).channel))
      ensures sent ==> !Cancelled(View())
    {
      var cancelled := IsCancelled();
      sent := false;
      if !cancelled {
        sent := channel.Send(Note(0, kind, value, activeRevision, activeSource));
      }
    }

    /** The worker takes a command unless it is superseded; from then on it works for the newest request. */
    method Begin(c: Submitted) returns (taken: bool)
      modifies this`activeRevision, this`activeSource
      ensures taken == !Superseded(c, revision, source)
      ensures View() == if taken then old(Apply(View(), Activate(revision, source))) else old(View())
    {
      if c.source != source {
        return false;
      }
      if !c.command.Source? && c.revision != revision {
        return false;
      }
      activeSource := c.source;
      activeRevision := if c.command.Source? then revision else c.revision;
      return true;
    }
  }

  /** A submitted command is superseded by later ones exactly if a source or stop follows it, or a seek
      follows it and it is not a source itself. */
  lemma {:induction false} SupersededIff(s: State, c: Command, later: seq<Command>)
    requires !s.closed
    ensures var t := Apply(s, Submit(c)); var u := After(t, later);
            Superseded(Submitted(c, t.revision, t.source), u.revision, u.source) <==>
              exists k :: 0 <= k < |later| && (later[k].Source? || later[k].Stop? || (later[k].Seek? && !c.Source?))
  {
    var t := Apply(s, Submit(c));
    AfterCounts(t, later);
    assert After(t, later).source == t.source <==> forall k :: 0 <= k < |later| ==> !(later[k].Source? || later[k].Stop?);
  }

  function After(s: State, commands: seq<Command>): State
    decreases |commands|
  {
    if commands == [] then s else Apply(After(s, commands[..|commands| - 1]), Submit(commands[|commands| - 1]))
  }

  lemma {:induction false} AfterCounts(s: State, commands: seq<Command>)
    requires !s.closed
    ensures var t := After(s, commands);
            && !t.closed && t.source >= s.source && t.revision >= s.revision
            && (t.source == s.source <==> forall k :: 0 <= k < |commands| ==> !commands[k].Source? && !commands[k].Stop?)
            && (t.revision == s.revision <==>
                  forall k :: 0 <= k < |commands| ==> !commands[k].Source? && !commands[k].Stop? && !commands[k].Seek?)
    decreases |commands|
  {
    if commands != [] {
      var n := |commands| - 1;
      AfterCounts(s, commands[..n]);
      assert forall k :: 0 <= k < n ==> commands[..n][k] == commands[k];
    }
  }
}
