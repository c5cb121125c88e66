/** Idempotent radio operations: keyed by operation id, shared while pending, kept for a while after. */
module RadioOperations {
  import opened Options

  const OPERATION_TTL: int := 300_000
  const CLOCK_SKEW: int := 30_000
  const MAX_OPERATIONS: nat := 512

  /** An operation key contains the client's operation id, which begins with a timestamp. */
  datatype Key = Key(scope: string, stamp: int, nonce: string)

  /** One accepted operation; its body has been started exactly once. */
  datatype Operation = Operation(
    key: Key, provider: int, epoch: int, fingerprint: string, created: int, result: Option<int>)

  datatype Answer = Expired | Conflict | TooMany | Joined(operation: nat)

  /** A caller that holds an operation and waits for its result. */
  datatype Waiter = Waiter(operation: nat, fingerprint: string)

  /** What a caller was finally told. */
  datatype Reply = Reply(operation: nat, fingerprint: string, result: Option<int>)

  /** `operations` maps keys to entries of `started`; `started` and `replies` are history, oldest first. */
  datatype State = State(
    clock: int,
    operations: map<Key, nat>,
    started: seq<Operation>,
    current: map<int, int>,
    stopped: bool,
    waiting: set<Waiter>,
    replies: seq<Reply>)

  datatype Event =
    | Tick(ms: nat)
    | Call(key: Key, fingerprint: string, provider: int)
    | Complete(operation: nat, result: int)
    | Deliver(operation: nat, fingerprint: string)
    | Collect
    | Replace(provider: int, epoch: int)
    | Shutdown

  /** An operation id is accepted if its timestamp is at most 30 s ahead and less than 5 min old. */
  predicate Admitted(now: int, stamp: int) {
    stamp <= now + CLOCK_SKEW && now - stamp < OPERATION_TTL
  }

  /** Entries are kept while young or pending. */
  predicate Retained(started: seq<Operation>, i: nat, now: int)
    requires i < |started|
  {
    now - started[i].created < OPERATION_TTL || started[i].result.None?
  }

  /** Every key leads to a started operation. */
  predicate Grounded(s: State) {
    forall k :: k in s.operations ==> s.operations[k] < |s.started|
  }

  function Evicted(s: State): (t: State)
    requires Grounded(s)
    ensures Grounded(t)
  {
    s.(operations := map k | k in s.operations && Retained(s.started, s.operations[k], s.clock) :: s.operations[k])
  }

  /** The registered provider objects and their lifecycle epochs are given by `current`. */
  function Begin(s: State, key: Key, fingerprint: string, provider: int): (r: (State, Answer))
    requires Grounded(s)
    ensures Grounded(r.0)
  {
    if !Admitted(s.clock, key.stamp) || s.stopped || provider !in s.current then (s, Expired)
    else
      var e := Evicted(s);
      if key in e.operations then
        var op := e.started[e.operations[key]];
        if op.provider != provider || op.epoch != s.current[provider] then (e, Expired)
        else if op.fingerprint != fingerprint then (e, Conflict)
        else (e, Joined(e.operations[key]))
      else if |e.operations| >= MAX_OPERATIONS then (e, TooMany)
      else
        var op := Operation(key, provider, s.current[provider], fingerprint, s.clock, None);
        (e.(operations := e.operations[key := |e.started|], started := e.started + [op]), Joined(|e.started|))
  }

  predicate Enabled(s: State, e: Event) {
    match e
    case Complete(i, _) => i < |s.started| && s.started[i].result.None?
    case Deliver(i, f) => i < |s.started| && s.started[i].result.Some? && Waiter(i, f) in s.waiting
    case _ => true
  }

  function Apply(s: State, e: Event): (t: State)
    requires Grounded(s) && Enabled(s, e)
    ensures Grounded(t)
  {
    match e
    case Tick(ms) => s.(clock := s.clock + ms)
    case Call(key, fingerprint, provider) =>
      var (s', a) := Begin(s, key, fingerprint, provider);
      if a.Joined? then s'.(waiting := s'.waiting + {Waiter(a.operation, fingerprint)}) else s'
    case Complete(i, r) => s.(started := s.started[i := s.started[i].(result := Some(r))])
    case Deliver(i, f) =>
      var op := s.started[i];
      var valid := op.provider in s.current && s.current[op.provider] == op.epoch;
      s.(replies := s.replies + [Reply(i, f, if valid then op.result else None)])
    case Collect => Evicted(s)
    case Replace(p, epoch) => s.(current := s.current[p := epoch])
    case Shutdown => s.(stopped := true)
  }

  /** An operation is registered unless it completed and grew old. */
  predicate Known(operations: map<Key, nat>, started: seq<Operation>, i: nat, now: int)
    requires i < |started|
  {
    (started[i].key in operations && operations[started[i].key] == i) || !Retained(started, i, now)
  }

  predicate TableInv(operations: map<Key, nat>, started: seq<Operation>, now: int) {
    && (forall k :: k in operations ==> operations[k] < |started| && started[operations[k]].key == k)
    && (forall i :: 0 <= i < |started| ==> started[i].created <= now && Known(operations, started, i, now))
    && |operations| <= MAX_OPERATIONS
  }

  predicate Sound(started: seq<Operation>, r: Reply) {
    && r.operation < |started| && started[r.operation].fingerprint == r.fingerprint
    && (r.result.Some? ==> r.result == started[r.operation].result)
  }

  predicate CallersInv(started: seq<Operation>, waiting: set<Waiter>, replies: seq<Reply>) {
    && (forall w :: w in waiting ==> w.operation < |started| && started[w.operation].fingerprint == w.fingerprint)
    && (forall k :: 0 <= k < |replies| ==> Sound(started, replies[k]))
  }

  predicate Inv(s: State) {
    TableInv(s.operations, s.started, s.clock) && CallersInv(s.started, s.waiting, s.replies)
  }

  lemma {:induction false} SubMapSize<K, V>(a: map<K, V>, b: map<K, V>)
    requires forall k :: k in a ==> k in b
    ensures |a| <= |b|
    ensures (exists k :: k in b && k !in a) ==> |a| < |b|
  {
    SubSetSize(a.Keys, b.Keys);
    assert |a| == |a.Keys| && |b| == |b.Keys|;
  }

  lemma SubSetSize<T>(a: set<T>, b: set<T>)
    requires a <= b
    ensures |a| <= |b| && (a != b ==> |a| < |b|)
  {
    assert b == a + (b - a);
    assert |b| == |a| + |b - a|;
    if a != b { assert b - a != {}; }
  }

  lemma EvictedKeepsInv(s: State)
    requires Inv(s)
    ensures Inv(Evicted(s))
  {
    var e := Evicted(s).operations;
    SubMapSize(e, s.operations);
    forall i | 0 <= i < |s.started|
      ensures s.started[i].created <= s.clock && Known(e, s.started, i, s.clock)
    {
      assert Known(s.operations, s.started, i, s.clock);
    }
  }

  lemma CompleteKeepsInv(s: State, i: nat, r: int)
    requires Inv(s) && Enabled(s, Complete(i, r))
    ensures Inv(Apply(s, Complete(i, r)))
  {
    var done := s.started[i := s.started[i].(result := Some(r))];
    forall j | 0 <= j < |done| ensures done[j].created <= s.clock && Known(s.operations, done, j, s.clock) {
      assert Known(s.operations, s.started, j, s.clock);
    }
    forall k | 0 <= k < |s.replies| ensures Sound(done, s.replies[k]) {
      assert Sound(s.started, s.replies[k]);
    }
  }

  lemma TickKeepsInv(s: State, ms: nat)
    requires Inv(s)
    ensures Inv(Apply(s, Tick(ms)))
  {
    forall j | 0 <= j < |s.started| ensures s.started[j].created <= s.clock + ms && Known(s.operations, s.started, j, s.clock + ms) {
      assert Known(s.operations, s.started, j, s.clock);
    }
  }

  lemma OneMore(operations: map<Key, nat>, key: Key, i: nat)
    requires key !in operations
    ensures |operations[key := i]| == |operations| + 1
  {
    assert operations[key := i].Keys == operations.Keys + {key};
  }

  lemma AddKeepsInv(e: State, op: Operation)
    requires Inv(e) && op.key !in e.operations && |e.operations| < MAX_OPERATIONS
    requires op.created == e.clock && op.result.None?
    requires forall k | k in e.operations :: Retained(e.started, e.operations[k], e.clock)
    ensures Inv(e.(operations := e.operations[op.key := |e.started|], started := e.started + [op]))
  {
    var added, more := e.operations[op.key := |e.started|], e.started + [op];
    OneMore(e.operations, op.key, |e.started|);
    forall j | 0 <= j < |more| ensures more[j].created <= e.clock && Known(added, more, j, e.clock) {
      if j < |e.started| {
        assert Known(e.operations, e.started, j, e.clock) && more[j] == e.started[j];
      }
    }
    forall k | 0 <= k < |e.replies| ensures Sound(more, e.replies[k]) {
      assert Sound(e.started, e.replies[k]);
    }
  }

  lemma BeginKeepsInv(s: State, key: Key, fingerprint: string, provider: int)
    requires Inv(s)
    ensures var (s', a) := Begin(s, key, fingerprint, provider);
            && Inv(s') && (a.Joined? ==> a.operation < |s'.started| && s'.started[a.operation].fingerprint == fingerprint
                                         && s'.started[a.operation].key == key)
  {
    EvictedKeepsInv(s);
    var e := Evicted(s);
    if provider in s.current && key !in e.operations && |e.operations| < MAX_OPERATIONS {
      AddKeepsInv(e, Operation(key, provider, s.current[provider], fingerprint, s.clock, None));
    }
  }

  lemma StepKeepsInv(s: State, e: Event)
    requires Inv(s) && Enabled(s, e)
    ensures Inv(Apply(s, e))
  {
    match e
    case Call(key, fingerprint, provider) => BeginKeepsInv(s, key, fingerprint, provider);
    case Complete(i, r) => CompleteKeepsInv(s, i, r);
    case Tick(ms) => TickKeepsInv(s, ms);
    case Collect => EvictedKeepsInv(s);
    case Deliver(i, f) => DeliverKeepsInv(s, i, f);
    case _ =>
  }

  lemma DeliverKeepsInv(s: State, i: nat, f: string)
    requires Inv(s) && Enabled(s, Deliver(i, f))
    ensures Inv(Apply(s, Deliver(i, f)))
  {
    assert Waiter(i, f) in s.waiting;
    var s' := Apply(s, Deliver(i, f));
    forall k | 0 <= k < |s'.replies| ensures Sound(s'.started, s'.replies[k]) {
      if k < |s.replies| { assert Sound(s.started, s.replies[k]) && s'.replies[k] == s.replies[k]; }
    }
  }

  // --- At most once ---

  /** The body of `key` has been started at most once. */
  ghost predicate StartedOnce(s: State, key: Key) {
    forall i, j :: 0 <= i < |s.started| && 0 <= j < |s.started| && s.started[i].key == key && s.started[j].key == key ==> i == j
  }

  /** Events that can happen one after the other. */
  predicate Runnable(s: State, es: seq<Event>)
    requires Grounded(s)
    decreases |es|
  {
    es == [] || (Enabled(s, es[0]) && Runnable(Apply(s, es[0]), es[1..]))
  }

  function Run(s: State, es: seq<Event>): State
    requires Grounded(s) && Runnable(s, es)
    decreases |es|
  {
    if es == [] then s else Run(Apply(s, es[0]), es[1..])
  }

  /** An operation that is known to be young is in the table. */
  lemma YoungIsKnown(s: State, i: nat)
    requires Inv(s) && i < |s.started| && s.started[i].key.stamp <= s.started[i].created
    requires Admitted(s.clock, s.started[i].key.stamp)
    ensures s.started[i].key in Evicted(s).operations && Evicted(s).operations[s.started[i].key] == i
  {
    assert Retained(s.started, i, s.clock);
    assert Known(s.operations, s.started, i, s.clock);
  }

  /** A call starts at most one body: its own, and only if its key is not in the table. */
  lemma BeginStarts(s: State, key: Key, fingerprint: string, provider: int)
    requires Inv(s)
    ensures var s' := Begin(s, key, fingerprint, provider).0;
            || s'.started == s.started
            || (&& |s'.started| == |s.started| + 1 && s'.started[..|s.started|] == s.started
                && s'.started[|s.started|].key == key && Admitted(s.clock, key.stamp)
                && key !in Evicted(s).operations)
  {
  }

  lemma CallStartsOnce(s: State, key: Key, fingerprint: string, provider: int, i: nat)
    requires Inv(s) && i < |s.started|
    requires s.started[i].key.stamp <= s.started[i].created && StartedOnce(s, s.started[i].key)
    ensures var s' := Begin(s, key, fingerprint, provider).0;
            StartedOnce(s', s.started[i].key) && |s.started| <= |s'.started| && s'.started[i] == s.started[i]
  {
    var s' := Begin(s, key, fingerprint, provider).0;
    BeginStarts(s, key, fingerprint, provider);
    if s'.started != s.started {
      if key == s.started[i].key {
        YoungIsKnown(s, i);
        assert false;
      }
      assert forall j :: 0 <= j < |s.started| ==> s'.started[j] == s'.started[..|s.started|][j];
    }
  }

  /** A started operation whose timestamp was not ahead of the clock is not started again by any step. */
  lemma StepStartsOnce(s: State, e: Event, i: nat)
    requires Inv(s) && Enabled(s, e) && i < |s.started|
    requires s.started[i].key.stamp <= s.started[i].created && StartedOnce(s, s.started[i].key)
    ensures StartedOnce(Apply(s, e), s.started[i].key)
    ensures |s.started| <= |Apply(s, e).started| && Apply(s, e).started[i].(result := None) == s.started[i].(result := None)
  {
    match e
    case Call(key, fingerprint, provider) => CallStartsOnce(s, key, fingerprint, provider, i);
    case Complete(j, r) =>
      assert forall k :: 0 <= k < |s.started| ==> Apply(s, e).started[k].key == s.started[k].key;
    case _ =>
  }

  lemma {:induction false} RunStartsOnce(s: State, es: seq<Event>, i: nat)
    requires Inv(s) && Runnable(s, es) && i < |s.started|
    requires s.started[i].key.stamp <= s.started[i].created && StartedOnce(s, s.started[i].key)
    ensures StartedOnce(Run(s, es), s.started[i].key)
    decreases |es|
  {
    if es != [] {
      StepKeepsInv(s, es[0]);
      StepStartsOnce(s, es[0], i);
      RunStartsOnce(Apply(s, es[0]), es[1..], i);
    }
  }

  /** Whatever was started more than once had a timestamp ahead of the clock when it was first started. */
  ghost predicate OnlyAheadRepeats(s: State) {
    forall i, j :: 0 <= i < j < |s.started| && s.started[i].key == s.started[j].key ==>
      s.started[i].created < s.started[i].key.stamp
  }

  lemma StepRepeats(s: State, e: Event)
    requires Inv(s) && Enabled(s, e) && OnlyAheadRepeats(s)
    ensures OnlyAheadRepeats(Apply(s, e))
  {
    match e
    case Call(key, fingerprint, provider) =>
      var s' := Begin(s, key, fingerprint, provider).0;
      BeginStarts(s, key, fingerprint, provider);
      assert forall j :: 0 <= j < |s.started| ==> s'.started[j] == s'.started[..|s.started|][j];
      forall i, j | 0 <= i < j < |s'.started| && s'.started[i].key == s'.started[j].key
        ensures s'.started[i].created < s'.started[i].key.stamp
      {
        if j == |s.started| && s.started[i].key.stamp <= s.started[i].created {
          YoungIsKnown(s, i);
          assert false;
        }
      }
    case Complete(k, r) =>
      var s' := Apply(s, e);
      assert forall j :: 0 <= j < |s.started| ==>
        s'.started[j].key == s.started[j].key && s'.started[j].created == s.started[j].created;
    case _ =>
  }

  lemma {:induction false} RunRepeats(s: State, es: seq<Event>)
    requires Inv(s) && Runnable(s, es) && OnlyAheadRepeats(s)
    ensures Inv(Run(s, es)) && OnlyAheadRepeats(Run(s, es))
    decreases |es|
  {
    if es != [] {
      StepKeepsInv(s, es[0]);
      StepRepeats(s, es[0]);
      RunRepeats(Apply(s, es[0]), es[1..]);
    }
  }

  /** In every run of a new registry, no operation whose timestamp was not ahead of the clock when it was
      accepted is started a second time. */
  lemma EveryRunStartsOnce(clock: int, current: map<int, int>, es: seq<Event>, i: nat, j: nat)
    requires var s := State(clock, map[], [], current, false, {}, []);
             && Runnable(s, es) && i < j < |Run(s, es).started|
             && Run(s, es).started[i].key == Run(s, es).started[j].key
    ensures var s := State(clock, map[], [], current, false, {}, []);
            Run(s, es).started[i].created < Run(s, es).started[i].key.stamp
  {
    RunRepeats(State(clock, map[], [], current, false, {}, []), es);
  }

  /** Three steps after which an operation with a timestamp from the future has been started twice: its
      entry is evicted before its id expires. */
  function Twice(op: Operation, i: nat): seq<Event> {
    [Complete(i, 0), Tick(OPERATION_TTL), Call(op.key, op.fingerprint, op.provider)]
  }

  lemma EvictedBeforeExpired(s: State, i: nat) returns (s': State)
    requires Inv(s) && i < |s.started| && s.started[i].created == s.clock && s.started[i].result.None?
    requires s.started[i].key in s.operations && s.operations[s.started[i].key] == i
    ensures Apply(s, Complete(i, 0)) == s.(started := s.started[i := s.started[i].(result := Some(0))])
    ensures Inv(Apply(s, Complete(i, 0)))
    ensures s' == Apply(Apply(s, Complete(i, 0)), Tick(OPERATION_TTL)) && Inv(s')
    ensures s.started[i].key !in Evicted(s').operations && |Evicted(s').operations| < MAX_OPERATIONS
  {
    CompleteKeepsInv(s, i, 0);
    var done := Apply(s, Complete(i, 0));
    TickKeepsInv(done, OPERATION_TTL);
    s' := Apply(done, Tick(OPERATION_TTL));
    var key := s.started[i].key;
    assert !Retained(s'.started, i, s'.clock);
    assert key in s'.operations && key !in Evicted(s').operations;
    SubMapSize(Evicted(s').operations, s'.operations);
  }

  lemma RunFirst(s: State, e: Event, es: seq<Event>)
    requires Grounded(s) && Enabled(s, e) && Runnable(Apply(s, e), es)
    ensures Runnable(s, [e] + es) && Run(s, [e] + es) == Run(Apply(s, e), es)
  {
    assert ([e] + es)[1..] == es;
  }

  lemma RunOne(s: State, e: Event)
    requires Grounded(s) && Enabled(s, e)
    ensures Runnable(s, [e]) && Run(s, [e]) == Apply(s, e)
  {
    RunFirst(s, e, []);
    assert [e] + [] == [e];
  }

  lemma RunTwo(s: State, a: Event, b: Event, t: State)
    requires Grounded(s) && Enabled(s, a) && t == Apply(s, a) && Enabled(t, b)
    ensures Runnable(s, [a, b]) && Run(s, [a, b]) == Apply(t, b)
  {
    RunOne(t, b);
    RunFirst(s, a, [b]);
    assert [a] + [b] == [a, b];
  }

  lemma RunThree(s: State, a: Event, b: Event, c: Event, t: State, u: State)
    requires Grounded(s) && Enabled(s, a) && t == Apply(s, a) && Enabled(t, b) && u == Apply(t, b) && Enabled(u, c)
    ensures Runnable(s, [a, b, c]) && Run(s, [a, b, c]) == Apply(u, c)
  {
    RunTwo(t, b, c, u);
    RunFirst(s, a, [b, c]);
    assert [a] + [b, c] == [a, b, c];
  }

  lemma FutureStampRunsTwice(s: State, i: nat) returns (es: seq<Event>)
    requires Inv(s) && i < |s.started| && s.started[i].created == s.clock && s.started[i].result.None?
    requires s.started[i].key in s.operations && s.operations[s.started[i].key] == i
    requires s.clock < s.started[i].key.stamp <= s.clock + CLOCK_SKEW
    requires !s.stopped && s.started[i].provider in s.current
    ensures Runnable(s, es) && !StartedOnce(Run(s, es), s.started[i].key)
  {
    var op := s.started[i];
    es := Twice(op, i);
    var s2 := EvictedBeforeExpired(s, i);
    assert Admitted(s2.clock, op.key.stamp);
    BeginKeepsInv(s2, op.key, op.fingerprint, op.provider);
    StepKeepsInv(s2, es[2]);
    RunThree(s, es[0], es[1], es[2], Apply(s, es[0]), s2);
    var s3 := Apply(s2, es[2]);
    assert s3.started == s2.started + [Operation(op.key, op.provider, s2.current[op.provider], op.fingerprint, s2.clock, None)];
    assert s3.started[i].key == s3.started[|s.started|].key == op.key;
  }

  /** When an operation is accepted, it is started at most once in every continuation exactly if its
      timestamp is not ahead of the clock. */
  lemma AtMostOnceIff(s: State, i: nat)
    requires Inv(s) && i < |s.started| && s.started[i].created == s.clock && s.started[i].result.None?
    requires s.started[i].key in s.operations && s.operations[s.started[i].key] == i
    requires Admitted(s.clock, s.started[i].key.stamp) && StartedOnce(s, s.started[i].key)
    requires !s.stopped && s.started[i].provider in s.current
    ensures (forall es :: Runnable(s, es) ==> StartedOnce(Run(s, es), s.started[i].key)) <==>
              s.started[i].key.stamp <= s.clock
  {
    if s.started[i].key.stamp <= s.clock {
      forall es | Runnable(s, es) ensures StartedOnce(Run(s, es), s.started[i].key) {
        RunStartsOnce(s, es, i);
      }
    } else {
      var es := FutureStampRunsTwice(s, i);
      assert !(Runnable(s, es) ==> StartedOnce(Run(s, es), s.started[i].key));
    }
  }

  /** Callers with the same key are told the same result, or that it expired, and only if their
      fingerprint is that of the operation that was started. */
  lemma RepliesAgree(s: State, a: nat, b: nat)
    requires Inv(s) && a < |s.replies| && b < |s.replies|
    requires s.started[s.replies[a].operation].key == s.started[s.replies[b].operation].key
    requires StartedOnce(s, s.started[s.replies[a].operation].key)
    ensures s.replies[a].fingerprint == s.replies[b].fingerprint
    ensures s.replies[a].result.Some? && s.replies[b].result.Some? ==> s.replies[a].result == s.replies[b].result
  {
    assert s.replies[a].operation == s.replies[b].operation;
  }

  /** A call with another fingerprint never starts a body while the first operation is known, and never
      at all if the timestamp was not ahead. */
  lemma OtherFingerprintNeverRuns(s: State, i: nat, fingerprint: string, provider: int)
    requires Inv(s) && i < |s.started| && s.started[i].key.stamp <= s.started[i].created
    requires fingerprint != s.started[i].fingerprint
    ensures var (s', a) := Begin(s, s.started[i].key, fingerprint, provider);
            s'.started == s.started && a in {Expired, Conflict}
  {
    if Admitted(s.clock, s.started[i].key.stamp) {
      YoungIsKnown(s, i);
    }
  }

  // --- What a call is answered ---

  /** The operations that are still pending, or were started in the last five minutes. */
  ghost function Live(s: State): set<nat> {
    set i: nat | i < |s.started| && (s.started[i].result == None || s.clock - s.started[i].created < 300_000)
  }

  /** The call may be served: its id is neither too old nor too far ahead, and the provider is in service. */
  ghost predicate Serves(s: State, key: Key, provider: int) {
    key.stamp - 30_000 <= s.clock < key.stamp + 300_000 && !s.stopped && provider in s.current
  }

  /** The table holds exactly the live operations, each under its key. */
  lemma LiveIsTable(s: State)
    requires Inv(s)
    ensures forall i: nat :: i in Live(s) <==>
              i < |s.started| && s.started[i].key in Evicted(s).operations && Evicted(s).operations[s.started[i].key] == i
    ensures |Live(s)| == |Evicted(s).operations|
  {
    var e := Evicted(s).operations;
    forall i | i in Live(s) ensures i < |s.started| && s.started[i].key in e && e[s.started[i].key] == i {
      assert Retained(s.started, i, s.clock) && Known(s.operations, s.started, i, s.clock);
    }
    forall i: nat | i < |s.started| && s.started[i].key in e && e[s.started[i].key] == i ensures i in Live(s) {
    }
    SameSize(e, s.started, Live(s));
  }

  /** A table whose entries are the operations `live`, each under its key, has as many entries. */
  lemma {:induction false} SameSize(operations: map<Key, nat>, started: seq<Operation>, live: set<nat>)
    requires forall k :: k in operations ==> operations[k] < |started| && started[operations[k]].key == k && operations[k] in live
    requires forall i :: i in live ==> i < |started| && started[i].key in operations && operations[started[i].key] == i
    ensures |live| == |operations|
  {
    if operations == map[] {
      assert forall i :: i !in live;
      assert live == {};
    } else {
      var k := Any(operations.Keys);
      var i := operations[k];
      var fewer := operations - {k};
      assert fewer.Keys == operations.Keys - {k};
      forall j | j in live - {i} ensures started[j].key in fewer && fewer[started[j].key] == j {
      }
      SameSize(fewer, started, live - {i});
      assert |operations| == |operations.Keys|;
    }
  }

  /** A retry joins: the same fingerprint gets the live operation of its key, another fingerprint a conflict, and a
      provider that was replaced since has it expire. */
  lemma RetryIsAnswered(s: State, i: nat, fingerprint: string, provider: int)
    requires Inv(s) && i in Live(s) && Serves(s, s.started[i].key, provider)
    ensures var (s', a) := Begin(s, s.started[i].key, fingerprint, provider);
            var op := s.started[i];
            && s'.started == s.started && s'.operations == Evicted(s).operations
            && a == if op.provider != provider || op.epoch != s.current[provider] then Expired
                    else if op.fingerprint != fingerprint then Conflict
                    else Joined(i)
  {
    LiveIsTable(s);
  }

  /** A call with a key that no live operation has starts a new one, unless 512 are live. */
  lemma NewCallIsAnswered(s: State, key: Key, fingerprint: string, provider: int)
    requires Inv(s) && Serves(s, key, provider)
    requires forall i :: i in Live(s) ==> s.started[i].key != key
    ensures var (s', a) := Begin(s, key, fingerprint, provider);
            if |Live(s)| >= 512 then a == TooMany && s'.started == s.started
            else
              && a == Joined(|s.started|)
              && s'.started == s.started + [Operation(key, provider, s.current[provider], fingerprint, s.clock, None)]
              && Live(s') == Live(s) + {|s.started|}
  {
    LiveIsTable(s);
    var e := Evicted(s).operations;
    forall k | k in e ensures k != key {
      assert e[k] in Live(s);
    }
    assert key !in e;
    if |Live(s)| < 512 { OneMoreLive(s, Begin(s, key, fingerprint, provider).0); }
  }

  lemma OneMoreLive(s: State, t: State)
    requires |t.started| == |s.started| + 1 && t.clock == s.clock && t.started[..|s.started|] == s.started
    requires t.started[|s.started|].result == None
    ensures Live(t) == Live(s) + {|s.started|}
  {
    assert forall i :: 0 <= i < |s.started| ==> t.started[i] == t.started[..|s.started|][i];
    assert forall i: nat :: i in Live(t) <==> i in Live(s) + {|s.started|};
  }

  /** Every other call expires and changes nothing. */
  lemma UnservedCallExpires(s: State, key: Key, fingerprint: string, provider: int)
    requires Inv(s) && !Serves(s, key, provider)
    ensures Begin(s, key, fingerprint, provider) == (s, Expired)
  {
  }

  /** So a retry of an operation whose timestamp was not ahead joins it as long as its id is admitted at all. */
  lemma RetryJoins(s: State, i: nat)
    requires Inv(s) && i < |s.started| && s.started[i].key.stamp <= s.started[i].created
    requires Serves(s, s.started[i].key, s.started[i].provider) && s.current[s.started[i].provider] == s.started[i].epoch
    ensures Begin(s, s.started[i].key, s.started[i].fingerprint, s.started[i].provider).1 == Joined(i)
    ensures forall f :: f != s.started[i].fingerprint ==>
              Begin(s, s.started[i].key, f, s.started[i].provider).1 == Conflict
  {
    YoungIsKnown(s, i);
    LiveIsTable(s);
    RetryIsAnswered(s, i, s.started[i].fingerprint, s.started[i].provider);
    forall f | f != s.started[i].fingerprint ensures Begin(s, s.started[i].key, f, s.started[i].provider).1 == Conflict {
      RetryIsAnswered(s, i, f, s.started[i].provider);
    }
  }

  /** Whoever joined is told the result once there is one, if the provider is still the same; else that it expired. */
  lemma WaiterIsTold(s: State, w: Waiter)
    requires Inv(s) && w in s.waiting
    ensures Enabled(s, Deliver(w.operation, w.fingerprint)) <==> s.started[w.operation].result.Some?
    ensures s.started[w.operation].result.Some? ==>
              var op := s.started[w.operation];
              Apply(s, Deliver(w.operation, w.fingerprint)).replies ==
              s.replies + [Reply(w.operation, w.fingerprint,
                                 if op.provider in s.current && s.current[op.provider] == op.epoch then op.result else None)]
  {
  }

  /** Whoever joins is a waiter until the end, whatever happens. */
  lemma JoinedWaits(s: State, e: Event)
    requires Inv(s) && Enabled(s, e)
    ensures s.waiting <= Apply(s, e).waiting
    ensures e.Call? && Begin(s, e.key, e.fingerprint, e.provider).1.Joined? ==>
              Waiter(Begin(s, e.key, e.fingerprint, e.provider).1.operation, e.fingerprint) in Apply(s, e).waiting
  {
  }

  /** The result of an operation is the first that its body ends with, for good. */
  lemma ResultIsKept(s: State, e: Event, i: nat)
    requires Inv(s) && Enabled(s, e) && i < |s.started|
    ensures i < |Apply(s, e).started|
    ensures Apply(s, e).started[i].result ==
            if e.Complete? && e.operation == i then Some(e.result) else s.started[i].result
    ensures s.started[i].result.Some? ==> !(e.Complete? && e.operation == i)
  {
  }

  /** After a shutdown nothing is served; after a replacement the old epoch is over. */
  lemma EndsAreFinal(s: State, e: Event)
    requires Grounded(s) && Enabled(s, e)
    ensures s.stopped || e.Shutdown? <==> Apply(s, e).stopped
    ensures e.Replace? ==> Apply(s, e).current == s.current[e.provider := e.epoch]
    ensures !e.Replace? ==> Apply(s, e).current == s.current
  {
  }

  // --- The shared table ---

  /** The operation table; an entry's result is filled in when its body ends. */
  class OperationTable {
    var operations: map<Key, nat>
    var started: seq<Operation>

    ghost function View(clock: int, current: map<int, int>, stopped: bool): State
      reads this
    {
      State(clock, operations, started, current, stopped, {}, [])
    }

    constructor ()
      ensures operations == map[] && started == []
      ensures forall clock, current, stopped :: Inv(View(clock, current, stopped))
    {
      operations, started := map[], [];
    }

    method Evict(now: int)
      requires Inv(View(now, map[], false))
      modifies this`operations
      ensures operations == old(Evicted(View(now, map[], false))).operations
      ensures Inv(View(now, map[], false))
    {
      var todo := operations.Keys;
      ghost var was := operations;
      EvictedKeepsInv(View(now, map[], false));
      while todo != {}
        invariant todo <= was.Keys
        invariant forall k :: k in operations <==> k in was && (k in todo || Retained(started, was[k], now))
        invariant forall k :: k in operations ==> operations[k] == was[k]
        decreases todo
      {
        var k := Pick(todo);
        if !Retained(started, operations[k], now) {
          operations := operations - {k};
        }
        todo := todo - {k};
      }
      ghost var kept := old(Evicted(View(now, map[], false))).operations;
      assert forall k :: k in operations <==> k in kept;
      assert operations == kept;
    }

    /** Joins or starts an operation, with one reading of the clock. */
    method Submit(now: int, key: Key, fingerprint: string, provider: int, current: map<int, int>, stopped: bool)
      returns (answer: Answer)
      requires Inv(View(now, current, stopped))
      modifies this
      ensures (View(now, current, stopped), answer) == old(Begin(View(now, current, stopped), key, fingerprint, provider))
      ensures Inv(View(now, current, stopped))
    {
      BeginKeepsInv(View(now, current, stopped), key, fingerprint, provider);
      if !Admitted(now, key.stamp) || stopped || provider !in current {
        return Expired;
      }
      Evict(now);
      if key in operations {
        var op := started[operations[key]];
        if op.provider != provider || op.epoch != current[provider] {
          return Expired;
        }
        if op.fingerprint != fingerprint {
          return Conflict;
        }
        return Joined(operations[key]);
      }
      if |operations| >= MAX_OPERATIONS {
        return TooMany;
      }
      answer := Joined(|started|);
      operations := operations[key := |started|];
      started := started + [Operation(key, provider, current[provider], fingerprint, now, None)];
    }
  }
}
