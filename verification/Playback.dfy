/** Playback sessions: sixteen permits, a table of listed sessions, and cleanup that runs once per session. */
module Playback {
  import opened Options

  const MAX_SESSIONS: nat := 16

  datatype Task = Unscheduled | Running | Finished

  /** A session an opener created. `handlers` counts requests (the opener included) that still hold it;
      `cleanups` counts completed cleanups. A session is cancelled once its cleanup is scheduled. */
  datatype Session = Session(provider: int, handlers: nat, task: Task, cleanups: nat)

  /** `free` counts the semaphore's permits and `opening` the requests that hold one without a session yet.
      Sessions are numbered in order of creation, and `table` holds the listed ones. */
  datatype State = State(
    free: int,
    opening: nat,
    sessions: seq<Session>,
    table: set<nat>,
    stopping: bool,
    slotsClosed: bool,
    swept: bool)

  datatype Event =
    | Acquire
    | OpenFailed
    | OpenDone(provider: int)
    | Register(session: nat)
    | Refuse(session: nat)
    | Enter(session: nat)
    | Leave(session: nat)
    | Close(session: nat)
    | Invalidate(provider: int)
    | Stop
    | CloseSlots
    | Sweep
    | Finish(session: nat)

  const INITIAL := State(MAX_SESSIONS, 0, [], {}, false, false, false)

  /** A session keeps its permit while the table, its cleanup or a request refers to it. */
  predicate Alive(sessions: seq<Session>, table: set<nat>, i: nat)
    requires i < |sessions|
  {
    i in table || sessions[i].task.Running? || sessions[i].handlers > 0
  }

  function AliveSet(sessions: seq<Session>, table: set<nat>): set<nat> {
    set i: nat | i < |sessions| && Alive(sessions, table, i)
  }

  /** The sessions after the cleanup of every session in `which` that had none was scheduled. */
  function Scheduled(sessions: seq<Session>, which: set<nat>): (r: seq<Session>)
    ensures |r| == |sessions|
    ensures forall i :: 0 <= i < |sessions| ==>
              r[i] == if i in which && sessions[i].task.Unscheduled? then sessions[i].(task := Running) else sessions[i]
  {
    seq(|sessions|, (i: nat) requires i < |sessions| =>
      if i in which && sessions[i].task.Unscheduled? then sessions[i].(task := Running) else sessions[i])
  }

  function Owned(s: State, provider: int): set<nat> {
    set i | i in s.table && i < |s.sessions| && s.sessions[i].provider == provider
  }

  /** Drops one reference to session `i`; the last one returns its permit. */
  function Unref(s: State, i: nat, sessions: seq<Session>): State
    requires i < |sessions|
  {
    s.(sessions := sessions, free := if Alive(sessions, s.table, i) then s.free else s.free + 1)
  }

  predicate Enabled(s: State, e: Event) {
    match e
    case Acquire => s.free > 0 && !s.slotsClosed
    case OpenFailed => s.opening > 0
    case OpenDone(_) => s.opening > 0
    case Register(i) => i < |s.sessions| && i !in s.table && s.sessions[i].task.Unscheduled? && s.sessions[i].handlers > 0
    case Refuse(i) => i < |s.sessions| && i !in s.table && s.sessions[i].task.Unscheduled? && s.sessions[i].handlers > 0
    case Enter(i) => i < |s.sessions| && i in s.table
    case Leave(i) => i < |s.sessions| && s.sessions[i].handlers > 0
    case Close(i) => i < |s.sessions| && i in s.table
    case Invalidate(_) => true
    case Stop => true
    case CloseSlots => s.stopping
    case Sweep => s.stopping && s.slotsClosed
    case Finish(i) => i < |s.sessions| && s.sessions[i].task.Running?
  }

  /** Registration holds the table lock and looks at the stop flag again. */
  predicate Admits(s: State) {
    !s.stopping && |s.table| < MAX_SESSIONS
  }

  function Apply(s: State, e: Event): State
    requires Enabled(s, e)
  {
    match e
    case Acquire => s.(free := s.free - 1, opening := s.opening + 1)
    case OpenFailed => s.(free := s.free + 1, opening := s.opening - 1)
    case OpenDone(p) => s.(opening := s.opening - 1, sessions := s.sessions + [Session(p, 1, Unscheduled, 0)])
    case Register(i) =>
      if Admits(s) then s.(table := s.table + {i}) else s.(sessions := Scheduled(s.sessions, {i}))
    case Refuse(i) => s.(sessions := Scheduled(s.sessions, {i}))
    case Enter(i) => s.(sessions := s.sessions[i := s.sessions[i].(handlers := s.sessions[i].handlers + 1)])
    case Leave(i) => Unref(s, i, s.sessions[i := s.sessions[i].(handlers := s.sessions[i].handlers - 1)])
    case Close(i) => s.(table := s.table - {i}, sessions := Scheduled(s.sessions, {i}))
    case Invalidate(p) => s.(table := s.table - Owned(s, p), sessions := Scheduled(s.sessions, Owned(s, p)))
    case Stop => s.(stopping := true)
    case CloseSlots => s.(slotsClosed := true)
    case Sweep => s.(table := {}, sessions := Scheduled(s.sessions, s.table), swept := true)
    case Finish(i) =>
      Unref(s, i, s.sessions[i := s.sessions[i].(task := Finished, cleanups := s.sessions[i].cleanups + 1)])
  }

  /** What is always true of one session. */
  predicate Proper(s: Session, listed: bool) {
    && (listed ==> s.task.Unscheduled?)
    && s.cleanups == (if s.task.Finished? then 1 else 0)
  }

  ghost predicate Inv(s: State) {
    && (forall i :: i in s.table ==> i < |s.sessions|)
    && (forall i :: 0 <= i < |s.sessions| ==> Proper(s.sessions[i], i in s.table))
    && s.free >= 0
    && s.free + s.opening + |AliveSet(s.sessions, s.table)| == MAX_SESSIONS
    && (s.swept ==> s.stopping && s.slotsClosed && s.table == {})
  }

  // --- Conservation of permits ---

  lemma SameAlive(a: seq<Session>, at: set<nat>, b: seq<Session>, bt: set<nat>)
    requires |a| == |b|
    requires forall i: nat :: i < |a| ==> (Alive(a, at, i) <==> Alive(b, bt, i))
    ensures AliveSet(a, at) == AliveSet(b, bt)
  {
    assert forall i: nat :: i in AliveSet(a, at) <==> i in AliveSet(b, bt);
  }

  lemma OneLess(a: set<nat>, b: set<nat>, i: nat)
    requires i in a && forall k: nat :: k in b <==> k in a && k != i
    ensures |b| == |a| - 1
  {
    assert forall k: nat :: k in b <==> k in a - {i};
    assert b == a - {i};
  }

  lemma UnrefConserves(s: State, i: nat, sessions: seq<Session>)
    requires |sessions| == |s.sessions| && i < |sessions| && Alive(s.sessions, s.table, i)
    requires forall k: nat :: k < |sessions| && k != i ==> sessions[k] == s.sessions[k]
    ensures var t := Unref(s, i, sessions);
            t.free + |AliveSet(t.sessions, t.table)| == s.free + |AliveSet(s.sessions, s.table)| && t.free >= s.free
  {
    var before, after := AliveSet(s.sessions, s.table), AliveSet(sessions, s.table);
    assert forall k: nat :: k < |sessions| && k != i ==> (Alive(sessions, s.table, k) <==> Alive(s.sessions, s.table, k));
    if Alive(sessions, s.table, i) {
      SameAlive(s.sessions, s.table, sessions, s.table);
    } else {
      OneLess(before, after, i);
    }
  }

  /** Scheduling the cleanup of what leaves the table keeps every reference count. */
  lemma ScheduleConserves(s: State, which: set<nat>)
    requires Inv(s) && which <= s.table
    ensures AliveSet(Scheduled(s.sessions, which), s.table - which) == AliveSet(s.sessions, s.table)
  {
    SameAlive(s.sessions, s.table, Scheduled(s.sessions, which), s.table - which);
  }

  lemma ScheduleKeepsInv(s: State, which: set<nat>)
    requires Inv(s) && which <= s.table
    ensures Inv(s.(table := s.table - which, sessions := Scheduled(s.sessions, which)))
  {
    ScheduleConserves(s, which);
  }

  lemma OpenedKeepsInv(s: State, provider: int)
    requires Inv(s) && Enabled(s, OpenDone(provider))
    ensures Inv(Apply(s, OpenDone(provider)))
  {
    var t := Apply(s, OpenDone(provider));
    var before, after := AliveSet(s.sessions, s.table), AliveSet(t.sessions, t.table);
    assert forall k: nat :: k < |s.sessions| ==> (Alive(t.sessions, t.table, k) <==> Alive(s.sessions, s.table, k));
    assert Alive(t.sessions, t.table, |s.sessions|);
    OneLess(after, before, |s.sessions|);
  }

  lemma RefusedKeepsInv(s: State, i: nat)
    requires Inv(s) && Enabled(s, Refuse(i))
    ensures Inv(Apply(s, Refuse(i)))
  {
    SameAlive(s.sessions, s.table, Apply(s, Refuse(i)).sessions, s.table);
  }

  /** At registration there is always room: the session itself already holds one of the permits. */
  lemma RoomAtRegistration(s: State, i: nat)
    requires Inv(s) && Enabled(s, Register(i))
    ensures |s.table| < MAX_SESSIONS
  {
    var alive := AliveSet(s.sessions, s.table);
    assert i in alive - s.table && s.table <= alive;
    assert |alive - s.table| == |alive| - |s.table|;
    assert alive - s.table != {};
  }

  lemma RegisteredKeepsInv(s: State, i: nat)
    requires Inv(s) && Enabled(s, Register(i))
    ensures Inv(Apply(s, Register(i)))
  {
    if Admits(s) {
      SameAlive(s.sessions, s.table, s.sessions, s.table + {i});
    } else {
      RefusedKeepsInv(s, i);
    }
  }

  lemma HandledKeepsInv(s: State, e: Event)
    requires Inv(s) && Enabled(s, e) && (e.Enter? || e.Leave? || e.Finish?)
    ensures Inv(Apply(s, e))
  {
    match e
    case Enter(i) => SameAlive(s.sessions, s.table, Apply(s, e).sessions, s.table);
    case Leave(i) => UnrefConserves(s, i, Apply(s, e).sessions);
    case Finish(i) => UnrefConserves(s, i, Apply(s, e).sessions);
  }

  lemma StepKeepsInv(s: State, e: Event)
    requires Inv(s) && Enabled(s, e)
    ensures Inv(Apply(s, e))
  {
    match e
    case OpenDone(p) => OpenedKeepsInv(s, p);
    case Register(i) => RegisteredKeepsInv(s, i);
    case Refuse(i) => RefusedKeepsInv(s, i);
    case Close(i) => ScheduleKeepsInv(s, {i});
    case Invalidate(p) => ScheduleKeepsInv(s, Owned(s, p));
    case Sweep => ScheduleKeepsInv(s, s.table); assert s.table - s.table == {};
    case Acquire =>
    case OpenFailed =>
    case Stop =>
    case CloseSlots =>
    case _ => HandledKeepsInv(s, e);
  }

  predicate Runnable(s: State, es: seq<Event>)
    decreases |es|
  {
    es == [] || (Enabled(s, es[0]) && Runnable(Apply(s, es[0]), es[1..]))
  }

  function Run(s: State, es: seq<Event>): State
    requires Runnable(s, es)
    decreases |es|
  {
    if es == [] then s else Run(Apply(s, es[0]), es[1..])
  }

  lemma {:induction false} RunKeepsInv(s: State, es: seq<Event>)
    requires Inv(s) && Runnable(s, es)
    ensures Inv(Run(s, es))
    ensures |s.sessions| <= |Run(s, es).sessions|
    ensures s.stopping ==> Run(s, es).stopping
    ensures s.swept ==> Run(s, es).swept
    decreases |es|
  {
    if es != [] {
      StepKeepsInv(s, es[0]);
      RunKeepsInv(Apply(s, es[0]), es[1..]);
    }
  }

  /** In every reachable state the permits add up, and the limit on listed sessions is never what refuses
      a registration. */
  lemma PermitsAreConserved(es: seq<Event>)
    requires Runnable(INITIAL, es)
    ensures var s := Run(INITIAL, es);
            && s.free + s.opening + |AliveSet(s.sessions, s.table)| == 16 && s.free >= 0
            && forall i :: Enabled(s, Register(i)) ==> (Admits(s) <==> !s.stopping)
  {
    assert AliveSet([], {}) == {};
    RunKeepsInv(INITIAL, es);
    var s := Run(INITIAL, es);
    forall i | Enabled(s, Register(i)) ensures Admits(s) <==> !s.stopping {
      RoomAtRegistration(s, i);
    }
  }

  // --- Who is listed, and whose cleanup is scheduled ---

  /** A registration lists its session unless the manager stops; a close takes out its own session, an invalidation
      the provider's and no other, and the sweep all. */
  lemma ListedIff(s: State, e: Event, i: nat)
    requires Inv(s) && Enabled(s, e) && i < |s.sessions|
    ensures i in Apply(s, e).table <==>
              match e
              case Register(j) => i in s.table || (i == j && !s.stopping)
              case Close(j) => i in s.table && i != j
              case Invalidate(p) => i in s.table && s.sessions[i].provider != p
              case Sweep => false
              case _ => i in s.table
  {
    if e.Register? { RoomAtRegistration(s, e.session); }
  }

  /** A cleanup is scheduled for exactly the sessions that a step takes out of the table or refuses, and it is
      completed once; the provider of a session is fixed. */
  lemma CleanupIff(s: State, e: Event, i: nat)
    requires Inv(s) && Enabled(s, e) && i < |s.sessions|
    ensures i < |Apply(s, e).sessions| && Apply(s, e).sessions[i].provider == s.sessions[i].provider
    ensures Apply(s, e).sessions[i].task ==
            if (i in s.table && i !in Apply(s, e).table) || e == Refuse(i) || (e == Register(i) && s.stopping) then Running
            else if e == Finish(i) then Finished
            else s.sessions[i].task
    ensures Apply(s, e).sessions[i].handlers ==
            if e == Enter(i) then s.sessions[i].handlers + 1
            else if e == Leave(i) then s.sessions[i].handlers - 1
            else s.sessions[i].handlers
  {
    if e.Register? { RoomAtRegistration(s, e.session); }
    assert Proper(s.sessions[i], i in s.table);
  }

  // --- Cleanup ---

  /** Nothing happens any more to a session whose last reference is gone. */
  lemma GoneStaysGone(s: State, e: Event, i: nat)
    requires Inv(s) && Enabled(s, e) && i < |s.sessions| && !Alive(s.sessions, s.table, i)
    ensures Apply(s, e).sessions[i] == s.sessions[i] && !Alive(Apply(s, e).sessions, Apply(s, e).table, i)
  {
    var t := Apply(s, e);
    assert t.sessions[i] == s.sessions[i];
    assert i !in t.table;
  }

  /** Once removed from the table a session's cleanup is scheduled, and it remains so. */
  lemma RemovedIsScheduled(s: State, e: Event, i: nat)
    requires Inv(s) && Enabled(s, e) && i < |s.sessions| && (i in s.table || !s.sessions[i].task.Unscheduled?)
    ensures i in Apply(s, e).table || !Apply(s, e).sessions[i].task.Unscheduled?
  {
  }

  lemma {:induction false} RunRemovedIsScheduled(s: State, es: seq<Event>, i: nat)
    requires Inv(s) && Runnable(s, es) && i < |s.sessions| && (i in s.table || !s.sessions[i].task.Unscheduled?)
    ensures |s.sessions| <= |Run(s, es).sessions|
    ensures i in Run(s, es).table || !Run(s, es).sessions[i].task.Unscheduled?
    decreases |es|
  {
    if es != [] {
      StepKeepsInv(s, es[0]);
      RemovedIsScheduled(s, es[0], i);
      RunRemovedIsScheduled(Apply(s, es[0]), es[1..], i);
    }
  }

  /** A session that was listed at some point of a run has been cleaned up exactly once when its permit
      is back; until then at most once. */
  lemma ListedIsCleanedOnce(s: State, es: seq<Event>, i: nat)
    requires Inv(s) && Runnable(s, es) && i < |s.sessions| && i in s.table
    ensures var t := Run(s, es);
            && |s.sessions| <= |t.sessions| && t.sessions[i].cleanups <= 1
            && (!Alive(t.sessions, t.table, i) ==> t.sessions[i].cleanups == 1)
  {
    RunKeepsInv(s, es);
    RunRemovedIsScheduled(s, es, i);
    var t := Run(s, es);
    assert Proper(t.sessions[i], i in t.table);
  }

  /** A session that was refused is cleaned up as well; only one whose request went away between the
      provider's answer and the registration loses its permit without cleanup. */
  lemma UncleanedIsAbandoned(s: State, e: Event, i: nat)
    requires Inv(s) && Enabled(s, e) && i < |s.sessions|
    requires Alive(s.sessions, s.table, i) && !Alive(Apply(s, e).sessions, Apply(s, e).table, i)
    ensures Apply(s, e).sessions[i].cleanups == 0 <==> e == Leave(i) && s.sessions[i].task.Unscheduled?
  {
    assert Proper(s.sessions[i], i in s.table);
  }

  /** This happens: a request that goes away before it registers its session leaves it without cleanup, and
      the permit comes back. */
  lemma AbandonedSession(provider: int)
    ensures var es := [Acquire, OpenDone(provider), Leave(0)];
            && Runnable(INITIAL, es)
            && Run(INITIAL, es) == INITIAL.(sessions := [Session(provider, 0, Unscheduled, 0)])
  {
    var es := [Acquire, OpenDone(provider), Leave(0)];
    var s1 := Apply(INITIAL, Acquire);
    var s2 := Apply(s1, OpenDone(provider));
    assert s2.sessions == [Session(provider, 1, Unscheduled, 0)];
    var s3 := Apply(s2, Leave(0));
    assert es[1..] == [OpenDone(provider), Leave(0)] && es[1..][1..] == [Leave(0)] && es[1..][1..][1..] == [];
    assert Runnable(s3, []) && Run(s3, []) == s3;
    assert Runnable(s2, [Leave(0)]) && Run(s2, [Leave(0)]) == s3;
    assert Runnable(s1, es[1..]) && Run(s1, es[1..]) == s3;
  }

  // --- Shutdown ---

  /** After the sweep of a shutdown the table stays empty, whatever opens were still in flight. */
  lemma {:induction false} SweptStaysEmpty(s: State, es: seq<Event>)
    requires Inv(s) && s.swept && Runnable(s, es)
    ensures Run(s, es).table == {} && Run(s, es).stopping
    decreases |es|
  {
    if es != [] {
      StepKeepsInv(s, es[0]);
      SweptStaysEmpty(Apply(s, es[0]), es[1..]);
    }
  }

  function Handlers(sessions: seq<Session>): nat {
    if sessions == [] then 0
    else Handlers(sessions[..|sessions| - 1]) + Load(sessions[|sessions| - 1])
  }

  /** Steps a session can still take after the sweep. */
  function Load(s: Session): nat {
    s.handlers + match s.task case Unscheduled => 2 case Running => 1 case Finished => 0
  }

  lemma {:induction false} HandlersAt(a: seq<Session>, i: nat, x: Session)
    requires i < |a|
    ensures Handlers(a[i := x]) == Handlers(a) - Load(a[i]) + Load(x)
  {
    var n := |a| - 1;
    if i == n {
      assert a[i := x][..n] == a[..n];
    } else {
      HandlersAt(a[..n], i, x);
      assert a[i := x][..n] == a[..n][i := x];
    }
  }

  /** Work left after the sweep: each open ends, may create one session with one request, and each of
      these takes at most three steps. */
  function Work(s: State): nat {
    4 * s.opening + Handlers(s.sessions)
  }

  predicate Progress(s: State, e: Event) {
    e.OpenFailed? || e.OpenDone? || e.Register? || e.Refuse? || e.Leave? || e.Finish?
  }

  lemma OneShrinks(a: seq<Session>, i: nat, b: seq<Session>)
    requires i < |a| == |b| && Load(b[i]) < Load(a[i])
    requires forall k :: 0 <= k < |a| && k != i ==> b[k] == a[k]
    ensures Handlers(b) < Handlers(a)
  {
    assert b == a[i := b[i]];
    HandlersAt(a, i, b[i]);
  }

  lemma OpenedShrinks(s: State, provider: int)
    requires Enabled(s, OpenDone(provider))
    ensures Work(Apply(s, OpenDone(provider))) < Work(s)
  {
    var more := s.sessions + [Session(provider, 1, Unscheduled, 0)];
    assert more[..|more| - 1] == s.sessions;
  }

  lemma ProgressShrinks(s: State, e: Event)
    requires Inv(s) && s.swept && Enabled(s, e)
    ensures Progress(s, e) ==> Work(Apply(s, e)) < Work(s)
    ensures !Progress(s, e) ==> Work(Apply(s, e)) == Work(s) && Apply(s, e).sessions == s.sessions
  {
    match e
    case OpenDone(p) => OpenedShrinks(s, p);
    case Register(i) => OneShrinks(s.sessions, i, Apply(s, e).sessions);
    case Refuse(i) => OneShrinks(s.sessions, i, Apply(s, e).sessions);
    case Leave(i) => OneShrinks(s.sessions, i, Apply(s, e).sessions);
    case Finish(i) => OneShrinks(s.sessions, i, Apply(s, e).sessions);
    case Invalidate(p) => assert Apply(s, e).sessions == s.sessions;
    case Sweep => assert Apply(s, e).sessions == s.sessions;
    case _ =>
  }

  /** While permits are missing after the sweep, some step is possible that brings them nearer. */
  lemma MissingPermitsProgress(s: State) returns (e: Event)
    requires Inv(s) && s.swept && s.free < MAX_SESSIONS
    ensures Enabled(s, e) && Progress(s, e)
  {
    if s.opening > 0 {
      e := OpenFailed;
    } else {
      assert AliveSet(s.sessions, s.table) != {};
      var i :| i in AliveSet(s.sessions, s.table);
      e := if s.sessions[i].task.Running? then Finish(i) else Leave(i);
    }
  }

  /** After the sweep of a shutdown there is always a way to the state in which all permits are back. */
  lemma {:induction false} PermitsComeBack(s: State) returns (es: seq<Event>)
    requires Inv(s) && s.swept
    ensures Runnable(s, es) && |es| <= Work(s)
    ensures Run(s, es).free == MAX_SESSIONS && Run(s, es).opening == 0
    decreases Work(s)
  {
    if s.free == MAX_SESSIONS {
      es := [];
    } else {
      var e := MissingPermitsProgress(s);
      StepKeepsInv(s, e);
      ProgressShrinks(s, e);
      var rest := PermitsComeBack(Apply(s, e));
      es := [e] + rest;
      assert es[0] == e && es[1..] == rest;
    }
  }

  // --- The object ---

  class PlaybackSessions {
    var sessions: seq<Session>
    var table: set<nat>
    var stopping: bool

    ghost predicate Valid()
      reads this
    {
      && (forall i :: i in table ==> i < |sessions|)
      && (forall i :: 0 <= i < |sessions| ==> Proper(sessions[i], i in table))
    }

    constructor ()
      ensures Valid() && sessions == [] && table == {} && !stopping
    {
      sessions, table, stopping := [], {}, false;
    }

    /** Cancels a session and starts its cleanup, unless somebody did. */
    method ScheduleClose(i: nat)
      requires i < |sessions|
      modifies this`sessions
      ensures sessions == Scheduled(old(sessions), {i})
    {
      if sessions[i].task.Unscheduled? {
        sessions := sessions[i := sessions[i].(task := Running)];
      }
      assert sessions == Scheduled(old(sessions), {i});
    }

    /** The end of an open request; a session that is not listed is closed again. */
    method Register(i: nat, prepared: bool) returns (listed: bool)
      requires Valid() && i < |sessions| && i !in table && sessions[i].task.Unscheduled?
      modifies this
      ensures Valid() && stopping == old(stopping)
      ensures listed == (prepared && !stopping && |old(table)| < MAX_SESSIONS)
      ensures table == if listed then old(table) + {i} else old(table)
      ensures sessions == if listed then old(sessions) else Scheduled(old(sessions), {i})
    {
      listed := prepared && !stopping && |table| < MAX_SESSIONS;
      if listed {
        table := table + {i};
      } else {
        ScheduleClose(i);
      }
    }

    method Close(i: nat)
      requires Valid()
      modifies this
      ensures Valid() && stopping == old(stopping) && table == old(table) - {i}
      ensures sessions == if i in old(table) then Scheduled(old(sessions), {i}) else old(sessions)
    {
      if i in table {
        table := table - {i};
        ScheduleClose(i);
      }
    }

    /** Removes and closes the sessions in `which`, one after the other. */
    method CloseAll(which: set<nat>)
      requires Valid() && which <= table
      modifies this
      ensures Valid() && stopping == old(stopping) && table == old(table) - which
      ensures sessions == Scheduled(old(sessions), which)
    {
      var todo := which;
      ghost var was, listed := sessions, table;
      while todo != {}
        invariant todo <= which <= listed && todo <= table
        invariant Valid() && stopping == old(stopping)
        invariant forall k: nat :: k in table <==> k in listed && (k in todo || k !in which)
        invariant |sessions| == |was|
        invariant forall k: nat :: k < |was| ==> sessions[k] == Scheduled(was, which - todo)[k]
        decreases todo
      {
        var i := Pick(todo);
        Close(i);
        todo := todo - {i};
      }
      assert forall k: nat :: k in table <==> k in listed - which;
      assert table == listed - which;
      assert which - todo == which;
    }

    method Invalidate(provider: int)
      requires Valid()
      modifies this
      ensures Valid() && stopping == old(stopping)
      ensures var s := old(State(0, 0, sessions, table, stopping, false, false));
              && table == s.table - Owned(s, provider)
              && sessions == Scheduled(s.sessions, Owned(s, provider))
    {
      CloseAll(Owned(State(0, 0, sessions, table, stopping, false, false), provider));
    }

    method Shutdown()
      requires Valid()
      modifies this
      ensures Valid() && stopping && table == {}
      ensures sessions == Scheduled(old(sessions), old(table))
    {
      stopping := true;
      CloseAll(table);
      assert table == {};
    }
  }
}
