/** The radio session table: insertion, the three ways out of it, and release exactly once. */
module RadioRegistry {
  import opened Options

  const MAX_SESSIONS: nat := 128
  const SESSION_TTL: int := 30 * 60_000

  /** `Held` by its opener, in the table, taken out and not yet released, being released, released. */
  datatype Stage = Held | Listed | Removed | Closing | Done

  datatype Session = Session(provider: int, touched: int, stage: Stage, closed: bool, cleanups: nat)

  /** Sessions are numbered in order of creation. `fit` holds the sessions whose provider object is the
      registered one in its opening epoch. `swept` says that the shutdown's collection took place. */
  datatype State = State(
    clock: int,
    sessions: seq<Session>,
    table: set<nat>,
    fit: set<nat>,
    stopped: bool,
    swept: bool)

  datatype Event =
    | Tick(ms: nat)
    | OpenDone(provider: int)
    | Insert(session: nat, sound: bool)
    | Touch(session: nat)
    | Close(session: nat)
    | Collect
    | Invalidate(provider: int)
    | Unfit(session: nat)
    | Stop
    | Sweep
    | Swap(session: nat)
    | Cleanup(session: nat)

  function Initial(clock: int): State {
    State(clock, [], {}, {}, false, false)
  }

  predicate Usable(s: State, i: nat)
    requires i < |s.sessions|
  {
    !s.stopped && !s.sessions[i].closed && i in s.fit
  }

  /** What a collection takes out. */
  predicate Stale(s: State, i: nat)
    requires i < |s.sessions|
  {
    !Usable(s, i) || s.clock - s.sessions[i].touched >= SESSION_TTL
  }

  function StaleSet(s: State): set<nat> {
    set i | i in s.table && i < |s.sessions| && Stale(s, i)
  }

  function Owned(s: State, provider: int): set<nat> {
    set i | i in s.table && i < |s.sessions| && s.sessions[i].provider == provider
  }

  function Staged(sessions: seq<Session>, which: set<nat>, stage: Stage): (r: seq<Session>)
    ensures |r| == |sessions|
    ensures forall i :: 0 <= i < |r| ==> r[i] == if i in which then sessions[i].(stage := stage) else sessions[i]
  {
    seq(|sessions|, (i: nat) requires i < |sessions| =>
      if i in which then sessions[i].(stage := stage) else sessions[i])
  }

  function TakenOut(s: State, which: set<nat>): State {
    s.(table := s.table - which, sessions := Staged(s.sessions, which, Removed))
  }

  predicate Enabled(s: State, e: Event) {
    match e
    case Insert(i, _) => i < |s.sessions| && s.sessions[i].stage.Held?
    case Touch(i) => i < |s.sessions| && i in s.table && Usable(s, i)
    case Close(i) => i < |s.sessions| && i in s.table
    case Unfit(i) => i < |s.sessions|
    case Sweep => s.stopped
    case Swap(i) => i < |s.sessions| && s.sessions[i].stage.Removed?
    case Cleanup(i) => i < |s.sessions| && s.sessions[i].stage.Closing?
    case _ => true
  }

  function Apply(s: State, e: Event): State
    requires Enabled(s, e)
  {
    match e
    case Tick(ms) => s.(clock := s.clock + ms)
    case OpenDone(p) =>
      s.(sessions := s.sessions + [Session(p, s.clock, Held, false, 0)], fit := s.fit + {|s.sessions|})
    case Insert(i, sound) =>
      if sound && Usable(s, i) && |s.table| < MAX_SESSIONS
      then s.(table := s.table + {i}, sessions := Staged(s.sessions, {i}, Listed))
      else s.(sessions := Staged(s.sessions, {i}, Removed))
    case Touch(i) => s.(sessions := s.sessions[i := s.sessions[i].(touched := s.clock)])
    case Close(i) => TakenOut(s, {i})
    case Collect => TakenOut(s, StaleSet(s))
    case Invalidate(p) => TakenOut(s, Owned(s, p))
    case Unfit(i) => s.(fit := s.fit - {i})
    case Stop => s.(stopped := true)
    case Sweep => TakenOut(s, StaleSet(s)).(swept := true)
    case Swap(i) =>
      if s.sessions[i].closed then s.(sessions := Staged(s.sessions, {i}, Done))
      else s.(sessions := s.sessions[i := s.sessions[i].(stage := Closing, closed := true)])
    case Cleanup(i) =>
      s.(sessions := s.sessions[i := s.sessions[i].(stage := Done, cleanups := s.sessions[i].cleanups + 1)])
  }

  predicate Proper(s: Session, listed: bool) {
    && (listed <==> s.stage.Listed?)
    && (s.closed <==> s.stage.Closing? || s.stage.Done?)
    && s.cleanups == (if s.stage.Done? then 1 else 0)
  }

  predicate Inv(s: State) {
    && (forall i :: i in s.table ==> i < |s.sessions|)
    && (forall i :: 0 <= i < |s.sessions| ==> Proper(s.sessions[i], i in s.table))
    && |s.table| <= MAX_SESSIONS
    && (s.swept ==> s.stopped && s.table == {})
  }

  lemma TakenOutKeepsInv(s: State, which: set<nat>)
    requires Inv(s) && which <= s.table
    ensures Inv(TakenOut(s, which))
  {
    assert s.table == (s.table - which) + which;
    assert |s.table| == |s.table - which| + |which|;
    var t := TakenOut(s, which);
    forall i | 0 <= i < |t.sessions| ensures Proper(t.sessions[i], i in t.table) {
      assert Proper(s.sessions[i], i in s.table);
    }
  }

  lemma InsertKeepsInv(s: State, i: nat, sound: bool)
    requires Inv(s) && Enabled(s, Insert(i, sound))
    ensures Inv(Apply(s, Insert(i, sound)))
  {
    var t := Apply(s, Insert(i, sound));
    forall k | 0 <= k < |t.sessions| ensures Proper(t.sessions[k], k in t.table) {
      assert Proper(s.sessions[k], k in s.table);
    }
  }

  /** A stopped registry has no usable session: its collection empties the table. */
  lemma SweepEmpties(s: State)
    requires Inv(s) && s.stopped
    ensures StaleSet(s) == s.table && TakenOut(s, StaleSet(s)).table == {}
  {
    assert forall i :: i in StaleSet(s) <==> i in s.table;
    assert StaleSet(s) == s.table;
  }

  lemma StepKeepsInv(s: State, e: Event)
    requires Inv(s) && Enabled(s, e)
    ensures Inv(Apply(s, e))
  {
    match e
    case Insert(i, sound) => InsertKeepsInv(s, i, sound);
    case Close(i) => TakenOutKeepsInv(s, {i});
    case Collect => TakenOutKeepsInv(s, StaleSet(s));
    case Invalidate(p) => TakenOutKeepsInv(s, Owned(s, p));
    case Sweep => TakenOutKeepsInv(s, StaleSet(s)); SweepEmpties(s);
    case _ =>
      var t := Apply(s, e);
      forall k | 0 <= k < |t.sessions| ensures Proper(t.sessions[k], k in t.table) {
        if k < |s.sessions| { assert Proper(s.sessions[k], k in s.table); }
      }
  }

  predicate Runnable(s: State, es: seq<Event>)
    decreases |es|
  {
    es == [] || (Enabled(s, es[0]) && Runnable(Apply(s, es[0]), es[1..]))
  }

  function Run(s: State, es: seq<Event>): State
    requires Runnable(s, es)
    decreases |es|
  {
    if es == [] then s else Run(Apply(s, es[0]), es[1..])
  }

  /** A session moves forward through its stages only. */
  function Rank(stage: Stage): nat {
    match stage case Held => 0 case Listed => 1 case Removed => 2 case Closing => 3 case Done => 4
  }

  lemma {:induction false} RunKeepsInv(s: State, es: seq<Event>)
    requires Inv(s) && Runnable(s, es)
    ensures Inv(Run(s, es)) && |s.sessions| <= |Run(s, es).sessions|
    ensures forall i :: 0 <= i < |s.sessions| ==> Rank(s.sessions[i].stage) <= Rank(Run(s, es).sessions[i].stage)
    ensures s.stopped ==> Run(s, es).stopped
    ensures s.swept ==> Run(s, es).swept
    decreases |es|
  {
    if es != [] {
      var t := Apply(s, es[0]);
      StepKeepsInv(s, es[0]);
      StepGoesForward(s, es[0]);
      RunKeepsInv(t, es[1..]);
      forall i | 0 <= i < |s.sessions|
        ensures Rank(s.sessions[i].stage) <= Rank(Run(s, es).sessions[i].stage)
      {
        assert Rank(t.sessions[i].stage) <= Rank(Run(t, es[1..]).sessions[i].stage);
      }
    }
  }

  lemma StepGoesForward(s: State, e: Event)
    requires Inv(s) && Enabled(s, e)
    ensures |s.sessions| <= |Apply(s, e).sessions|
    ensures forall i :: 0 <= i < |s.sessions| ==> Rank(s.sessions[i].stage) <= Rank(Apply(s, e).sessions[i].stage)
  {
    var t := Apply(s, e);
    forall i | 0 <= i < |s.sessions| ensures Rank(s.sessions[i].stage) <= Rank(t.sessions[i].stage) {
      assert Proper(s.sessions[i], i in s.table);
    }
  }

  /** In every run a session is cleaned up at most once, exactly once when it was released, and what left
      the table never comes back. */
  lemma CleanedOnce(clock: int, es: seq<Event>, more: seq<Event>, i: nat)
    requires Runnable(Initial(clock), es) && Runnable(Run(Initial(clock), es), more)
    requires i < |Run(Initial(clock), es).sessions|
    ensures var s := Run(Initial(clock), es); var t := Run(s, more);
            && i < |t.sessions| && t.sessions[i].cleanups <= 1
            && (t.sessions[i].stage.Done? <==> t.sessions[i].cleanups == 1)
            && (Rank(s.sessions[i].stage) >= 2 ==> i !in t.table && Rank(t.sessions[i].stage) >= 2)
  {
    RunKeepsInv(Initial(clock), es);
    var s := Run(Initial(clock), es);
    RunKeepsInv(s, more);
    assert Proper(Run(s, more).sessions[i], i in Run(s, more).table);
  }

  /** Which sessions are listed after a step: an insertion lists a sound and usable one while fewer than 128 are, a
      close takes out its own, an invalidation the provider's, and a collection those that are no longer usable or were
      not touched for half an hour. */
  lemma ListedIff(s: State, e: Event, i: nat)
    requires Inv(s) && Enabled(s, e) && i < |s.sessions|
    ensures i in Apply(s, e).table <==>
              match e
              case Insert(j, sound) =>
                i in s.table || (i == j && sound && !s.stopped && !s.sessions[i].closed && i in s.fit && |s.table| < 128)
              case Close(j) => i in s.table && i != j
              case Invalidate(p) => i in s.table && s.sessions[i].provider != p
              case Collect => i in s.table && KeptByCollection(s, i)
              case Sweep => i in s.table && KeptByCollection(s, i)
              case _ => i in s.table
  {
  }

  predicate KeptByCollection(s: State, i: nat)
    requires i < |s.sessions|
  {
    !s.stopped && !s.sessions[i].closed && i in s.fit && s.clock - s.sessions[i].touched < 1_800_000
  }

  /** A session keeps its provider, is touched by its opening and by a use only, and stays fit until its provider is
      replaced. A touch is possible exactly for a listed session that is usable. */
  lemma SessionKeeps(s: State, e: Event, i: nat)
    requires Inv(s) && Enabled(s, e) && i < |s.sessions|
    ensures i < |Apply(s, e).sessions| && Apply(s, e).sessions[i].provider == s.sessions[i].provider
    ensures Apply(s, e).sessions[i].touched == if e == Touch(i) then s.clock else s.sessions[i].touched
    ensures i in Apply(s, e).fit <==> i in s.fit && e != Unfit(i)
    ensures Enabled(s, Touch(i)) <==> i in s.table && !s.stopped && !s.sessions[i].closed && i in s.fit
  {
  }

  /** The answer of an opening becomes a fresh session that its opener holds. */
  lemma OpenedIsHeld(s: State, p: int)
    requires Inv(s)
    ensures var t := Apply(s, OpenDone(p));
            && t.sessions == s.sessions + [Session(p, s.clock, Held, false, 0)] && |s.sessions| in t.fit
            && t.table == s.table && |s.sessions| !in t.table
  {
  }

  // --- Shutdown ---

  lemma SweptStaysEmpty(s: State, es: seq<Event>)
    requires Inv(s) && s.swept && Runnable(s, es)
    ensures Run(s, es).table == {}
  {
    RunKeepsInv(s, es);
  }

  /** Stages still ahead of the sessions that are not in the table. */
  function Left(sessions: seq<Session>): nat {
    if sessions == [] then 0 else Left(sessions[..|sessions| - 1]) + 4 - Rank(sessions[|sessions| - 1].stage)
  }

  lemma {:induction false} LeftAt(a: seq<Session>, i: nat, x: Session)
    requires i < |a|
    ensures Left(a[i := x]) == Left(a) + Rank(a[i].stage) - Rank(x.stage)
  {
    var n := |a| - 1;
    if i == n {
      assert a[i := x][..n] == a[..n];
    } else {
      LeftAt(a[..n], i, x);
      assert a[i := x][..n] == a[..n][i := x];
    }
  }

  lemma {:induction false} NothingLeft(a: seq<Session>)
    ensures Left(a) == 0 <==> forall i :: 0 <= i < |a| ==> a[i].stage.Done?
  {
    if a != [] {
      var n := |a| - 1;
      NothingLeft(a[..n]);
      assert a == a[..n] + [a[n]];
      assert (forall i :: 0 <= i < |a| ==> a[i].stage.Done?) <==>
             (forall i :: 0 <= i < n ==> a[..n][i].stage.Done?) && a[n].stage.Done?;
    }
  }

  /** The step that brings a session of a swept registry nearer to its end. */
  function Onward(s: State, i: nat): Event
    requires i < |s.sessions|
  {
    match s.sessions[i].stage
    case Held => Insert(i, true)
    case Removed => Swap(i)
    case _ => Cleanup(i)
  }

  lemma OnwardShrinks(s: State, i: nat)
    requires Inv(s) && s.swept && i < |s.sessions| && !s.sessions[i].stage.Done?
    ensures Enabled(s, Onward(s, i)) && Left(Apply(s, Onward(s, i)).sessions) < Left(s.sessions)
    ensures Inv(Apply(s, Onward(s, i))) && Apply(s, Onward(s, i)).swept
    ensures |Apply(s, Onward(s, i)).sessions| == |s.sessions|
  {
    assert Proper(s.sessions[i], i in s.table);
    var e := Onward(s, i);
    StepKeepsInv(s, e);
    var t := Apply(s, e);
    assert t.sessions == s.sessions[i := t.sessions[i]];
    LeftAt(s.sessions, i, t.sessions[i]);
  }

  /** After the sweep, whoever still holds a session can bring it to its end: opens in flight are refused
      even when sound, and every session is cleaned up. */
  lemma {:induction false} EveryoneIsReleased(s: State) returns (es: seq<Event>)
    requires Inv(s) && s.swept
    ensures Runnable(s, es)
    ensures |Run(s, es).sessions| == |s.sessions|
    ensures forall i :: 0 <= i < |s.sessions| ==> Run(s, es).sessions[i].cleanups == 1
    decreases Left(s.sessions)
  {
    NothingLeft(s.sessions);
    if Left(s.sessions) == 0 {
      es := [];
      assert forall i :: 0 <= i < |s.sessions| ==> Proper(s.sessions[i], i in s.table);
    } else {
      var i: nat :| i < |s.sessions| && !s.sessions[i].stage.Done?;
      OnwardShrinks(s, i);
      var rest := EveryoneIsReleased(Apply(s, Onward(s, i)));
      es := [Onward(s, i)] + rest;
      assert es[1..] == rest;
    }
  }

  // --- The object ---

  class RadioSessions {
    var sessions: seq<Session>
    var table: set<nat>
    var stopped: bool

    ghost function View(clock: int, fit: set<nat>): State
      reads this
    {
      State(clock, sessions, table, fit, stopped, false)
    }

    constructor ()
      ensures forall clock :: View(clock, {}) == Initial(clock)
    {
      sessions, table, stopped := [], {}, false;
    }

    /** Insertion looks at the stop flag under the table lock. */
    method Insert(i: nat, sound: bool, fit: set<nat>) returns (inserted: bool)
      requires Inv(View(0, fit)) && Enabled(View(0, fit), Event.Insert(i, sound))
      modifies this
      ensures View(0, fit) == old(Apply(View(0, fit), Event.Insert(i, sound)))
      ensures inserted <==> i in table
    {
      inserted := sound && !stopped && !sessions[i].closed && i in fit && |table| < MAX_SESSIONS;
      assert Proper(sessions[i], i in table);
      ghost var t := Apply(View(0, fit), Event.Insert(i, sound));
      if inserted {
        table := table + {i};
        sessions := sessions[i := sessions[i].(stage := Listed)];
      } else {
        sessions := sessions[i := sessions[i].(stage := Removed)];
      }
      assert sessions == t.sessions;
    }

    method TakeOut(which: set<nat>, ghost clock: int, ghost fit: set<nat>)
      requires Inv(View(clock, fit)) && which <= table
      modifies this`table, this`sessions
      ensures View(clock, fit) == old(TakenOut(View(clock, fit), which))
    {
      var todo := which;
      ghost var was, listed := sessions, table;
      while todo != {}
        invariant todo <= which <= listed && todo <= table
        invariant forall k: nat :: k in table <==> k in listed && (k in todo || k !in which)
        invariant |sessions| == |was|
        invariant forall k: nat :: k < |was| ==> sessions[k] == Staged(was, which - todo, Removed)[k]
        decreases todo
      {
        var i := Pick(todo);
        table := table - {i};
        sessions := sessions[i := sessions[i].(stage := Removed)];
        todo := todo - {i};
      }
      assert which - todo == which;
      assert sessions == Staged(was, which, Removed);
      assert forall k: nat :: k in table <==> k in listed - which;
      assert table == listed - which;
    }

    method Collect(clock: int, fit: set<nat>)
      requires Inv(View(clock, fit))
      modifies this`table, this`sessions
      ensures View(clock, fit) == old(Apply(View(clock, fit), Event.Collect))
    {
      var which := StaleSet(State(clock, sessions, table, fit, stopped, false));
      TakeOut(which, clock, fit);
    }

    method Invalidate(provider: int, ghost clock: int, ghost fit: set<nat>)
      requires Inv(View(clock, fit))
      modifies this`table, this`sessions
      ensures View(clock, fit) == old(Apply(View(clock, fit), Event.Invalidate(provider)))
    {
      TakeOut(Owned(State(0, sessions, table, {}, stopped, false), provider), clock, fit);
    }

    method Shutdown(clock: int, fit: set<nat>)
      requires Inv(View(clock, fit))
      modifies this
      ensures stopped && table == {}
      ensures sessions == Staged(old(sessions), old(table), Removed)
    {
      stopped := true;
      SweepEmpties(View(clock, fit));
      Collect(clock, fit);
    }

    /** The cleanup call is made by the first release only. */
    method Release(i: nat) returns (cleaned: bool)
      requires i < |sessions|
      modifies this`sessions
      ensures cleaned <==> !old(sessions)[i].closed
      ensures sessions == if cleaned
                          then old(sessions)[i := old(sessions)[i].(
                                 stage := Done, closed := true, cleanups := old(sessions)[i].cleanups + 1)]
                          else old(sessions)
    {
      cleaned := !sessions[i].closed;
      if cleaned {
        sessions := sessions[i := sessions[i].(closed := true, stage := Closing)];
        sessions := sessions[i := sessions[i].(stage := Done, cleanups := sessions[i].cleanups + 1)];
      }
    }
  }
}
