/** Local favourites and the batches of full synchronizations, interleaved: a favourite that is set locally
    during a run outlives everything the run writes.

    The journal of the write mutex decides which favourites a batch may not overwrite; here it is put together
    with the rows that batches and local writers store. */
module FavoriteSync {
  import opened Options
  import opened BatchInput
  import opened BatchTables
  import opened SyncBatch
  import P = SyncProtocol

  datatype State = State(protocol: P.State, db: Store)

  /** `Favorite` is the local writer's step: journal and row under one guard. `Batch` commits a batch of the
      run that holds the guard, and `Prune` a final transaction; every other step of the protocol may come
      with any change of the database that leaves the favourite marks alone. */
  datatype Event =
    | Other(e: P.Event, db: Store)
    | Favorite(id: int, mark: Value)
    | Batch(batch: BatchInput.Batch, now: int)
    | Prune(db: Store)

  /** The step of the protocol that an event is. */
  function Step(e: Event): P.Event {
    match e
    case Other(step, _) => step
    case Favorite(id, _) => P.Favorite(id)
    case Batch(_, _) => P.CommitWork
    case Prune(_) => P.CommitWork
  }

  ghost predicate MarkIs(db: Store, id: int, mark: Value) {
    id in db.t.dynamics && "favorite_at" in db.t.dynamics[id] && db.t.dynamics[id]["favorite_at"] == mark
  }

  ghost predicate KeepsMarks(before: Store, after: Store) {
    forall id, mark :: MarkIs(before, id, mark) ==> MarkIs(after, id, mark)
  }

  /** A batch of the run that holds the guard, with what the journal tells it. */
  ghost function RunWriter(provider: int, s: P.State, now: int): Writer
    requires s.holder.Working? && s.holder.token in s.runs
  {
    Writer(provider, now, iset id | s.shared.ChangedAfter(id, s.runs[s.holder.token].revision))
  }

  ghost predicate Enabled(provider: int, s: State, e: Event) {
    && P.Enabled(s.protocol, Step(e))
    && match e
       case Other(step, db) => !step.CommitWork? && KeepsMarks(s.db, db) && DynamicsWellFormed(db.t.dynamics)
       case Favorite(_, _) => s.protocol.holder.Local?
       case Batch(b, now) =>
         && s.protocol.holder.Working? && !s.protocol.holder.final && s.protocol.holder.token in s.protocol.runs
         && DynamicsWellFormed(s.db.t.dynamics)
         && SyncBatch.Apply(s.db, b, RunWriter(provider, s.protocol, now)).Some?
       case Prune(db) => s.protocol.holder.Working? && s.protocol.holder.final && DynamicsWellFormed(db.t.dynamics)
  }

  function Marked(db: Store, id: int, mark: Value): Store {
    var row := RowOf(db.t.dynamics, id, DYNAMIC_ROW);
    db.(t := db.t.(dynamics := db.t.dynamics[id := row["favorite_at" := mark]]))
  }

  ghost function After(provider: int, s: State, e: Event): Store
    requires Enabled(provider, s, e)
  {
    match e
    case Other(_, db) => db
    case Favorite(id, mark) => Marked(s.db, id, mark)
    case Batch(b, now) => SyncBatch.Apply(s.db, b, RunWriter(provider, s.protocol, now)).value
    case Prune(db) => db
  }

  ghost function Apply(provider: int, s: State, e: Event): State
    requires Enabled(provider, s, e)
  {
    State(P.Apply(s.protocol, Step(e)), After(provider, s, e))
  }

  ghost predicate Goes(provider: int, s: State, e: Event, s': State) {
    Enabled(provider, s, e) && s' == Apply(provider, s, e)
  }

  /** Step `i` of a sequence of states is the event `es[i]`. */
  ghost predicate Moves(provider: int, tr: seq<State>, es: seq<Event>, i: nat)
    requires |tr| == |es| + 1 && i < |es|
  {
    Goes(provider, tr[i], es[i], tr[i + 1])
  }

  /** Events that are possible one after the other, from state to state. */
  ghost predicate Path(provider: int, tr: seq<State>, es: seq<Event>) {
    |tr| == |es| + 1 && forall i :: 0 <= i < |es| ==> Moves(provider, tr, es, i)
  }

  ghost predicate Behavior(provider: int, tr: seq<State>, es: seq<Event>) {
    Path(provider, tr, es) && tr[0].protocol == P.INITIAL && DynamicsWellFormed(tr[0].db.t.dynamics)
  }

  // --- The protocol below ---

  function States(tr: seq<State>): (r: seq<P.State>)
    ensures |r| == |tr| && forall i :: 0 <= i < |tr| ==> r[i] == tr[i].protocol
  {
    seq(|tr|, i requires 0 <= i < |tr| => tr[i].protocol)
  }

  function Steps(es: seq<Event>): (r: seq<P.Event>)
    ensures |r| == |es| && forall i :: 0 <= i < |es| ==> r[i] == Step(es[i])
  {
    seq(|es|, i requires 0 <= i < |es| => Step(es[i]))
  }

  lemma ProtocolBehaves(provider: int, tr: seq<State>, es: seq<Event>)
    requires Behavior(provider, tr, es)
    ensures P.Behavior(States(tr), Steps(es))
  {
    forall i | 0 <= i < |es|
      ensures P.Enabled(States(tr)[i], Steps(es)[i]) && States(tr)[i + 1] == P.Apply(States(tr)[i], Steps(es)[i])
    {
      assert Moves(provider, tr, es, i);
    }
  }

  /** A run that existed at `j` started before `j`. */
  lemma StartedBefore(tr: seq<P.State>, es: seq<P.Event>, s: nat, j: nat, t: nat)
    requires P.Behavior(tr, es) && P.StartsAt(tr, es, s, t) && j <= |es| && t in tr[j].runs
    ensures s < j
  {
    if j <= s {
      P.RunPersists(tr, es, j, s, t);
      P.BehaviorInv(tr, es, s);
      assert false;
    }
  }

  /** Between a moment without a guard and a local writer's step, a local guard was granted. */
  lemma {:induction false} LocalWasGranted(tr: seq<P.State>, es: seq<P.Event>, s: nat, j: nat) returns (g: nat)
    requires P.Behavior(tr, es) && s < j <= |es| && tr[s + 1].holder.Free? && tr[j].holder.Local?
    ensures s < g < j && es[g].GrantLocal?
  {
    if es[j - 1].GrantLocal? {
      g := j - 1;
    } else {
      assert tr[j - 1].holder.Local?;
      g := LocalWasGranted(tr, es, s, j - 1);
    }
  }

  /** A run that existed when a local writer held the guard commits no prune afterwards. */
  lemma NoPruneAfterLocal(tr: seq<P.State>, es: seq<P.Event>, j: nat, k: nat)
    requires P.Behavior(tr, es) && j < k < |es| && tr[j].holder.Local?
    requires es[k].CommitWork? && tr[k].holder.Working? && tr[k].holder.token in tr[j].runs
    ensures !tr[k].holder.final
  {
    if tr[k].holder.final {
      var s := P.PruneIsExclusive(tr, es, k);
      StartedBefore(tr, es, s, j, tr[k].holder.token);
      var g := LocalWasGranted(tr, es, s, j);
      assert false;
    }
  }

  // --- Favourites ---

  lemma MarkedWellFormed(db: Store, id: int, mark: Value)
    requires DynamicsWellFormed(db.t.dynamics)
    ensures DynamicsWellFormed(Marked(db, id, mark).t.dynamics) && MarkIs(Marked(db, id, mark), id, mark)
  {
  }

  lemma StepStaysWellFormed(provider: int, s: State, e: Event)
    requires Enabled(provider, s, e) && DynamicsWellFormed(s.db.t.dynamics)
    ensures DynamicsWellFormed(After(provider, s, e).t.dynamics)
  {
    match e
    case Other(_, _) =>
    case Favorite(id, mark) => MarkedWellFormed(s.db, id, mark);
    case Batch(b, now) => DynamicsStayWellFormed(s.db, b, RunWriter(provider, s.protocol, now));
    case Prune(_) =>
  }

  lemma {:induction false} StaysWellFormed(provider: int, tr: seq<State>, es: seq<Event>, i: nat)
    requires Behavior(provider, tr, es) && i <= |es|
    ensures DynamicsWellFormed(tr[i].db.t.dynamics)
  {
    if i > 0 {
      StaysWellFormed(provider, tr, es, i - 1);
      assert Moves(provider, tr, es, i - 1);
      StepStaysWellFormed(provider, tr[i - 1], es[i - 1]);
    }
  }

  /** Nobody sets the favourite of `id` again, and whoever commits for a run commits for one that existed
      at `j`. */
  ghost predicate Undisturbed(tr: seq<State>, es: seq<Event>, j: nat, i: nat, id: int)
    requires |tr| == |es| + 1 && j < i <= |es|
  {
    forall k :: j < k < i ==>
      && !(es[k].Favorite? && es[k].id == id)
      && (Step(es[k]).CommitWork? ==>
            tr[k].protocol.holder.Working? && tr[k].protocol.holder.token in tr[j].protocol.runs)
  }

  /** The batch of a run that existed when the favourite was set leaves it as it is. */
  lemma BatchLeavesMark(provider: int, tr: seq<State>, es: seq<Event>, j: nat, k: nat, id: int, mark: Value)
    requires Behavior(provider, tr, es) && j < k < |es| && es[j] == Favorite(id, mark) && es[k].Batch?
    requires tr[k].protocol.holder.Working? && tr[k].protocol.holder.token in tr[j].protocol.runs
    requires MarkIs(tr[k].db, id, mark)
    ensures MarkIs(tr[k + 1].db, id, mark)
  {
    ProtocolBehaves(provider, tr, es);
    var t := tr[k].protocol.holder.token;
    P.BehaviorInv(States(tr), Steps(es), k);
    var s := P.FindStart(States(tr), Steps(es), k, t);
    StartedBefore(States(tr), Steps(es), s, j, t);
    assert Moves(provider, tr, es, j);
    P.BatchSeesLocalFavorites(States(tr), Steps(es), s, j, k, id);
    StaysWellFormed(provider, tr, es, k);
    assert Moves(provider, tr, es, k);
    BatchKeepsLocalFavorites(tr[k].db, es[k].batch, RunWriter(provider, tr[k].protocol, es[k].now), id);
  }

  lemma MarkStaysAt(provider: int, tr: seq<State>, es: seq<Event>, j: nat, k: nat, id: int, mark: Value)
    requires Behavior(provider, tr, es) && j < k < |es| && es[j] == Favorite(id, mark)
    requires Undisturbed(tr, es, j, k + 1, id) && MarkIs(tr[k].db, id, mark)
    ensures MarkIs(tr[k + 1].db, id, mark)
  {
    assert Moves(provider, tr, es, k);
    match es[k]
    case Other(_, db) =>
    case Favorite(other, _) =>
    case Batch(_, _) => BatchLeavesMark(provider, tr, es, j, k, id, mark);
    case Prune(_) =>
      ProtocolBehaves(provider, tr, es);
      assert Moves(provider, tr, es, j);
      NoPruneAfterLocal(States(tr), Steps(es), j, k);
  }

  /** A favourite that is set locally stays as it was set, through every batch of every run that had begun,
      until it is set again or a run that began later commits. */
  lemma {:induction false} LocalFavoriteStays(provider: int, tr: seq<State>, es: seq<Event>, j: nat, i: nat, id: int, mark: Value)
    requires Behavior(provider, tr, es) && j < i <= |es| && es[j] == Favorite(id, mark)
    requires Undisturbed(tr, es, j, i, id)
    ensures MarkIs(tr[i].db, id, mark)
    decreases i - j
  {
    assert Moves(provider, tr, es, j);
    if i > j + 1 {
      LocalFavoriteStays(provider, tr, es, j, i - 1, id, mark);
      MarkStaysAt(provider, tr, es, j, i - 1, id, mark);
    }
  }

  // --- Batches happen ---

  /** A step of the protocol alone. */
  lemma Lift(provider: int, db: Store, p: P.State, e: P.Event, p': P.State)
    requires P.Goes(p, e, p') && !e.CommitWork? && DynamicsWellFormed(db.t.dynamics)
    ensures Goes(provider, State(p, db), Other(e, db), State(p', db))
  {
  }

  lemma LiftMark(provider: int, db: Store, p: P.State, id: int, mark: Value, p': P.State)
    requires P.Goes(p, P.Favorite(id), p') && p.holder.Local?
    ensures Goes(provider, State(p, db), Favorite(id, mark), State(p', Marked(db, id, mark)))
  {
  }

  /** The commit of a batch that the database accepts. */
  lemma LiftBatch(provider: int, s: State, b: BatchInput.Batch, now: int, p: P.State)
    requires P.Goes(s.protocol, P.CommitWork, p) && s.protocol.holder.Working? && !s.protocol.holder.final
    requires s.protocol.holder.token in s.protocol.runs && DynamicsWellFormed(s.db.t.dynamics)
    requires SyncBatch.Apply(s.db, b, RunWriter(provider, s.protocol, now)).Some?
    ensures Goes(provider, s, Event.Batch(b, now),
                 State(p, SyncBatch.Apply(s.db, b, RunWriter(provider, s.protocol, now)).value))
  {
  }

  /** The writer of run `t`, whatever guard it holds. */
  ghost function WriterOf(provider: int, s: P.State, t: nat, now: int): Writer
    requires t in s.runs
  {
    Writer(provider, now, iset id | s.shared.ChangedAfter(id, s.runs[t].revision))
  }

  lemma SameWriter(provider: int, s: P.State, t: nat, now: int, p: seq<P.State>)
    requires t in s.runs && s.holder.Free? && |p| >= 3 && p[0] == s
    requires P.Goes(p[0], P.GrantRun(t, false), p[1]) && P.Goes(p[1], P.Authorise, p[2])
    requires p[2].holder == P.Working(t, false, P.Authorised)
    ensures t in p[2].runs && RunWriter(provider, p[2], now) == WriterOf(provider, s, t, now)
  {
    var a, b := RunWriter(provider, p[2], now), WriterOf(provider, s, t, now);
    assert forall id :: id in a.changed <==> id in b.changed;
    assert a.changed == b.changed;
  }

  lemma CommitStep(provider: int, db: Store, s: P.State, t: nat, b: BatchInput.Batch, now: int, p: seq<P.State>, after: Store)
    requires t in s.runs && s.holder.Free? && DynamicsWellFormed(db.t.dynamics) && |p| == 5 && p[0] == s
    requires P.Goes(p[0], P.GrantRun(t, false), p[1]) && P.Goes(p[1], P.Authorise, p[2])
    requires p[2].holder == P.Working(t, false, P.Authorised) && P.Goes(p[2], P.CommitWork, p[3])
    requires SyncBatch.Apply(db, b, WriterOf(provider, s, t, now)) == Some(after)
    ensures Goes(provider, State(p[2], db), Event.Batch(b, now), State(p[3], after))
  {
    SameWriter(provider, s, t, now, p);
    LiftBatch(provider, State(p[2], db), b, now, p[3]);
  }

  /** Whenever the mutex is free, an open run that owns the token commits every batch that the database
      accepts, and the database is what the batch makes of it. */
  lemma BatchCommits(provider: int, s: P.State, db: Store, t: nat, b: BatchInput.Batch, now: int, after: Store)
    returns (p: seq<P.State>)
    requires s.holder.Free? && P.Callable(s, t) && s.runs[t].stage.Open? && s.shared.active == t
    requires DynamicsWellFormed(db.t.dynamics)
    requires SyncBatch.Apply(db, b, WriterOf(provider, s, t, now)) == Some(after)
    ensures |p| == 5 && p[0] == s && p[2].holder == P.Working(t, false, P.Authorised)
    ensures Goes(provider, State(s, db), Other(P.GrantRun(t, false), db), State(p[1], db))
    ensures Goes(provider, State(p[1], db), Other(P.Authorise, db), State(p[2], db))
    ensures Goes(provider, State(p[2], db), Event.Batch(b, now), State(p[3], after))
    ensures Goes(provider, State(p[3], after), Other(P.Release, after), State(p[4], after))
    ensures p[4].holder.Free? && p[4].log == s.log + [P.Commit(t, false)]
  {
    p := P.BatchCommits(s, t);
    Lift(provider, db, s, P.GrantRun(t, false), p[1]);
    Lift(provider, db, p[1], P.Authorise, p[2]);
    CommitStep(provider, db, s, t, b, now, p, after);
    DynamicsStayWellFormed(db, b, WriterOf(provider, s, t, now));
    Lift(provider, after, p[3], P.Release, p[4]);
  }

  // --- A run in which the journal matters ---

  /** One more step; what was before stays. */
  lemma Extend(provider: int, tr: seq<State>, es: seq<Event>, e: Event, s: State) returns (tr': seq<State>, es': seq<Event>)
    requires Behavior(provider, tr, es) && Goes(provider, tr[|es|], e, s)
    ensures Behavior(provider, tr', es') && |es'| == |es| + 1 && es'[|es|] == e && tr'[|es'|] == s
    ensures forall k :: 0 <= k < |es| ==> es'[k] == es[k]
    ensures forall k :: 0 <= k <= |es| ==> tr'[k] == tr[k]
  {
    tr', es' := tr + [s], es + [e];
    forall i | 0 <= i < |es'| ensures Moves(provider, tr', es', i) {
      if i < |es| { SameMove(provider, tr, es, tr', es', i); }
    }
  }

  lemma SameMove(provider: int, tr: seq<State>, es: seq<Event>, tr': seq<State>, es': seq<Event>, i: nat)
    requires |tr| == |es| + 1 && |tr'| == |es'| + 1 && i < |es| && i < |es'| && Moves(provider, tr, es, i)
    requires tr'[i] == tr[i] && tr'[i + 1] == tr[i + 1] && es'[i] == es[i]
    ensures Moves(provider, tr', es', i)
  {
    assert Goes(provider, tr'[i], es'[i], tr'[i + 1]);
  }

  /** Without the journal, the batch that contradicts itself would take a stored mark away. */
  lemma ContradictionUnmarks(provider: int, db: Store, id: int, now: int)
    requires DynamicsWellFormed(db.t.dynamics) && id in db.t.dynamics && Counting(db.t, id)
    requires id in db.reg.items && db.reg.items[id].provider == provider
    ensures var w := Writer(provider, now, iset{});
            && SyncBatch.Apply(db, Contradiction(id), w).Some?
            && MarkIs(SyncBatch.Apply(db, Contradiction(id), w).value, id, Nil)
  {
    var w := Writer(provider, now, iset{});
    ContradictionApplies(db, id, w);
    ContradictionRow(db.t, id, w);
  }

  /** A step that commits nothing and sets no mark. */
  predicate Quiet(e: Event) {
    e.Other? && !e.e.CommitWork?
  }

  /** What a behaviour needs to show that a local favourite outlives a batch that would remove it. */
  ghost predicate Contested(tr: seq<State>, es: seq<Event>, db: Store, id: int, mark: Value, now: int) {
    && |tr| == 11 && |es| == 10 && tr[0].db == db && tr[8].db == Marked(db, id, mark)
    && es[4] == Favorite(id, mark) && es[8] == Event.Batch(Contradiction(id), now)
    && Quiet(es[5]) && Quiet(es[6]) && Quiet(es[7])
    && tr[8].protocol.holder == P.Working(1, false, P.Authorised) && 1 in tr[4].protocol.runs
  }

  /** A run starts, `mark` is set locally, and the run commits a batch that would remove it. */
  lemma ContestedBatch(provider: int, db: Store, id: int, mark: Value, now: int) returns (tr: seq<State>, es: seq<Event>)
    requires DynamicsWellFormed(db.t.dynamics) && id !in db.t.dynamics
    requires id in db.reg.items && db.reg.items[id].provider == provider
    ensures Behavior(provider, tr, es) && Contested(tr, es, db, id, mark, now)
  {
    var p := FirstMark(id);
    var db' := Marked(db, id, mark);
    MarkedWellFormed(db, id, mark);
    var w := WriterOf(provider, p[6], 1, now);
    ContradictionApplies(db', id, w);
    var after := SyncBatch.Apply(db', Contradiction(id), w).value;
    var q := BatchCommits(provider, p[6], db', 1, Contradiction(id), now, after);
    tr, es := StartOfContest(provider, db, id, mark, p);
    tr, es := EndOfContest(provider, tr, es, db', q, Contradiction(id), now, after);
  }

  lemma EndOfContest(provider: int, tr: seq<State>, es: seq<Event>, db: Store, p: seq<P.State>, b: BatchInput.Batch,
                     now: int, after: Store) returns (tr': seq<State>, es': seq<Event>)
    requires Behavior(provider, tr, es) && |es| == 6 && |p| == 5 && tr[6] == State(p[0], db)
    requires Goes(provider, State(p[0], db), Other(P.GrantRun(1, false), db), State(p[1], db))
    requires Goes(provider, State(p[1], db), Other(P.Authorise, db), State(p[2], db))
    requires Goes(provider, State(p[2], db), Event.Batch(b, now), State(p[3], after))
    requires Goes(provider, State(p[3], after), Other(P.Release, after), State(p[4], after))
    ensures Behavior(provider, tr', es') && |es'| == 10 && tr'[8] == State(p[2], db)
    ensures Quiet(es'[6]) && Quiet(es'[7]) && es'[8] == Event.Batch(b, now)
    ensures es'[4] == es[4] && es'[5] == es[5] && tr'[0] == tr[0] && tr'[4] == tr[4]
  {
    tr', es' := Extend(provider, tr, es, Other(P.GrantRun(1, false), db), State(p[1], db));
    tr', es' := Extend(provider, tr', es', Other(P.Authorise, db), State(p[2], db));
    tr', es' := Extend(provider, tr', es', Event.Batch(b, now), State(p[3], after));
    tr', es' := Extend(provider, tr', es', Other(P.Release, after), State(p[4], after));
  }

  /** The protocol's part up to the release of the local guard. */
  lemma FirstMark(id: int) returns (p: seq<P.State>)
    ensures |p| == 7 && p[0] == P.INITIAL && p[4].holder.Local? && 1 in p[4].runs
    ensures P.Goes(p[0], P.BeginStart, p[1]) && P.Goes(p[1], P.TakeToken, p[2]) && P.Goes(p[2], P.PublishToken, p[3])
    ensures P.Goes(p[3], P.GrantLocal, p[4]) && P.Goes(p[4], P.Favorite(id), p[5]) && P.Goes(p[5], P.Release, p[6])
    ensures p[6].holder.Free? && p[6].shared.active == 1 && p[6].runs == map[1 := P.Run(0, P.Open, false)]
  {
    var q, steps := P.FirstStart();
    var a := P.Apply(q[3], P.GrantLocal);
    var b := P.Apply(a, P.Favorite(id));
    p := [q[0], q[1], q[2], q[3], a, b, P.Apply(b, P.Release)];
  }

  lemma StartOfContest(provider: int, db: Store, id: int, mark: Value, p: seq<P.State>) returns (tr: seq<State>, es: seq<Event>)
    requires DynamicsWellFormed(db.t.dynamics) && |p| == 7 && p[0] == P.INITIAL && p[4].holder.Local?
    requires P.Goes(p[0], P.BeginStart, p[1]) && P.Goes(p[1], P.TakeToken, p[2]) && P.Goes(p[2], P.PublishToken, p[3])
    requires P.Goes(p[3], P.GrantLocal, p[4]) && P.Goes(p[4], P.Favorite(id), p[5]) && P.Goes(p[5], P.Release, p[6])
    ensures Behavior(provider, tr, es) && |es| == 6 && tr[0].db == db && tr[4].protocol == p[4]
    ensures es[4] == Favorite(id, mark) && Quiet(es[5])
    ensures tr[6] == State(p[6], Marked(db, id, mark))
  {
    var db' := Marked(db, id, mark);
    MarkedWellFormed(db, id, mark);
    Lift(provider, db, p[0], P.BeginStart, p[1]);
    Lift(provider, db, p[1], P.TakeToken, p[2]);
    Lift(provider, db, p[2], P.PublishToken, p[3]);
    Lift(provider, db, p[3], P.GrantLocal, p[4]);
    LiftMark(provider, db, p[4], id, mark, p[5]);
    Lift(provider, db', p[5], P.Release, p[6]);
    tr, es := [State(p[0], db)], [];
    tr, es := Extend(provider, tr, es, Other(P.BeginStart, db), State(p[1], db));
    tr, es := Extend(provider, tr, es, Other(P.TakeToken, db), State(p[2], db));
    tr, es := Extend(provider, tr, es, Other(P.PublishToken, db), State(p[3], db));
    tr, es := Extend(provider, tr, es, Other(P.GrantLocal, db), State(p[4], db));
    tr, es := Extend(provider, tr, es, Favorite(id, mark), State(p[5], db'));
    tr, es := Extend(provider, tr, es, Other(P.Release, db'), State(p[6], db'));
  }

  /** The mark stays, although the same batch would have removed it without the journal. */
  lemma JournalMatters(provider: int, tr: seq<State>, es: seq<Event>, db: Store, id: int, mark: Value, now: int)
    requires DynamicsWellFormed(db.t.dynamics) && id !in db.t.dynamics
    requires id in db.reg.items && db.reg.items[id].provider == provider
    requires Behavior(provider, tr, es) && Contested(tr, es, db, id, mark, now)
    ensures MarkIs(tr[8].db, id, mark) && MarkIs(tr[9].db, id, mark)
    ensures var w := Writer(provider, now, iset{});
            && SyncBatch.Apply(tr[8].db, Contradiction(id), w).Some?
            && MarkIs(SyncBatch.Apply(tr[8].db, Contradiction(id), w).value, id, Nil)
  {
    MarkedWellFormed(db, id, mark);
    ContestIsUndisturbed(tr, es, db, id, mark, now);
    LocalFavoriteStays(provider, tr, es, 4, 9, id, mark);
    ContradictionUnmarks(provider, tr[8].db, id, now);
  }

  lemma ContestIsUndisturbed(tr: seq<State>, es: seq<Event>, db: Store, id: int, mark: Value, now: int)
    requires Contested(tr, es, db, id, mark, now)
    ensures Undisturbed(tr, es, 4, 9, id)
  {
    forall k | 4 < k < 9
      ensures !(es[k].Favorite? && es[k].id == id)
      ensures Step(es[k]).CommitWork? ==>
                tr[k].protocol.holder.Working? && tr[k].protocol.holder.token in tr[4].protocol.runs
    {
      assert k == 8 || Quiet(es[k]);
    }
  }
}
