/** One provider's write serialization and full-sync token, as a labelled transition system.

    Every label is one atomic operation of the coordinator, a write guard, a cancellation handle or a
    sync run; runs, local writers and cancellations interleave freely between labels. */
module SyncProtocol {

  /** Entries the favourites journal holds before it degrades to its overflow mark. */
  const MAX_SEEN: nat := 200_000

  /** The state behind the write mutex and the two atomics next to it. */
  datatype Shared = Shared(
    revision: nat,
    changes: nat,
    favorites: map<int, nat>,
    overflow: nat,
    active: nat,
    sequence: nat)
  {
    /** A local (untokened) guard is granted. */
    function GrantLocal(): Shared {
      this.(revision := revision + 1, changes := changes + 1)
    }

    /** A guard of the active run is granted. */
    function GrantRun(): Shared {
      this.(changes := changes + 1)
    }

    /** The journal is cleared and `token` published by a new run. */
    function Publish(token: nat): Shared {
      this.(active := token, favorites := map[], overflow := 0)
    }

    /** Compare-exchange of `token` with zero. */
    function Clear(token: nat): Shared {
      if active == token then this.(active := 0) else this
    }

    function Favorite(id: int): Shared {
      if active == 0 then this
      else if |favorites| < MAX_SEEN then this.(favorites := favorites[id := revision])
      else this.(overflow := revision)
    }

    predicate ChangedAfter(id: int, since: nat) {
      overflow > since || (id in favorites && favorites[id] > since)
    }
  }

  datatype Stage = Open | Sealed | Failed

  datatype Run = Run(revision: nat, stage: Stage, dropped: bool)

  /** How far the holder of a tokened guard has come. */
  datatype Phase = Granted | Matched | Authorised | Committed

  /** Who holds the write mutex. `Starting(0)` found no active token; `Starting(n)` took token `n`. */
  datatype Holder =
    | Free
    | Starting(token: nat)
    | Local
    | Working(token: nat, final: bool, phase: Phase)

  datatype Commit = Commit(token: nat, final: bool)

  /** `marked` and `log` are history: the ids marked under local guards since the last start, and the
      transactions committed under tokened guards. */
  datatype State = State(
    shared: Shared,
    holder: Holder,
    runs: map<nat, Run>,
    marked: set<int>,
    log: seq<Commit>)

  const INITIAL := State(Shared(0, 0, map[], 0, 0, 0), Free, map[], {}, [])

  datatype Event =
    | BeginStart
    | TakeToken
    | PublishToken
    | GrantLocal
    | Favorite(id: int)
    | Invalidate
    | Release
    | GrantRun(token: nat, final: bool)
    | MatchRevision
    | Authorise
    | CommitWork
    | ClearToken
    | Seal(token: nat)
    | Fail(token: nat)
    | Cancel(token: nat)
    | Drop(token: nat)

  /** The run's owner may call one of its methods: it is neither dropped nor inside a guarded call. */
  predicate Callable(s: State, t: nat) {
    t in s.runs && !s.runs[t].dropped && !(s.holder.Working? && s.holder.token == t)
  }

  predicate Enabled(s: State, e: Event) {
    match e
    case BeginStart => s.holder.Free?
    case TakeToken => s.holder == Starting(0)
    case PublishToken => s.holder.Starting? && s.holder.token != 0
    case GrantLocal => s.holder.Free?
    case Favorite(_) => s.holder.Local? || s.holder.Working?
    case Invalidate => s.holder.Local? || s.holder.Working?
    case Release => s.holder.Local? || (s.holder.Working? && !(s.holder.final && s.holder.phase.Committed?))
    case GrantRun(t, final) =>
      s.holder.Free? && Callable(s, t) && (if final then s.runs[t].stage.Sealed? else s.runs[t].stage.Open?)
    case MatchRevision => s.holder.Working? && s.holder.final && s.holder.phase.Granted?
    case Authorise => s.holder.Working? && s.holder.phase == (if s.holder.final then Matched else Granted)
    case CommitWork => s.holder.Working? && s.holder.phase.Authorised?
    case ClearToken => s.holder.Working? && s.holder.final && s.holder.phase.Committed?
    case Seal(t) => Callable(s, t) && s.runs[t].stage.Open?
    case Fail(t) => Callable(s, t)
    case Cancel(_) => true
    case Drop(t) => Callable(s, t)
  }

  function Apply(s: State, e: Event): State
    requires Enabled(s, e)
  {
    match e
    case BeginStart => if s.shared.active != 0 then s else s.(holder := Starting(0))
    case TakeToken =>
      var next := s.shared.sequence + 1;
      s.(shared := s.shared.(sequence := next), holder := Starting(next))
    case PublishToken =>
      var t := s.holder.token;
      s.(shared := s.shared.Publish(t), holder := Free, marked := {},
         runs := s.runs[t := Run(s.shared.revision, Open, false)])
    case GrantLocal => s.(shared := s.shared.GrantLocal(), holder := Local)
    case Favorite(id) =>
      s.(shared := s.shared.Favorite(id), marked := if s.holder.Local? then s.marked + {id} else s.marked)
    case Invalidate => s.(shared := s.shared.(active := 0))
    case Release => s.(holder := Free)
    case GrantRun(t, final) =>
      if s.shared.active != t then s
      else s.(shared := s.shared.GrantRun(), holder := Working(t, final, Granted))
    case MatchRevision =>
      var t := s.holder.token;
      if t in s.runs && s.runs[t].revision == s.shared.revision then s.(holder := s.holder.(phase := Matched))
      else s.(holder := Free, runs := SetStage(s.runs, t, Failed))
    case Authorise =>
      if s.shared.active == s.holder.token then s.(holder := s.holder.(phase := Authorised))
      else s.(holder := Free)
    case CommitWork =>
      s.(holder := s.holder.(phase := Committed), log := s.log + [Commit(s.holder.token, s.holder.final)])
    case ClearToken => s.(shared := s.shared.(active := 0), holder := Free)
    case Seal(t) => if s.shared.active != t then s else s.(runs := SetStage(s.runs, t, Sealed))
    case Fail(t) => s.(runs := SetStage(s.runs, t, Failed))
    case Cancel(t) => s.(shared := s.shared.Clear(t))
    case Drop(t) => s.(shared := s.shared.Clear(t), runs := s.runs[t := s.runs[t].(dropped := true)])
  }

  function SetStage(runs: map<nat, Run>, t: nat, stage: Stage): map<nat, Run> {
    if t in runs then runs[t := runs[t].(stage := stage)] else runs
  }

  // --- The inductive invariant ---

  ghost predicate TokensInv(s: State) {
    && s.shared.active <= s.shared.sequence
    && (s.shared.active != 0 ==> s.shared.active in s.runs)
    && (forall t :: t in s.runs ==> 0 < t <= s.shared.sequence && s.runs[t].revision <= s.shared.revision)
    && (s.holder.Starting? ==>
          && s.shared.active == 0
          && (s.holder.token != 0 ==> s.holder.token == s.shared.sequence && s.holder.token !in s.runs))
    && (s.holder.Working? ==> s.holder.token in s.runs && s.shared.active in {0, s.holder.token})
    && (s.holder.Working? && s.holder.final && !s.holder.phase.Granted? ==>
          s.runs[s.holder.token].revision == s.shared.revision)
    && (s.holder.Local? && s.shared.active != 0 ==> s.runs[s.shared.active].revision < s.shared.revision)
  }

  /** A run that committed its prune never owns the token again, except until its own store of zero. */
  ghost predicate LogInv(s: State) {
    && (forall c :: c in s.log ==> c.token in s.runs)
    && (forall t :: Commit(t, true) in s.log ==>
          || s.holder == Working(t, true, Committed)
          || (s.shared.active != t && !(s.holder.Working? && s.holder.token == t)))
    && (forall i, j :: 0 <= i < j < |s.log| && s.log[i].final ==> s.log[i] != s.log[j])
  }

  ghost predicate JournalInv(s: State) {
    && (s.shared.active != 0 && s.shared.active in s.runs ==>
          forall id :: id in s.marked ==> s.shared.ChangedAfter(id, s.runs[s.shared.active].revision))
    && (s.holder.Working? && s.holder.token in s.runs ==>
          forall id :: id in s.marked ==> s.shared.ChangedAfter(id, s.runs[s.holder.token].revision))
    && s.shared.overflow <= s.shared.revision
    && (forall id :: id in s.shared.favorites ==> s.shared.favorites[id] <= s.shared.revision)
  }

  ghost predicate Inv(s: State) {
    TokensInv(s) && LogInv(s) && JournalInv(s)
  }

  lemma TokensStep(s: State, e: Event)
    requires Inv(s) && Enabled(s, e)
    ensures TokensInv(Apply(s, e))
  {
  }

  lemma LogStep(s: State, e: Event)
    requires Inv(s) && Enabled(s, e)
    ensures LogInv(Apply(s, e))
  {
    if e.CommitWork? && s.holder.final {
      assert Commit(s.holder.token, true) !in s.log;
    }
  }

  /** Marking one id never makes another marked id look unchanged, overflow included. */
  lemma FavoriteKeepsMarks(sh: Shared, id: int, other: int, since: nat)
    requires sh.overflow <= sh.revision
    requires forall k :: k in sh.favorites ==> sh.favorites[k] <= sh.revision
    ensures sh.ChangedAfter(other, since) ==> sh.Favorite(id).ChangedAfter(other, since)
    ensures sh.active != 0 && since < sh.revision ==> sh.Favorite(id).ChangedAfter(id, since)
  {
  }

  lemma JournalStep(s: State, e: Event)
    requires Inv(s) && Enabled(s, e)
    ensures JournalInv(Apply(s, e))
  {
    var s' := Apply(s, e);
    match e
    case Favorite(id) =>
      forall other, since: nat
        ensures s.shared.ChangedAfter(other, since) ==> s'.shared.ChangedAfter(other, since)
        ensures s.shared.active != 0 && since < s.shared.revision ==> s'.shared.ChangedAfter(id, since)
      {
        FavoriteKeepsMarks(s.shared, id, other, since);
      }
    case _ =>
  }

  lemma StepKeepsInv(s: State, e: Event)
    requires Inv(s) && Enabled(s, e)
    ensures Inv(Apply(s, e))
  {
    TokensStep(s, e);
    LogStep(s, e);
    JournalStep(s, e);
  }

  // --- Runs of the system ---

  /** `tr` is the sequence of states visited while the events `es` happen, from the initial state. */
  ghost predicate Behavior(tr: seq<State>, es: seq<Event>) {
    && |tr| == |es| + 1
    && tr[0] == INITIAL
    && forall i :: 0 <= i < |es| ==> Enabled(tr[i], es[i]) && tr[i + 1] == Apply(tr[i], es[i])
  }

  lemma {:induction false} BehaviorInv(tr: seq<State>, es: seq<Event>, i: nat)
    requires Behavior(tr, es) && i <= |es|
    ensures Inv(tr[i])
  {
    if i > 0 {
      BehaviorInv(tr, es, i - 1);
      StepKeepsInv(tr[i - 1], es[i - 1]);
    }
  }

  /** A token that lost the active slot never gets it back, and its start revision is fixed. */
  lemma StepKeepsRun(s: State, e: Event, t: nat)
    requires Inv(s) && Enabled(s, e) && t in s.runs
    ensures t in Apply(s, e).runs && Apply(s, e).runs[t].revision == s.runs[t].revision
    ensures Apply(s, e).shared.active == t ==> s.shared.active == t
    ensures s.shared.revision <= Apply(s, e).shared.revision
    ensures e.GrantLocal? ==> s.shared.revision < Apply(s, e).shared.revision
  {
  }

  lemma {:induction false} PersistsFrom(tr: seq<State>, es: seq<Event>, i: nat, j: nat, t: nat)
    requires Behavior(tr, es) && i <= j <= |es| && t in tr[i].runs
    ensures t in tr[j].runs && tr[j].runs[t].revision == tr[i].runs[t].revision
    ensures tr[j].shared.active == t ==> tr[i].shared.active == t
    ensures tr[i].shared.revision <= tr[j].shared.revision
    ensures i < j && es[i].GrantLocal? ==> tr[i].shared.revision < tr[j].shared.revision
    decreases j - i
  {
    if i < j {
      BehaviorInv(tr, es, i);
      StepKeepsRun(tr[i], es[i], t);
      PersistsFrom(tr, es, i + 1, j, t);
    }
  }

  lemma RunPersists(tr: seq<State>, es: seq<Event>, i: nat, j: nat, t: nat)
    requires Behavior(tr, es) && i <= j <= |es| && t in tr[i].runs
    ensures t in tr[j].runs && tr[j].runs[t].revision == tr[i].runs[t].revision
    ensures tr[j].shared.active == t ==> forall k :: i <= k <= j ==> tr[k].shared.active == t
    ensures tr[i].shared.revision <= tr[j].shared.revision
    ensures tr[i].shared.revision == tr[j].shared.revision ==> forall k :: i <= k < j ==> !es[k].GrantLocal?
  {
    PersistsFrom(tr, es, i, j, t);
    forall k | i <= k <= j
      ensures tr[j].shared.active == t ==> tr[k].shared.active == t
      ensures k < j && es[k].GrantLocal? ==> tr[i].shared.revision < tr[j].shared.revision
    {
      PersistsFrom(tr, es, i, k, t);
      PersistsFrom(tr, es, k, j, t);
    }
  }

  /** `s` is the index of the step by which the run `t` got its token. */
  ghost predicate StartsAt(tr: seq<State>, es: seq<Event>, s: nat, t: nat)
    requires Behavior(tr, es)
  {
    s < |es| && es[s].PublishToken? && tr[s].holder.token == t
  }

  lemma {:induction false} FindStart(tr: seq<State>, es: seq<Event>, i: nat, t: nat) returns (s: nat)
    requires Behavior(tr, es) && i <= |es| && t in tr[i].runs
    ensures s < i && StartsAt(tr, es, s, t) && tr[i].runs[t].revision == tr[s].shared.revision
  {
    BehaviorInv(tr, es, i - 1);
    if t in tr[i - 1].runs {
      StepKeepsRun(tr[i - 1], es[i - 1], t);
      s := FindStart(tr, es, i - 1, t);
    } else {
      s := i - 1;
    }
  }

  /** The check of the token that let a guarded transaction go on to its commit. */
  lemma {:induction false} FindAuthorise(tr: seq<State>, es: seq<Event>, i: nat) returns (c: nat)
    requires Behavior(tr, es) && i <= |es|
    requires tr[i].holder.Working? && tr[i].holder.phase.Authorised?
    ensures c < i && es[c].Authorise? && tr[c].shared.active == tr[i].holder.token
    ensures tr[c].holder.Working? && tr[c].holder.token == tr[i].holder.token
    ensures forall k :: c < k <= i ==> tr[k].holder == tr[i].holder
  {
    BehaviorInv(tr, es, i - 1);
    if es[i - 1].Authorise? {
      c := i - 1;
    } else {
      c := FindAuthorise(tr, es, i - 1);
    }
  }

  /** A transaction committed under a tokened guard, prune or batch, belongs to a run whose token was
      active in every state from its start to the check before the commit. */
  lemma CommitIsContinuous(tr: seq<State>, es: seq<Event>, i: nat) returns (s: nat, c: nat)
    requires Behavior(tr, es) && i < |es| && es[i].CommitWork?
    ensures s < c < i && StartsAt(tr, es, s, tr[i].holder.token) && es[c].Authorise?
    ensures forall k :: s < k <= c ==> tr[k].shared.active == tr[i].holder.token
    ensures forall k :: c < k <= i ==> tr[k].holder == tr[i].holder
  {
    var t := tr[i].holder.token;
    BehaviorInv(tr, es, i);
    c := FindAuthorise(tr, es, i);
    BehaviorInv(tr, es, c);
    s := FindStart(tr, es, c, t);
    RunPersists(tr, es, s + 1, c, t);
  }

  /** A prune commits only if no local guard was granted since the run's start. */
  lemma PruneIsExclusive(tr: seq<State>, es: seq<Event>, i: nat) returns (s: nat)
    requires Behavior(tr, es) && i < |es| && es[i].CommitWork? && tr[i].holder.final
    ensures s < i && StartsAt(tr, es, s, tr[i].holder.token)
    ensures forall k :: s <= k < i ==> !es[k].GrantLocal?
    ensures tr[i].shared.revision == tr[s].shared.revision
  {
    var t := tr[i].holder.token;
    BehaviorInv(tr, es, i);
    s := FindStart(tr, es, i, t);
    RunPersists(tr, es, s + 1, i, t);
  }

  lemma {:induction false} LogGrows(tr: seq<State>, es: seq<Event>, i: nat, j: nat)
    requires Behavior(tr, es) && i <= j <= |es|
    ensures tr[i].log <= tr[j].log
    decreases j - i
  {
    if i < j {
      LogGrows(tr, es, i, j - 1);
    }
  }

  /** No run commits its prune twice, whatever is called afterwards. */
  lemma PruneAtMostOnce(tr: seq<State>, es: seq<Event>, i: nat, j: nat)
    requires Behavior(tr, es) && i < j < |es|
    requires es[i].CommitWork? && tr[i].holder.final
    requires es[j].CommitWork? && tr[j].holder.final
    ensures tr[i].holder.token != tr[j].holder.token
  {
    LogGrows(tr, es, i + 1, j);
    BehaviorInv(tr, es, j + 1);
    var p := |tr[i].log|;
    var q := |tr[j].log|;
    assert tr[j + 1].log[p] == Commit(tr[i].holder.token, true);
    assert tr[j + 1].log[q] == Commit(tr[j].holder.token, true);
  }

  /** Only its own cancellation, drop or committed prune, or an invalidation under the provider's guard,
      takes the token from a run: an older run's operations never do. */
  lemma OnlyOwnerClears(tr: seq<State>, es: seq<Event>, i: nat)
    requires Behavior(tr, es) && i < |es|
    requires tr[i].shared.active != 0 && tr[i + 1].shared.active != tr[i].shared.active
    ensures tr[i + 1].shared.active == 0
    ensures
      || es[i] == Cancel(tr[i].shared.active)
      || es[i] == Drop(tr[i].shared.active)
      || (es[i].ClearToken? && tr[i].holder == Working(tr[i].shared.active, true, Committed))
      || es[i].Invalidate?
  {
    BehaviorInv(tr, es, i);
  }

  lemma {:induction false} StaysMarked(tr: seq<State>, es: seq<Event>, j: nat, i: nat, id: int)
    requires Behavior(tr, es) && j < i <= |es|
    requires es[j] == Favorite(id) && tr[j].holder.Local?
    requires forall k :: j < k < i ==> !es[k].PublishToken?
    ensures id in tr[i].marked
    decreases i - j
  {
    if i > j + 1 {
      StaysMarked(tr, es, j, i - 1, id);
    }
  }

  /** Nothing else is started while a run owns the token. */
  lemma {:induction false} NoStartWhileActive(tr: seq<State>, es: seq<Event>, i: nat, j: nat, t: nat)
    requires Behavior(tr, es) && i <= j <= |es| && t in tr[i].runs && tr[j].shared.active == t
    ensures forall k :: i <= k < j ==> !es[k].PublishToken?
    decreases j - i
  {
    if i < j {
      BehaviorInv(tr, es, j - 1);
      RunPersists(tr, es, i, j, t);
      assert tr[j - 1].shared.active == t;
      NoStartWhileActive(tr, es, i, j - 1, t);
    }
  }

  /** While a run owns the token, every id marked under a local guard since its start counts as changed
      after the run's revision. */
  lemma LocalFavoriteIsSeen(tr: seq<State>, es: seq<Event>, s: nat, j: nat, i: nat, t: nat, id: int)
    requires Behavior(tr, es) && s < j < i <= |es|
    requires StartsAt(tr, es, s, t)
    requires es[j] == Favorite(id) && tr[j].holder.Local?
    requires tr[i].shared.active == t
    ensures t in tr[i].runs && tr[i].shared.ChangedAfter(id, tr[i].runs[t].revision)
  {
    BehaviorInv(tr, es, s);
    RunPersists(tr, es, s + 1, i, t);
    NoStartWhileActive(tr, es, s + 1, i, t);
    StaysMarked(tr, es, j, i, id);
    BehaviorInv(tr, es, i);
  }

  lemma {:induction false} FindGrant(tr: seq<State>, es: seq<Event>, i: nat) returns (g: nat)
    requires Behavior(tr, es) && i <= |es| && tr[i].holder.Working?
    ensures g < i && es[g].GrantRun? && tr[g].holder.Free? && tr[g].shared.active == tr[i].holder.token
    ensures forall k :: g < k <= i ==> tr[k].holder.Working? && tr[k].holder.token == tr[i].holder.token
  {
    if es[i - 1].GrantRun? && tr[i - 1].holder.Free? {
      g := i - 1;
    } else {
      g := FindGrant(tr, es, i - 1);
    }
  }

  /** Whoever holds a run's guard sees every local mark made since that run's start, even if the run is
      cancelled in the meantime: this is what a batch consults before it writes a favourite. */
  lemma BatchSeesLocalFavorites(tr: seq<State>, es: seq<Event>, s: nat, j: nat, i: nat, id: int)
    requires Behavior(tr, es) && s < j < i <= |es|
    requires tr[i].holder.Working? && StartsAt(tr, es, s, tr[i].holder.token)
    requires es[j] == Favorite(id) && tr[j].holder.Local?
    ensures tr[i].holder.token in tr[i].runs
    ensures tr[i].shared.ChangedAfter(id, tr[i].runs[tr[i].holder.token].revision)
  {
    var t := tr[i].holder.token;
    var g := FindGrant(tr, es, i);
    BehaviorInv(tr, es, s);
    RunPersists(tr, es, s + 1, i, t);
    assert !tr[s + 1].holder.Working?;
    assert s < g;
    NoStartWhileActive(tr, es, s + 1, g, t);
    StaysMarked(tr, es, j, i, id);
    BehaviorInv(tr, es, i);
  }

  // --- Commits happen ---

  /** `s'` is reached from `s` by `e`, which is possible. */
  predicate Goes(s: State, e: Event, s': State) {
    Enabled(s, e) && s' == Apply(s, e)
  }

  /** A step more. */
  lemma Extend(tr: seq<State>, es: seq<Event>, e: Event, s: State)
    requires Behavior(tr, es) && Goes(tr[|es|], e, s)
    ensures Behavior(tr + [s], es + [e])
  {
  }

  /** The shared state after a guard of the active run was granted. */
  function Counted(sh: Shared): Shared {
    sh.(changes := sh.changes + 1)
  }

  /** A sealed run that owns the token and whose revision is still current prunes: whenever the mutex is free,
      its guard, its two checks, its commit and the return of the token are possible one after the other. */
  lemma PruneCommits(s: State, t: nat) returns (path: seq<State>)
    requires s.holder.Free? && Callable(s, t) && s.runs[t].stage.Sealed?
    requires s.shared.active == t && s.runs[t].revision == s.shared.revision
    ensures |path| == 6 && path[0] == s
    ensures Goes(path[0], GrantRun(t, true), path[1]) && Goes(path[1], MatchRevision, path[2])
    ensures Goes(path[2], Authorise, path[3]) && Goes(path[3], CommitWork, path[4]) && Goes(path[4], ClearToken, path[5])
    ensures path[2].holder == Working(t, true, Matched) && path[3].holder == Working(t, true, Authorised)
    ensures path[5] == s.(shared := Counted(s.shared).(active := 0), log := s.log + [Commit(t, true)])
  {
    var s1 := Apply(s, GrantRun(t, true));
    var s2 := Apply(s1, MatchRevision);
    var s3 := Apply(s2, Authorise);
    var s4 := Apply(s3, CommitWork);
    path := [s, s1, s2, s3, s4, Apply(s4, ClearToken)];
  }

  /** An open run that owns the token commits a batch whenever the mutex is free. */
  lemma BatchCommits(s: State, t: nat) returns (path: seq<State>)
    requires s.holder.Free? && Callable(s, t) && s.runs[t].stage.Open? && s.shared.active == t
    ensures |path| == 5 && path[0] == s
    ensures Goes(path[0], GrantRun(t, false), path[1]) && Goes(path[1], Authorise, path[2])
    ensures Goes(path[2], CommitWork, path[3]) && Goes(path[3], Release, path[4])
    ensures path[2].holder == Working(t, false, Authorised)
    ensures path[4] == s.(shared := Counted(s.shared), log := s.log + [Commit(t, false)])
  {
    var s1 := Apply(s, GrantRun(t, false));
    var s2 := Apply(s1, Authorise);
    var s3 := Apply(s2, CommitWork);
    path := [s, s1, s2, s3, Apply(s3, Release)];
  }

  /** Whenever the mutex is free and no run is active, a new run starts: it owns the token, a number never
      used before, with an empty journal and the present revision. */
  lemma RunStarts(s: State) returns (path: seq<State>)
    requires Inv(s) && s.holder.Free? && s.shared.active == 0
    ensures |path| == 4 && path[0] == s
    ensures Goes(path[0], BeginStart, path[1]) && Goes(path[1], TakeToken, path[2]) && Goes(path[2], PublishToken, path[3])
    ensures var t := s.shared.sequence + 1;
            && t !in s.runs
            && path[3].holder.Free? && path[3].log == s.log && path[3].marked == {}
            && path[3].shared == Shared(s.shared.revision, s.shared.changes, map[], 0, t, t)
            && path[3].runs == s.runs[t := Run(s.shared.revision, Open, false)]
  {
    var s1 := Apply(s, BeginStart);
    var s2 := Apply(s1, TakeToken);
    path := [s, s1, s2, Apply(s2, PublishToken)];
  }

  /** What the two checks of a guarded transaction let through, and what they refuse. */
  lemma ChecksDecide(s: State)
    requires Inv(s)
    ensures Enabled(s, MatchRevision) ==>
              var t := s.holder.token;
              if s.runs[t].revision == s.shared.revision then Apply(s, MatchRevision) == s.(holder := Working(t, true, Matched))
              else Apply(s, MatchRevision) == s.(holder := Free, runs := s.runs[t := s.runs[t].(stage := Failed)])
    ensures Enabled(s, Authorise) ==>
              if s.shared.active == s.holder.token then Apply(s, Authorise) == s.(holder := s.holder.(phase := Authorised))
              else Apply(s, Authorise) == s.(holder := Free)
  {
  }

  /** A first run that prunes. */
  lemma FirstPrune() returns (tr: seq<State>, es: seq<Event>)
    ensures Behavior(tr, es) && |es| == 9 && es[7] == CommitWork && tr[7].holder == Working(1, true, Authorised)
    ensures tr[9].log == [Commit(1, true)] && tr[9].shared.active == 0 && tr[9].holder.Free?
  {
    tr, es := FirstStart();
    var sealed := Apply(tr[3], Seal(1));
    Extend(tr, es, Seal(1), sealed);
    tr, es := tr + [sealed], es + [Seal(1)];
    var path := PruneCommits(sealed, 1);
    tr, es := ExtendPrune(tr, es, path, 1);
  }

  /** A first run that commits a batch. */
  lemma FirstBatch() returns (tr: seq<State>, es: seq<Event>)
    ensures Behavior(tr, es) && |es| == 7 && es[5] == CommitWork && tr[5].holder == Working(1, false, Authorised)
    ensures tr[7].log == [Commit(1, false)] && tr[7].shared.active == 1 && tr[7].holder.Free?
  {
    tr, es := FirstStart();
    var path := BatchCommits(tr[3], 1);
    tr, es := ExtendBatch(tr, es, path, 1);
  }

  lemma FirstStart() returns (tr: seq<State>, es: seq<Event>)
    ensures Behavior(tr, es) && es == [BeginStart, TakeToken, PublishToken] && tr[0] == INITIAL
    ensures Goes(tr[0], es[0], tr[1]) && Goes(tr[1], es[1], tr[2]) && Goes(tr[2], es[2], tr[3])
    ensures tr[3] == State(Shared(0, 0, map[], 0, 1, 1), Free, map[1 := Run(0, Open, false)], {}, [])
  {
    var path := RunStarts(INITIAL);
    tr, es := [path[0]], [];
    Extend(tr, es, BeginStart, path[1]);
    Extend(tr + [path[1]], es + [BeginStart], TakeToken, path[2]);
    Extend(tr + [path[1]] + [path[2]], es + [BeginStart] + [TakeToken], PublishToken, path[3]);
    tr, es := tr + [path[1]] + [path[2]] + [path[3]], es + [BeginStart] + [TakeToken] + [PublishToken];
  }

  lemma ExtendBatch(tr: seq<State>, es: seq<Event>, path: seq<State>, t: nat) returns (tr': seq<State>, es': seq<Event>)
    requires Behavior(tr, es) && |path| == 5 && path[0] == tr[|es|]
    requires Goes(path[0], GrantRun(t, false), path[1]) && Goes(path[1], Authorise, path[2])
    requires Goes(path[2], CommitWork, path[3]) && Goes(path[3], Release, path[4])
    ensures Behavior(tr', es') && es' == es + [GrantRun(t, false), Authorise, CommitWork, Release] && tr' == tr + path[1..]
  {
    Extend(tr, es, GrantRun(t, false), path[1]);
    tr', es' := tr + [path[1]], es + [GrantRun(t, false)];
    Extend(tr', es', Authorise, path[2]);
    tr', es' := tr' + [path[2]], es' + [Authorise];
    Extend(tr', es', CommitWork, path[3]);
    tr', es' := tr' + [path[3]], es' + [CommitWork];
    Extend(tr', es', Release, path[4]);
    tr', es' := tr' + [path[4]], es' + [Release];
  }

  lemma ExtendPrune(tr: seq<State>, es: seq<Event>, path: seq<State>, t: nat) returns (tr': seq<State>, es': seq<Event>)
    requires Behavior(tr, es) && |path| == 6 && path[0] == tr[|es|]
    requires Goes(path[0], GrantRun(t, true), path[1]) && Goes(path[1], MatchRevision, path[2])
    requires Goes(path[2], Authorise, path[3]) && Goes(path[3], CommitWork, path[4]) && Goes(path[4], ClearToken, path[5])
    ensures Behavior(tr', es') && tr' == tr + path[1..]
    ensures es' == es + [GrantRun(t, true), MatchRevision, Authorise, CommitWork, ClearToken]
  {
    Extend(tr, es, GrantRun(t, true), path[1]);
    tr', es' := tr + [path[1]], es + [GrantRun(t, true)];
    Extend(tr', es', MatchRevision, path[2]);
    tr', es' := tr' + [path[2]], es' + [MatchRevision];
    Extend(tr', es', Authorise, path[3]);
    tr', es' := tr' + [path[3]], es' + [Authorise];
    Extend(tr', es', CommitWork, path[4]);
    tr', es' := tr' + [path[4]], es' + [CommitWork];
    Extend(tr', es', ClearToken, path[5]);
    tr', es' := tr' + [path[5]], es' + [ClearToken];
  }

  /** The read counter goes up with every guard that is granted, local or not, and only then. */
  lemma EveryGuardCounts(s: State, e: Event)
    requires Enabled(s, e)
    ensures var s' := Apply(s, e);
            s'.shared.changes ==
            s.shared.changes + if s.holder.Free? && (s'.holder.Local? || s'.holder.Working?) then 1 else 0
  {
  }

  // --- What ends a run ---

  /** A guard is held by a run that is neither failed nor dropped, sealed for a final one and open otherwise. */
  ghost predicate GuardFits(s: State) {
    s.holder.Working? ==>
      && s.holder.token in s.runs && !s.runs[s.holder.token].dropped
      && s.runs[s.holder.token].stage == if s.holder.final then Sealed else Open
  }

  lemma StepKeepsFit(s: State, e: Event)
    requires Inv(s) && GuardFits(s) && Enabled(s, e)
    ensures GuardFits(Apply(s, e))
  {
  }

  lemma {:induction false} GuardAlwaysFits(tr: seq<State>, es: seq<Event>, i: nat)
    requires Behavior(tr, es) && i <= |es|
    ensures GuardFits(tr[i])
  {
    if i > 0 {
      GuardAlwaysFits(tr, es, i - 1);
      BehaviorInv(tr, es, i - 1);
      StepKeepsFit(tr[i - 1], es[i - 1]);
    }
  }

  /** How far a run has come: its stages follow each other, and a dropped run is at the end. */
  function Rank(r: Run): nat {
    if r.dropped then 3 else match r.stage case Open => 0 case Sealed => 1 case Failed => 2
  }

  lemma StepKeepsRank(s: State, e: Event, t: nat)
    requires Inv(s) && GuardFits(s) && Enabled(s, e) && t in s.runs
    ensures t in Apply(s, e).runs && Rank(s.runs[t]) <= Rank(Apply(s, e).runs[t])
    ensures e == Fail(t) ==> Rank(Apply(s, e).runs[t]) == 2
    ensures e == Drop(t) ==> Rank(Apply(s, e).runs[t]) == 3
    ensures e == Seal(t) && s.shared.active == t ==> Rank(Apply(s, e).runs[t]) == 1
  {
  }

  lemma {:induction false} RankGrows(tr: seq<State>, es: seq<Event>, i: nat, j: nat, t: nat)
    requires Behavior(tr, es) && i <= j <= |es| && t in tr[i].runs
    ensures t in tr[j].runs && Rank(tr[i].runs[t]) <= Rank(tr[j].runs[t])
    decreases j - i
  {
    if i < j {
      RankGrows(tr, es, i, j - 1, t);
      BehaviorInv(tr, es, j - 1);
      GuardAlwaysFits(tr, es, j - 1);
      StepKeepsRank(tr[j - 1], es[j - 1], t);
    }
  }

  /** A run commits nothing after it failed or was dropped, and only its prune after it was sealed. */
  lemma EndedRunCommitsNothing(tr: seq<State>, es: seq<Event>, k: nat, i: nat)
    requires Behavior(tr, es) && k < i < |es| && es[i].CommitWork?
    ensures es[k] != Fail(tr[i].holder.token) && es[k] != Drop(tr[i].holder.token)
    ensures es[k] == Seal(tr[i].holder.token) && tr[k].shared.active == tr[i].holder.token ==> tr[i].holder.final
  {
    var t := tr[i].holder.token;
    GuardAlwaysFits(tr, es, i);
    if es[k] in {Fail(t), Drop(t), Seal(t)} {
      BehaviorInv(tr, es, k);
      GuardAlwaysFits(tr, es, k);
      StepKeepsRank(tr[k], es[k], t);
      RankGrows(tr, es, k + 1, i, t);
    }
  }

  /** What takes the token from run `t`. */
  predicate Ends(e: Event, t: nat) {
    e.Invalidate? || e == Cancel(t) || e == Drop(t)
  }

  /** After its cancellation, its drop or an invalidation a run commits nothing, unless its transaction had
      passed the check of the token already. */
  lemma CancelledRunCommitsNothing(tr: seq<State>, es: seq<Event>, k: nat, i: nat)
    requires Behavior(tr, es) && k < i < |es| && es[i].CommitWork?
    requires Ends(es[k], tr[i].holder.token) && tr[i].holder.token in tr[k].runs
    ensures tr[k].holder == tr[i].holder && tr[k].holder.phase.Authorised?
  {
    var t := tr[i].holder.token;
    var s, c := CommitIsContinuous(tr, es, i);
    assert tr[k + 1].shared.active != t by {
      BehaviorInv(tr, es, k);
    }
    if k < c {
      BehaviorInv(tr, es, s);
      if k < s { RunPersists(tr, es, k, s, t); }
      assert false;
    }
  }

  // --- Only what was marked looks changed ---

  /** The journal does not list `id`, and has not overflowed unless it is full. */
  ghost predicate Unlisted(sh: Shared, id: int) {
    id !in sh.favorites && (|sh.favorites| < MAX_SEEN ==> sh.overflow == 0)
  }

  lemma FavoriteStaysUnlisted(sh: Shared, other: int, id: int)
    requires Unlisted(sh, id) && other != id
    ensures Unlisted(sh.Favorite(other), id)
  {
    var more := sh.favorites[other := sh.revision];
    assert more.Keys == sh.favorites.Keys + {other};
    assert |more| == |more.Keys| && |sh.favorites| == |sh.favorites.Keys|;
  }

  lemma {:induction false} StaysUnlisted(tr: seq<State>, es: seq<Event>, s: nat, i: nat, id: int)
    requires Behavior(tr, es) && s < i <= |es| && es[s].PublishToken?
    requires forall k :: s < k < i ==> !es[k].PublishToken? && es[k] != Favorite(id)
    ensures Unlisted(tr[i].shared, id)
    decreases i - s
  {
    if i > s + 1 {
      StaysUnlisted(tr, es, s, i - 1, id);
      match es[i - 1]
      case Favorite(other) => FavoriteStaysUnlisted(tr[i - 1].shared, other, id);
      case _ =>
    }
  }

  /** As long as the journal is not full, an id that was not marked since the start of the run does not count
      as changed. */
  lemma UnmarkedLooksUnchanged(tr: seq<State>, es: seq<Event>, s: nat, i: nat, id: int, since: nat)
    requires Behavior(tr, es) && s < i <= |es| && es[s].PublishToken?
    requires forall k :: s < k < i ==> !es[k].PublishToken? && es[k] != Favorite(id)
    requires |tr[i].shared.favorites| < 200_000
    ensures !tr[i].shared.ChangedAfter(id, since)
  {
    StaysUnlisted(tr, es, s, i, id);
  }
}
