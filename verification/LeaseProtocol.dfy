/** Leases, a provider's write mutex and its prunes, interleaved: what a live lease protects, over whole runs.

    A grant happens while the mutex is free, because the caller takes the mutex and gives it back; a drop
    happens at any time, because it takes only the lock of the counts. The database may change at any time. */
module LeaseProtocol {
  import opened Catalogue
  import opened Prune
  import Retention
  import P = SyncProtocol

  /** `taken` tells whether the guard of a final step has read the retained ids, and `snapshot` what it read. */
  datatype State = State(
    protocol: P.State,
    leases: Retention.Leases,
    db: Db,
    snapshot: set<int>,
    taken: bool)

  datatype Event =
    | Protocol(e: P.Event)
    | Grant(roots: set<int>)
    | Drop(lease: nat)
    | Read
    | Write(db: Db)
    | Prune(run: Enumeration)

  ghost predicate Initial(s: State) {
    s.protocol == P.INITIAL && s.leases == Retention.Run([]) && s.db.Consistent() && !s.taken
  }

  /** A final transaction is committed by `Prune`, and authorised after the retained ids were read. */
  ghost predicate Enabled(provider: int, s: State, e: Event) {
    match e
    case Protocol(step) =>
      && P.Enabled(s.protocol, step)
      && (step.CommitWork? ==> !s.protocol.holder.final)
      && (step.Authorise? && s.protocol.holder.final ==> s.taken)
    case Grant(roots) => s.protocol.holder.Free? && Retention.Acceptable(s.db, provider, roots)
    case Drop(l) => l in s.leases.live
    case Read => s.protocol.holder.Working? && s.protocol.holder.final && s.protocol.holder.phase.Matched? && !s.taken
    case Write(db) => db.Consistent()
    case Prune(run) =>
      && P.Enabled(s.protocol, P.CommitWork) && s.protocol.holder.final
      && run.provider == provider && run.retained == s.snapshot
  }

  ghost function Apply(provider: int, s: State, e: Event): State
    requires Enabled(provider, s, e)
  {
    match e
    case Protocol(step) =>
      s.(protocol := P.Apply(s.protocol, step), taken := s.taken && !step.GrantRun?)
    case Grant(roots) => s.(leases := Retention.Step(s.leases, Retention.Grant(Retention.Cover(s.db, roots))))
    case Drop(l) => s.(leases := Retention.Step(s.leases, Retention.Release(l)))
    case Read => s.(snapshot := s.leases.counts.Keys, taken := true)
    case Write(db) => s.(db := db)
    case Prune(run) => s.(protocol := P.Apply(s.protocol, P.CommitWork), db := run.Result(s.db))
  }

  ghost predicate Behavior(provider: int, tr: seq<State>, es: seq<Event>) {
    && |tr| == |es| + 1
    && Initial(tr[0])
    && forall i :: 0 <= i < |es| ==> Enabled(provider, tr[i], es[i]) && tr[i + 1] == Apply(provider, tr[i], es[i])
  }

  // --- The inductive invariant ---

  ghost predicate CountsInv(s: State) {
    Retention.Agree(s.leases.counts, s.leases.live) && forall l :: l in s.leases.live ==> l < s.leases.next
  }

  /** Every live lease lies in what was read. */
  ghost predicate Covered(s: State) {
    forall l :: l in s.leases.live ==> s.leases.live[l] <= s.snapshot
  }

  ghost predicate ReadInv(s: State) {
    s.protocol.holder.Working? && s.protocol.holder.final ==>
      && (s.protocol.holder.phase.Granted? ==> !s.taken)
      && (s.protocol.holder.phase.Authorised? ==> s.taken)
      && (s.taken ==> Covered(s))
  }

  ghost predicate Inv(s: State) {
    CountsInv(s) && ReadInv(s) && s.db.Consistent()
  }

  lemma CountsStep(provider: int, s: State, e: Event)
    requires Inv(s) && Enabled(provider, s, e)
    ensures CountsInv(Apply(provider, s, e))
  {
    match e
    case Grant(roots) =>
      Retention.GrantKeepsCounts(s.leases.counts, s.leases.live, s.leases.next, Retention.Cover(s.db, roots));
    case Drop(l) => Retention.DropKeepsCounts(s.leases.counts, s.leases.live, l);
    case _ =>
  }

  /** What is read covers every lease that is live at that moment. */
  lemma ReadCovers(provider: int, s: State)
    requires CountsInv(s) && Enabled(provider, s, Read)
    ensures Covered(Apply(provider, s, Read))
  {
    forall l, id | l in s.leases.live && id in s.leases.live[l] ensures id in s.leases.counts {
      Retention.RetainedIsUnion(s.leases.counts, s.leases.live, id);
    }
  }

  lemma ReadStep(provider: int, s: State, e: Event)
    requires Inv(s) && Enabled(provider, s, e)
    ensures ReadInv(Apply(provider, s, e))
  {
    if e.Read? {
      ReadCovers(provider, s);
    }
  }

  lemma ResultConsistent(run: Enumeration, db: Db)
    requires db.Consistent()
    ensures run.Result(db).Consistent()
  {
    PruneTwice(run, db);
  }

  lemma StepKeepsInv(provider: int, s: State, e: Event)
    requires Inv(s) && Enabled(provider, s, e)
    ensures Inv(Apply(provider, s, e))
  {
    CountsStep(provider, s, e);
    ReadStep(provider, s, e);
    if e.Prune? {
      ResultConsistent(e.run, s.db);
    }
  }

  lemma {:induction false} BehaviorInv(provider: int, tr: seq<State>, es: seq<Event>, i: nat)
    requires Behavior(provider, tr, es) && i <= |es|
    ensures Inv(tr[i])
  {
    if i == 0 {
      Retention.CountsConserved([]);
    } else {
      BehaviorInv(provider, tr, es, i - 1);
      StepKeepsInv(provider, tr[i - 1], es[i - 1]);
    }
  }

  // --- What leases protect ---

  /** At every prune, every lease that is live lies in the ids the prune spares, however grants and drops
      were interleaved with its guard. */
  lemma PruneSeesLeases(provider: int, tr: seq<State>, es: seq<Event>, i: nat, l: nat)
    requires Behavior(provider, tr, es) && i < |es| && es[i].Prune? && l in tr[i].leases.live
    ensures tr[i].leases.live[l] <= es[i].run.retained
  {
    BehaviorInv(provider, tr, es, i);
  }

  /** So a prune takes a leased item exactly if its library is lost, and a leased song's row exactly if, besides,
      its present album is not kept. */
  lemma PruneSparesLeases(provider: int, tr: seq<State>, es: seq<Event>, i: nat, l: nat, id: int)
    requires Behavior(provider, tr, es) && i < |es| && es[i].Prune?
    requires l in tr[i].leases.live && id in tr[i].leases.live[l]
    ensures tr[i].db.Consistent()
    ensures id in tr[i].db.items ==>
              (id in tr[i + 1].db.items <==> es[i].run.LibraryKept(tr[i].db.items[id]))
    ensures id in tr[i].db.songs ==>
              var album := tr[i].db.songs[id];
              (id in tr[i + 1].db.songs <==>
               && es[i].run.LibraryKept(tr[i].db.items[id])
               && (album.To? ==> es[i].run.Kept(album.id, tr[i].db.items[album.id])))
  {
    BehaviorInv(provider, tr, es, i);
    var lease := tr[i].leases.live[l];
    PruneSeesLeases(provider, tr, es, i, l);
    if id in tr[i].db.items { LeasedItemSurvivesIff(es[i].run, tr[i].db, lease, id); }
    if id in tr[i].db.songs { LeasedSongSurvivesIff(es[i].run, tr[i].db, lease, id); }
  }

  /** Step `k` does not remove the item by itself: no writer deletes it, and no prune that lost its library. */
  ghost predicate Leaves(tr: seq<State>, es: seq<Event>, k: nat, id: int)
    requires |tr| == |es| + 1 && k < |es|
  {
    && (es[k].Write? ==> id in es[k].db.items)
    && (es[k].Prune? && id in tr[k].db.items ==> es[k].run.LibraryKept(tr[k].db.items[id]))
  }

  /** No step brings a lease back or changes what it covers. */
  lemma LeaseStays(provider: int, s: State, e: Event, l: nat)
    requires Enabled(provider, s, e) && l < s.leases.next
    ensures l < Apply(provider, s, e).leases.next
    ensures l in Apply(provider, s, e).leases.live ==>
              l in s.leases.live && Apply(provider, s, e).leases.live[l] == s.leases.live[l]
  {
  }

  /** A lease that lives at `i` has lived, with the same ids, ever since it was granted. */
  lemma {:induction false} LivedAt(provider: int, tr: seq<State>, es: seq<Event>, k: nat, i: nat, l: nat)
    requires Behavior(provider, tr, es) && k <= i <= |es|
    requires l < tr[k].leases.next && l in tr[i].leases.live
    ensures l in tr[k].leases.live && tr[k].leases.live[l] == tr[i].leases.live[l]
    decreases i - k
  {
    if k < i {
      LeaseStays(provider, tr[k], es[k], l);
      LivedAt(provider, tr, es, k + 1, i, l);
    }
  }

  lemma ItemStays(provider: int, tr: seq<State>, es: seq<Event>, k: nat, l: nat, id: int)
    requires Behavior(provider, tr, es) && k < |es| && Leaves(tr, es, k, id)
    requires l in tr[k].leases.live && id in tr[k].leases.live[l] && id in tr[k].db.items
    ensures id in tr[k + 1].db.items
  {
    if es[k].Prune? {
      PruneSparesLeases(provider, tr, es, k, l, id);
    }
  }

  lemma {:induction false} ItemStaysThrough(provider: int, tr: seq<State>, es: seq<Event>, g: nat, i: nat, l: nat, id: int)
    requires Behavior(provider, tr, es) && g <= i <= |es|
    requires forall k :: g <= k < i ==> Leaves(tr, es, k, id)
    requires forall k :: g <= k < i ==> l in tr[k].leases.live && id in tr[k].leases.live[l]
    requires id in tr[g].db.items
    ensures id in tr[i].db.items
    decreases i - g
  {
    if g < i {
      ItemStaysThrough(provider, tr, es, g, i - 1, l, id);
      ItemStays(provider, tr, es, i - 1, l, id);
    }
  }

  /** From its grant for as long as it lives, a lease keeps every item it covers in the database, unless a
      writer deletes the item or its library was not observed. */
  lemma LeaseHolds(provider: int, tr: seq<State>, es: seq<Event>, g: nat, i: nat, id: int)
    requires Behavior(provider, tr, es) && g < i <= |es| && es[g].Grant?
    requires tr[g].leases.next in tr[i].leases.live && id in Retention.Cover(tr[g].db, es[g].roots)
    requires forall k :: g < k < i ==> Leaves(tr, es, k, id)
    ensures id in tr[i].db.items
  {
    var l := tr[g].leases.next;
    LivedAt(provider, tr, es, g + 1, i, l);
    forall k | g < k < i ensures l in tr[k].leases.live && id in tr[k].leases.live[l] {
      NextGrows(provider, tr, es, g + 1, k);
      LivedAt(provider, tr, es, k, i, l);
    }
    assert id in tr[g + 1].db.items;
    ItemStaysThrough(provider, tr, es, g + 1, i, l, id);
  }

  lemma {:induction false} NextGrows(provider: int, tr: seq<State>, es: seq<Event>, i: nat, j: nat)
    requires Behavior(provider, tr, es) && i <= j <= |es|
    ensures tr[i].leases.next <= tr[j].leases.next
    decreases j - i
  {
    if i < j {
      NextGrows(provider, tr, es, i, j - 1);
    }
  }

  // --- Prunes happen ---

  ghost predicate Goes(provider: int, s: State, e: Event, s': State) {
    Enabled(provider, s, e) && s' == Apply(provider, s, e)
  }

  lemma Extend(provider: int, tr: seq<State>, es: seq<Event>, e: Event, s: State)
    requires Behavior(provider, tr, es) && Goes(provider, tr[|es|], e, s)
    ensures Behavior(provider, tr + [s], es + [e])
  {
  }

  /** The events of a final step, from its guard to the return of the token. */
  function FinalStep(t: nat, run: Enumeration): seq<Event> {
    [Protocol(P.GrantRun(t, true)), Protocol(P.MatchRevision), Read, Protocol(P.Authorise), Prune(run), Protocol(P.ClearToken)]
  }

  /** Whenever the mutex is free, a sealed run that owns the token and whose revision is current prunes: the
      database becomes the result of its enumeration with the ids that are leased then, and no lease changes. */
  lemma PruneCommits(provider: int, s: State, t: nat, run: Enumeration) returns (path: seq<State>)
    requires s.protocol.holder.Free? && P.Callable(s.protocol, t) && s.protocol.runs[t].stage.Sealed?
    requires s.protocol.shared.active == t && s.protocol.runs[t].revision == s.protocol.shared.revision
    requires run.provider == provider && run.retained == s.leases.counts.Keys
    ensures |path| == 7 && path[0] == s
    ensures forall k :: 0 <= k < 6 ==> Goes(provider, path[k], FinalStep(t, run)[k], path[k + 1])
    ensures path[4].db == s.db && path[4].leases == s.leases
    ensures path[6].db == run.Result(s.db) && path[6].leases == s.leases
    ensures path[6].protocol.holder.Free? && path[6].protocol.shared.active == 0
    ensures path[6].protocol.log == s.protocol.log + [P.Commit(t, true)]
  {
    var p := P.PruneCommits(s.protocol, t);
    var s1 := s.(protocol := p[1], taken := false);
    var s2 := s1.(protocol := p[2]);
    var s3 := s2.(snapshot := s.leases.counts.Keys, taken := true);
    var s4 := s3.(protocol := p[3]);
    var s5 := s4.(protocol := p[4], db := run.Result(s.db));
    path := [s, s1, s2, s3, s4, s5, s5.(protocol := p[5])];
    assert Goes(provider, s, FinalStep(t, run)[0], s1);
    assert Goes(provider, s1, FinalStep(t, run)[1], s2);
    assert Goes(provider, s2, FinalStep(t, run)[2], s3);
    assert Goes(provider, s3, FinalStep(t, run)[3], s4);
    assert Goes(provider, s4, FinalStep(t, run)[4], s5);
    assert Goes(provider, s5, FinalStep(t, run)[5], path[6]);
  }

  /** A lease is granted whenever the mutex is free and the request is acceptable. */
  lemma GrantHappens(provider: int, s: State, roots: set<int>)
    requires s.protocol.holder.Free? && Retention.Acceptable(s.db, provider, roots)
    ensures Enabled(provider, s, Grant(roots))
    ensures var s' := Apply(provider, s, Grant(roots));
            && s'.leases.live == s.leases.live[s.leases.next := Retention.Cover(s.db, roots)]
            && s'.(leases := s.leases) == s
  {
  }

  /** One item of provider 7, an unobserved mix. */
  const ONE_MIX := Db(map[1 := Item(7, Null, MIX)], map[], {}, {}, map[], {}, map[], {}, {}, {}, {}, {})

  const MIXES := Enumeration(7, {Scope(Null, MIX)}, {}, {}, {1})

  /** A first run in which a lease makes the difference: it prunes while a lease is live, and the leased item,
      which it did not observe, stays. */
  lemma LeaseMatters() returns (tr: seq<State>, es: seq<Event>)
    ensures Behavior(7, tr, es) && |es| == 11 && es[9] == Prune(MIXES)
    ensures tr[9].db == ONE_MIX && 0 in tr[9].leases.live && tr[9].leases.live[0] == {1}
    ensures 1 in tr[10].db.items && 1 !in MIXES.(retained := {}).Result(ONE_MIX).items
    ensures tr[11].protocol.log == [P.Commit(1, true)]
  {
    tr, es := FirstLease();
    FirstSeal();
    Extend(7, tr, es, Protocol(P.Seal(1)), Sealed());
    tr, es := tr + [Sealed()], es + [Protocol(P.Seal(1))];
    assert Sealed().leases.counts.Keys == {1};
    var path := PruneCommits(7, Sealed(), 1, MIXES);
    tr, es := ExtendAll(7, tr, es, path, FinalStep(1, MIXES));
    assert tr[9] == path[4] && tr[10] == path[5] && tr[11] == path[6];
    assert es[9] == FinalStep(1, MIXES)[4];
    MixesExample();
  }

  function Started(): State {
    State(P.State(P.Shared(0, 0, map[], 0, 1, 1), P.Free, map[1 := P.Run(0, P.Open, false)], {}, []),
          Retention.Leases(map[], map[], 0), ONE_MIX, {}, false)
  }

  function Leased(): State {
    Started().(leases := Retention.Leases(map[1 := 1], map[0 := {1}], 1))
  }

  /** A step of the protocol that is neither a guard, a check nor a commit is a step here. */
  lemma Lift(provider: int, s: State, e: P.Event, p: P.State)
    requires P.Goes(s.protocol, e, p) && !e.GrantRun? && !e.Authorise? && !e.CommitWork?
    ensures Goes(provider, s, Protocol(e), s.(protocol := p))
  {
  }

  lemma FirstStart() returns (tr: seq<State>, es: seq<Event>)
    ensures Behavior(7, tr, es) && |es| == 3 && tr[3] == Started()
  {
    var s0 := State(P.INITIAL, Retention.Leases(map[], map[], 0), ONE_MIX, {}, false);
    var p, steps := P.FirstStart();
    Lift(7, s0, P.BeginStart, p[1]);
    Lift(7, s0.(protocol := p[1]), P.TakeToken, p[2]);
    Lift(7, s0.(protocol := p[2]), P.PublishToken, p[3]);
    Extend(7, [s0], [], Protocol(P.BeginStart), s0.(protocol := p[1]));
    tr, es := [s0] + [s0.(protocol := p[1])], [] + [Protocol(P.BeginStart)];
    Extend(7, tr, es, Protocol(P.TakeToken), s0.(protocol := p[2]));
    tr, es := tr + [s0.(protocol := p[2])], es + [Protocol(P.TakeToken)];
    Extend(7, tr, es, Protocol(P.PublishToken), s0.(protocol := p[3]));
    tr, es := tr + [s0.(protocol := p[3])], es + [Protocol(P.PublishToken)];
  }

  function Sealed(): State {
    Leased().(protocol := Leased().protocol.(runs := map[1 := P.Run(0, P.Sealed, false)]))
  }

  lemma FirstSeal()
    ensures Goes(7, Leased(), Protocol(P.Seal(1)), Sealed())
  {
    Lift(7, Leased(), P.Seal(1), Sealed().protocol);
  }

  lemma MixesExample()
    ensures 1 in MIXES.Result(ONE_MIX).items && 1 !in MIXES.(retained := {}).Result(ONE_MIX).items
  {
    PruneIsExact(MIXES, ONE_MIX, 1);
    PruneIsExact(MIXES.(retained := {}), ONE_MIX, 1);
  }

  lemma FirstGrant()
    ensures Goes(7, Started(), Grant({1}), Leased())
  {
    GrantHappens(7, Started(), {1});
    assert Retention.Cover(ONE_MIX, {1}) == {1};
    assert Retention.AddAll(map[], {1}) == map[1 := 1];
  }

  lemma FirstLease() returns (tr: seq<State>, es: seq<Event>)
    ensures Behavior(7, tr, es) && |es| == 4 && tr[4] == Leased()
  {
    tr, es := FirstStart();
    FirstGrant();
    Extend(7, tr, es, Grant({1}), Leased());
    tr, es := tr + [Leased()], es + [Grant({1})];
  }

  lemma {:induction false} ExtendAll(provider: int, tr: seq<State>, es: seq<Event>, path: seq<State>, steps: seq<Event>)
    returns (tr': seq<State>, es': seq<Event>)
    requires Behavior(provider, tr, es) && |path| == |steps| + 1 && path[0] == tr[|es|]
    requires forall k :: 0 <= k < |steps| ==> Goes(provider, path[k], steps[k], path[k + 1])
    ensures Behavior(provider, tr', es') && tr' == tr + path[1..] && es' == es + steps
    decreases |steps|
  {
    tr', es' := tr, es;
    if steps != [] {
      Extend(provider, tr, es, steps[0], path[1]);
      tr', es' := ExtendAll(provider, tr + [path[1]], es + [steps[0]], path[1..], steps[1..]);
    }
  }
}
