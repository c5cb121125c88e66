/** The coordinator's per-provider state and the full-sync run that enumerates and prunes a provider. */
module SyncRun {
  import opened Options
  import opened Catalogue
  import opened Prune
  import Protocol = SyncProtocol
  import Retention

  datatype Error =
    | AlreadyRunning
    | NotActive
    | NotWritable
    | GenerationChanged
    | AlreadyDeclared
    | LimitExceeded
    | MissingLibrary
    | ForeignLibrary
    | DuplicateScopes
    | InvalidScope
    | MissingScope
    | UnknownScope
    | MissingItem
    | OutsideScope
    | Incomplete
    | NotSealed
    | Conflict

  datatype Outcome = Done | Refused(error: Error)

  /** The committed database. */
  class Store {
    var db: Db

    constructor (db: Db)
      ensures this.db == db
    {
      this.db := db;
    }
  }

  /** The provider generation a run may be bound to. */
  class Generation {
    var current: nat

    constructor (current: nat)
      ensures this.current == current
    {
      this.current := current;
    }
  }

  class ProviderState {
    var revision: nat
    var changes: nat
    var favorites: map<int, nat>
    var overflow: nat
    var active: nat
    var sequence: nat

    ghost function View(): Protocol.Shared
      reads this
    {
      Protocol.Shared(revision, changes, favorites, overflow, active, sequence)
    }

    constructor ()
      ensures View() == Protocol.INITIAL.shared
    {
      revision, changes, favorites, overflow, active, sequence := 0, 0, map[], 0, 0, 0;
    }

    /** Grants a write guard, local or on behalf of the run that owns `origin`. */
    method Write(origin: Option<nat>) returns (r: Outcome)
      modifies this
      ensures r.Done? <==> origin.None? || origin.value == old(active)
      ensures View() ==
              if r.Refused? then old(View())
              else if origin.None? then old(View()).GrantLocal()
              else old(View()).GrantRun()
    {
      if origin.Some? {
        if active != origin.value {
          return Refused(NotActive);
        }
      } else {
        revision := revision + 1;
      }
      changes := changes + 1;
      r := Done;
    }

    method InvalidateSync()
      modifies this`active
      ensures active == 0
    {
      active := 0;
    }

    method CheckOrigin(origin: Option<nat>) returns (r: Outcome)
      ensures r.Done? <==> origin.None? || origin.value == active
    {
      if origin.Some? && active != origin.value {
        return Refused(NotActive);
      }
      r := Done;
    }

    method Favorite(id: int)
      modifies this`favorites, this`overflow
      ensures View() == old(View()).Favorite(id)
    {
      if active != 0 {
        if |favorites| < Protocol.MAX_SEEN {
          favorites := favorites[id := revision];
        } else {
          overflow := revision;
        }
      }
    }

    method FavoriteChangedAfter(id: int, since: nat) returns (changed: bool)
      ensures changed <==> View().ChangedAfter(id, since)
    {
      changed := overflow > since || (id in favorites && favorites[id] > since);
    }

    /** The compare-exchange of a cancellation handle and of a run's destructor. */
    method Cancel(token: nat)
      modifies this`active
      ensures View() == old(View()).Clear(token)
    {
      if active == token {
        active := 0;
      }
    }

    method Start() returns (r: Result<(nat, nat), Error>)
      modifies this
      ensures r.Ok? <==> old(active) == 0
      ensures r.Err? ==> View() == old(View())
      ensures r.Ok? ==>
                && r.value == (old(sequence) + 1, old(revision))
                && View() == old(View()).(sequence := old(sequence) + 1).Publish(old(sequence) + 1)
    {
      if active != 0 {
        return Err(AlreadyRunning);
      }
      sequence := sequence + 1;
      active := sequence;
      favorites := map[];
      overflow := 0;
      r := Ok((sequence, revision));
    }
  }

  class SyncRun {
    const state: ProviderState
    const provider: int
    const token: nat
    const revision: nat
    var scopes: set<Scope>
    var completed: set<Scope>
    var seen: set<int>
    var libraries: set<int>
    var librariesComplete: bool
    var declared: bool
    var sealed: bool
    var failed: bool
    var generation: Option<(Generation, nat)>
    /** The item types the declaration was checked against. */
    ghost var required: set<int>

    /** What has been enumerated so far, together with the items retained at the moment. */
    function Enumerated(retained: set<int>): Enumeration
      reads this
    {
      Enumeration(provider, scopes, seen, libraries, retained)
    }

    /** A declaration covers each observed library with every required type, the global mix scope, and
        nothing outside; only a complete enumeration is sealed. */
    ghost predicate Valid()
      reads this
    {
      && completed <= scopes
      && (!declared ==> scopes == {})
      && (declared ==>
            && (forall l, k :: l in libraries && k in required ==> Scope(To(l), k) in scopes)
            && Scope(Null, MIX) in scopes
            && (forall s :: s in scopes && s.library.To? ==> s.library.id in libraries && s.itemType in required)
            && (forall s :: s in scopes && s.library.Null? ==> s.itemType in {MIX, RADIO}))
      && (sealed ==> declared && librariesComplete && completed == scopes)
    }

    constructor (state: ProviderState, provider: int, token: nat, revision: nat)
      ensures Valid() && this.state == state && this.provider == provider && this.token == token
      ensures this.revision == revision && !failed && !sealed && !declared && libraries == {} && seen == {}
    {
      this.state, this.provider, this.token, this.revision := state, provider, token, revision;
      scopes, completed, seen, libraries := {}, {}, {}, {};
      librariesComplete, declared, sealed, failed := false, false, false, false;
      generation := None;
      required := {};
    }

    ghost predicate GenerationOk()
      reads this, if generation.Some? then {generation.value.0} else {}
    {
      generation.Some? ==> generation.value.0.current == generation.value.1
    }

    ghost predicate Writable()
      reads this, state, if generation.Some? then {generation.value.0} else {}
    {
      GenerationOk() && !failed && !sealed && state.active == token
    }

    method BindGeneration(current: Generation, expected: nat)
      requires Valid()
      modifies this`generation
      ensures Valid() && generation == Some((current, expected))
    {
      generation := Some((current, expected));
    }

    method Running() returns (r: Outcome)
      ensures r.Done? <==> Writable()
    {
      if generation.Some? && generation.value.0.current != generation.value.1 {
        return Refused(GenerationChanged);
      }
      if failed || sealed || state.active != token {
        return Refused(NotWritable);
      }
      r := Done;
    }

    method Fail()
      requires Valid()
      modifies this`failed
      ensures Valid() && failed
    {
      failed := true;
    }

    predicate OwnLibrary(db: Db, id: int) {
      id in db.libraries && db.libraries[id] == provider
    }

    /** The first `n` libraries are the provider's, and the next one, if any, is not. */
    ghost predicate Leading(db: Db, ids: seq<int>, n: nat) {
      && n <= |ids|
      && (forall i :: 0 <= i < n ==> OwnLibrary(db, ids[i]))
      && (n < |ids| ==> !OwnLibrary(db, ids[n]))
    }

    /** The loop: adds the libraries in order up to the first that is missing or foreign. */
    method AddLibraries(store: Store, ids: seq<int>) returns (r: Outcome, ghost added: nat)
      requires Valid() && !declared && !failed
      modifies this`libraries, this`failed
      ensures Valid() && Leading(store.db, ids, added)
      ensures libraries == old(libraries) + Elements(ids[..added])
      ensures r.Done? <==> added == |ids|
      ensures failed <==> added < |ids| && ids[added] in store.db.libraries
    {
      added := 0;
      for i := 0 to |ids|
        invariant added == i && Valid() && !failed
        invariant libraries == old(libraries) + Elements(ids[..i])
        invariant forall k :: 0 <= k < i ==> OwnLibrary(store.db, ids[k])
      {
        var id := ids[i];
        if id !in store.db.libraries {
          return Refused(MissingLibrary), added;
        }
        if store.db.libraries[id] != provider {
          failed := true;
          return Refused(ForeignLibrary), added;
        }
        ElementsStep(ids, i);
        libraries := libraries + {id};
        added := i + 1;
      }
      r := Done;
    }

    /** Adds `added` libraries, those before the first that is missing or foreign. Too many libraries or a
        foreign one fail the run. */
    method ObserveLibraries(store: Store, ids: seq<int>) returns (r: Outcome, ghost added: nat)
      requires Valid()
      modifies this`libraries, this`failed
      ensures Valid() && added <= |ids| && libraries == old(libraries) + Elements(ids[..added])
      ensures !old(Writable()) || declared ==> r.Refused? && added == 0 && failed == old(failed)
      ensures old(Writable()) && !declared && |ids| + |old(libraries)| > 200_000 ==>
                r.Refused? && added == 0 && failed
      ensures old(Writable()) && !declared && |ids| + |old(libraries)| <= 200_000 ==>
                && Leading(store.db, ids, added)
                && (r.Done? <==> added == |ids|)
                && (failed <==> added < |ids| && ids[added] in store.db.libraries)
    {
      added := 0;
      r := Running();
      if r.Refused? {
        return;
      }
      if declared {
        return Refused(AlreadyDeclared), added;
      }
      if |ids| + |libraries| > Protocol.MAX_SEEN {
        failed := true;
        return Refused(LimitExceeded), added;
      }
      r, added := AddLibraries(store, ids);
    }

    predicate Declarable(scope: Scope, types: seq<int>)
      reads this
    {
      && KnownType(scope.itemType)
      && (scope.library.To? ==> scope.library.id in libraries && scope.itemType in types)
      && (scope.library.Null? ==> scope.itemType in {MIX, RADIO})
    }

    /** Accepts exactly the duplicate-free declarations that stay inside the observed libraries and
        required types and leave out neither a required scope nor the global mix scope. */
    method Declare(declaration: seq<Scope>, types: seq<int>) returns (r: Outcome)
      requires Valid()
      modifies this`scopes, this`declared, this`required
      ensures Valid()
      ensures r.Refused? ==> scopes == old(scopes) && declared == old(declared)
      ensures r.Done? ==> declared && scopes == (set s | s in declaration) && required == set k | k in types
      ensures r.Done? <==>
                && old(Writable()) && !old(declared)
                && |set s | s in declaration| == |declaration| <= 200_000
                && (forall s :: s in declaration ==> Declarable(s, types))
                && (forall l, k :: l in libraries && k in types ==> Scope(To(l), k) in declaration)
                && Scope(Null, MIX) in declaration
    {
      r := Running();
      if r.Refused? {
        return;
      }
      if declared {
        return Refused(AlreadyDeclared);
      }
      var selected := set s | s in declaration;
      if |selected| != |declaration| || |declaration| > Protocol.MAX_SEEN {
        return Refused(DuplicateScopes);
      }
      if exists s :: s in declaration && !Declarable(s, types) {
        return Refused(InvalidScope);
      }
      if exists l, k :: l in libraries && k in types && Scope(To(l), k) !in selected {
        return Refused(MissingScope);
      }
      if Scope(Null, MIX) !in selected {
        return Refused(MissingScope);
      }
      required := set k | k in types;
      scopes := selected;
      declared := true;
    }

    method CompleteLibraries() returns (r: Outcome)
      requires Valid()
      modifies this`librariesComplete
      ensures Valid() && (r.Done? <==> old(Writable()))
      ensures librariesComplete == (old(librariesComplete) || r.Done?)
    {
      r := Running();
      if r.Done? {
        librariesComplete := true;
      }
    }

    method Complete(scope: Scope) returns (r: Outcome)
      requires Valid()
      modifies this`completed
      ensures Valid() && (r.Done? <==> old(Writable()) && scope in scopes)
      ensures completed == if r.Done? then old(completed) + {scope} else old(completed)
    {
      r := Running();
      if r.Refused? {
        return;
      }
      if scope !in scopes {
        return Refused(UnknownScope);
      }
      completed := completed + {scope};
    }

    predicate OwnItem(db: Db, id: int) {
      id in db.items && db.items[id].provider == provider
    }

    predicate Within(db: Db, scope: Scope, id: int) {
      OwnItem(db, id) && Scope(db.items[id].library, db.items[id].kind) == scope
    }

    /** Observes resolved items of one open scope, all or none of them: the first `fine` are in the scope.
        Too many items, or one outside the scope, fail the run. */
    method ObserveItems(store: Store, scope: Scope, items: seq<int>) returns (r: Outcome, ghost fine: nat)
      requires Valid()
      modifies this`seen, this`failed, state
      ensures Valid() && fine <= |items|
      ensures seen == if r.Done? then old(seen) + Elements(items) else old(seen)
      ensures !old(Writable()) || scope !in scopes || scope in completed ==>
                r.Refused? && failed == old(failed) && state.View() == old(state.View())
      ensures old(Writable()) && scope in scopes && scope !in completed && |items| + |old(seen)| > 200_000 ==>
                r.Refused? && failed && state.View() == old(state.View())
      ensures old(Writable()) && scope in scopes && scope !in completed && |items| + |old(seen)| <= 200_000 ==>
                && state.View() == old(state.View()).GrantRun()
                && (forall i :: 0 <= i < fine ==> Within(store.db, scope, items[i]))
                && (fine < |items| ==> !Within(store.db, scope, items[fine]))
                && (r.Done? <==> fine == |items|)
                && (failed <==> fine < |items| && OwnItem(store.db, items[fine]))
    {
      fine := 0;
      r := Running();
      if r.Refused? {
        return;
      }
      if scope !in scopes || scope in completed {
        return Refused(NotWritable), fine;
      }
      if |items| + |seen| > Protocol.MAX_SEEN {
        failed := true;
        return Refused(LimitExceeded), fine;
      }
      r := state.Write(Some(token));
      if r.Refused? {
        return;
      }
      for i := 0 to |items|
        invariant Valid() && !failed && seen == old(seen) && fine == i
        invariant forall k :: 0 <= k < i ==> Within(store.db, scope, items[k])
      {
        var id := items[i];
        if id !in store.db.items || store.db.items[id].provider != provider {
          return Refused(MissingItem), fine;
        }
        if Scope(store.db.items[id].library, store.db.items[id].kind) != scope {
          failed := true;
          return Refused(OutsideScope), fine;
        }
        fine := i + 1;
      }
      seen := seen + Elements(items);
    }

    /** A sealed run has completed every observed library for every required type, and the global mixes. */
    method Seal() returns (r: Outcome)
      requires Valid()
      modifies this`sealed
      ensures Valid()
      ensures r.Refused? ==> sealed == old(sealed)
      ensures r.Done? ==>
                && sealed && librariesComplete && Scope(Null, MIX) in completed
                && (forall l, k :: l in libraries && k in required ==> Scope(To(l), k) in completed)
      ensures r.Done? <==> old(Writable()) && declared && librariesComplete && completed == scopes
    {
      r := Running();
      if r.Refused? {
        return;
      }
      if !declared || !librariesComplete || completed != scopes {
        return Refused(Incomplete);
      }
      sealed := true;
    }

    /** The destructor. */
    method Drop()
      modifies state
      ensures state.View() == old(state.View()).Clear(token)
    {
      state.Cancel(token);
    }

    /** Prunes in one transaction: the database becomes exactly the result of the enumeration, or stays. */
    method Finalize(store: Store, retained: Retention.RetainedItems) returns (r: Outcome)
      requires Valid() && store.db.Consistent() && retained.Valid()
      modifies this`failed, state, store
      ensures Valid() && retained.Valid()
      ensures r.Refused? ==> store.db == old(store.db) && state.active == old(state.active)
      ensures r.Done? ==>
                && old(!failed && sealed && GenerationOk()) && old(state.active) == token
                && old(state.revision) == revision && !failed
                && Enumerated(retained.counts.Keys).Declared()
                && store.db == Enumerated(retained.counts.Keys).Result(old(store.db))
                && state.View() == old(state.View()).GrantRun().(active := 0)
      ensures r.Done? <==>
                && old(!failed && sealed && GenerationOk()) && old(state.active) == token
                && old(state.revision) == revision
                && |ItemsOf(old(store.db))| <= 200_000 && |LibrariesOf(old(store.db))| <= 200_000
    {
      if failed || !sealed {
        return Refused(NotSealed);
      }
      r := state.Write(Some(token));
      if r.Refused? {
        return;
      }
      if state.revision != revision {
        failed := true;
        return Refused(Conflict);
      }
      if |ItemsOf(store.db)| > Protocol.MAX_SEEN {
        failed := true;
        return Refused(LimitExceeded);
      }
      var protected := retained.counts.Keys;
      var pruned := PruneItems(store.db, protected);
      if |LibrariesOf(pruned)| > Protocol.MAX_SEEN {
        return Refused(LimitExceeded);
      }
      pruned := PruneLibraries(pruned);
      PassesCompose(Enumerated(protected), store.db);
      if generation.Some? && generation.value.0.current != generation.value.1 {
        return Refused(GenerationChanged);
      }
      r := state.CheckOrigin(Some(token));
      if r.Refused? {
        return;
      }
      store.db := pruned;
      state.active := 0;
    }

    function ItemsOf(db: Db): set<int> {
      set id | id in db.items && db.items[id].provider == provider
    }

    function LibrariesOf(db: Db): set<int> {
      set l | l in db.libraries && db.libraries[l] == provider
    }

    /** The deletion loop over the provider's items. */
    method PruneItems(before: Db, retained: set<int>) returns (after: Db)
      requires before.Consistent()
      ensures after == before.Keep(Spared(Enumerated(retained), before)) && after.Consistent()
    {
      ghost var e := Enumerated(retained);
      var todo := ItemsOf(before);
      after := before;
      ghost var gone: set<int> := {};
      KeepAll(before);
      assert before.items.Keys - gone == before.items.Keys;
      while todo != {}
        invariant todo <= ItemsOf(before)
        invariant forall id :: id in gone <==> id in ItemsOf(before) && id !in todo && e.Prunes(id, before.items[id])
        invariant after == before.Keep(before.items.Keys - gone)
        decreases todo
      {
        var id := Pick(todo);
        var item := before.items[id];
        if Scope(item.library, item.kind) in scopes && id !in seen && id !in retained {
          ItemPassStep(before, gone, id);
          MixesGoAnyway(after, id);
          if item.kind in {MIX, RADIO} {
            after := after.DeleteMixesOf(id);
          }
          after := after.DeleteItem(id);
          gone := gone + {id};
        }
        todo := todo - {id};
      }
      KeepOnly(before, before.items.Keys - gone, Spared(e, before));
      KeepConsistent(before, Spared(e, before));
    }

    /** The deletion loop over the provider's libraries. */
    method PruneLibraries(before: Db) returns (after: Db)
      requires before.Consistent()
      ensures after == WithoutLibraries(before, Enumerated({}).Lost(before))
    {
      var todo := LibrariesOf(before);
      after := before;
      ghost var gone: set<int> := {};
      KeepAll(before);
      KeepOnly(before, before.items.Keys,
               set id | id in before.items && (before.items[id].library.To? ==> before.items[id].library.id !in gone));
      assert before.libraries - gone == before.libraries;
      while todo != {}
        invariant todo <= LibrariesOf(before)
        invariant forall l :: l in gone <==> l in LibrariesOf(before) && l !in todo && l !in libraries
        invariant after == WithoutLibraries(before, gone)
        decreases todo
      {
        var l := Pick(todo);
        if l !in libraries {
          LibraryPassStep(before, gone, l);
          after := after.DeleteLibrary(l);
          gone := gone + {l};
        }
        todo := todo - {l};
      }
      assert forall l :: l in gone <==> l in Enumerated({}).Lost(before);
      assert gone == Enumerated({}).Lost(before);
    }
  }
}
