/** The coordinator's locks: one projection read/write lock above one write mutex per provider.

    Any number of threads acquire and release them; both kinds of lock are first-come, first-served, so a
    waiting exclusive request also holds back every shared request that arrives after it. */
module LockOrder {
  import opened Options

  datatype Lock = Projection | Provider(id: int)

  datatype Request = Request(lock: Lock, exclusive: bool)

  /** A guarded write, a projection snapshot, or a call that takes one provider mutex only. */
  datatype Kind = Writer | Snapshot | Single

  /** `todo` is what the thread still has to acquire, in order; `ticket` its arrival number while it is
      queued for `todo[0]`. */
  datatype Thread = Thread(kind: Kind, todo: seq<Request>, held: seq<Request>, ticket: Option<nat>)

  datatype State = State(threads: seq<Thread>, next: nat)

  /** `Abort` is an acquisition that fails or a caller that goes away: it asks for nothing further. */
  datatype Event =
    | Enqueue(i: nat)
    | Grant(i: nat)
    | Release(i: nat, h: nat)
    | Abort(i: nat)

  predicate Finished(t: Thread) {
    t.todo == [] && t.held == []
  }

  predicate Compatible(a: Request, b: Request) {
    a.lock != b.lock || (!a.exclusive && !b.exclusive)
  }

  predicate WaitsFor(t: Thread, l: Lock) {
    t.ticket.Some? && t.todo != [] && t.todo[0].lock == l
  }

  /** No holder conflicts with the thread's next request and nobody queued earlier for the same lock. */
  predicate Grantable(s: State, i: nat)
    requires i < |s.threads| && s.threads[i].todo != [] && s.threads[i].ticket.Some?
  {
    var t := s.threads[i];
    forall j :: 0 <= j < |s.threads| ==>
      && (forall h :: 0 <= h < |s.threads[j].held| ==> Compatible(t.todo[0], s.threads[j].held[h]))
      && (WaitsFor(s.threads[j], t.todo[0].lock) ==> t.ticket.value <= s.threads[j].ticket.value)
  }

  predicate Enabled(s: State, e: Event) {
    && e.i < |s.threads|
    && var t := s.threads[e.i];
       match e
       case Enqueue(_) => t.todo != [] && t.ticket.None?
       case Grant(i) => t.todo != [] && t.ticket.Some? && Grantable(s, i)
       // The guards give their mutexes back before the projection lock they share.
       case Release(_, h) => t.todo == [] && h < |t.held| && (|t.held| == 1 || t.held[h].lock.Provider?)
       case Abort(_) => t.todo != []
  }

  function Apply(s: State, e: Event): State
    requires Enabled(s, e)
  {
    var t := s.threads[e.i];
    match e
    case Enqueue(i) => State(s.threads[i := t.(ticket := Some(s.next))], s.next + 1)
    case Grant(i) =>
      s.(threads := s.threads[i := t.(todo := t.todo[1..], held := t.held + [t.todo[0]], ticket := None)])
    case Release(i, h) => s.(threads := s.threads[i := t.(held := t.held[..h] + t.held[h + 1..])])
    case Abort(i) => s.(threads := s.threads[i := t.(todo := [], ticket := None)])
  }

  /** Whoever is first in line for a lock gets it as soon as nobody holds it, or only sharers do and it is shared. */
  lemma GrantIff(s: State, i: nat)
    requires i < |s.threads| && s.threads[i].todo != [] && s.threads[i].ticket.Some?
    ensures var r := s.threads[i].todo[0];
            Enabled(s, Grant(i)) <==>
              && (forall j :: 0 <= j < |s.threads| && s.threads[j].ticket.Some? && s.threads[j].todo != []
                              && s.threads[j].todo[0].lock == r.lock ==>
                    s.threads[i].ticket.value <= s.threads[j].ticket.value)
              && (forall j, h :: 0 <= j < |s.threads| && 0 <= h < |s.threads[j].held| && s.threads[j].held[h].lock == r.lock ==>
                    !r.exclusive && !s.threads[j].held[h].exclusive)
  {
  }

  // --- Who asks for what ---

  predicate Ascending(ids: seq<int>) {
    forall i, j :: 0 <= i < j < |ids| ==> ids[i] < ids[j]
  }

  function Dedup(ids: seq<int>): seq<int> {
    if |ids| <= 1 then ids
    else if ids[0] == ids[1] then Dedup(ids[1..])
    else [ids[0]] + Dedup(ids[1..])
  }

  /** The providers a write over several items locks: the affected ones, sorted, after the local
      provider 0, with neighbouring repetitions dropped. */
  function WriteOrder(sorted: seq<int>): seq<int> {
    Dedup([0] + sorted)
  }

  lemma {:induction false} DedupSorted(ids: seq<int>)
    requires forall i, j :: 0 <= i < j < |ids| ==> ids[i] <= ids[j]
    ensures Ascending(Dedup(ids))
  {
    if |ids| > 1 {
      DedupSorted(ids[1..]);
      DedupKeeps(ids[1..]);
      assert forall x :: x in Dedup(ids[1..]) ==> x in ids[1..] && ids[1] <= x;
    }
  }

  lemma {:induction false} DedupKeeps(ids: seq<int>)
    ensures forall x :: x in Dedup(ids) <==> x in ids
    ensures ids != [] ==> Dedup(ids) != [] && Dedup(ids)[0] == ids[0]
  {
    if |ids| > 1 {
      DedupKeeps(ids[1..]);
      assert ids == [ids[0]] + ids[1..];
    }
  }

  /** The order covers exactly the asked providers and 0, which comes first. It is strictly ascending if and
      only if no provider has a negative id. */
  lemma WriteOrderAscends(sorted: seq<int>)
    requires forall i, j :: 0 <= i < j < |sorted| ==> sorted[i] <= sorted[j]
    ensures forall x :: x in WriteOrder(sorted) <==> x == 0 || x in sorted
    ensures WriteOrder(sorted) != [] && WriteOrder(sorted)[0] == 0
    ensures Ascending(WriteOrder(sorted)) <==> forall p :: p in sorted ==> p >= 0
  {
    var ids := [0] + sorted;
    DedupKeeps(ids);
    if forall p :: p in sorted ==> p >= 0 {
      assert forall k :: 0 <= k < |sorted| ==> sorted[k] in sorted;
      DedupSorted(ids);
    } else {
      var p :| p in sorted && p < 0;
      assert sorted[0] < 0;
      assert ids[1..] == sorted;
      DedupKeeps(sorted);
      assert WriteOrder(sorted)[0] == 0 && WriteOrder(sorted)[1] == sorted[0];
    }
  }

  lemma AscendingIsDistinct(ids: seq<int>)
    requires Ascending(ids)
    ensures Distinct(ids)
  {
  }

  lemma NegativeOrder(sorted: seq<int>)
    requires forall i, j :: 0 <= i < j < |sorted| ==> sorted[i] <= sorted[j]
    requires sorted != [] && sorted[0] < 0
    ensures WriteOrder(sorted) == [0] + Dedup(sorted) && Distinct(Dedup(sorted))
    ensures 0 in Dedup(sorted) <==> 0 in sorted
  {
    assert ([0] + sorted)[1..] == sorted;
    DedupSorted(sorted);
    DedupKeeps(sorted);
    AscendingIsDistinct(Dedup(sorted));
  }

  lemma ConsIsDistinctIff(x: int, ids: seq<int>)
    requires Distinct(ids)
    ensures Distinct([x] + ids) <==> x !in ids
  {
    var all := [x] + ids;
    assert forall k :: 0 <= k < |ids| ==> all[k + 1] == ids[k];
    if x in ids {
      var k :| 0 <= k < |ids| && ids[k] == x;
      assert all[0] == all[k + 1];
    } else {
      assert forall k :: 1 <= k < |all| ==> all[k] == ids[k - 1];
    }
  }

  /** No provider is locked twice if and only if 0 is not affected together with a negative id: only
      neighbouring repetitions are dropped. */
  lemma WriteOrderIsDistinctIff(sorted: seq<int>)
    requires forall i, j :: 0 <= i < j < |sorted| ==> sorted[i] <= sorted[j]
    ensures Distinct(WriteOrder(sorted)) <==> 0 !in sorted || forall p :: p in sorted ==> p >= 0
  {
    if forall p :: p in sorted ==> p >= 0 {
      WriteOrderAscends(sorted);
      AscendingIsDistinct(WriteOrder(sorted));
    } else {
      NegativeOrder(sorted);
      ConsIsDistinctIff(0, Dedup(sorted));
    }
  }

  // --- The requests of a thread ---

  /** A guarded write shares the projection lock and then takes provider mutexes; one that takes several
      takes provider 0 first. Their order is free otherwise. */
  ghost predicate Fresh(t: Thread) {
    && t.held == [] && t.ticket.None?
    && match t.kind
       case Writer =>
         && t.todo != [] && t.todo[0] == Request(Projection, false)
         && (forall k :: 1 <= k < |t.todo| ==> t.todo[k].lock.Provider? && t.todo[k].exclusive)
         && (forall j, k :: 1 <= j < k < |t.todo| ==> t.todo[j].lock != t.todo[k].lock)
         && (|t.todo| > 2 ==> t.todo[1].lock == Provider(0))
       case Snapshot => t.todo == [Request(Projection, true)]
       case Single => |t.todo| == 1 && t.todo[0].lock.Provider? && t.todo[0].exclusive
  }

  function WriterOf(order: seq<int>): Thread {
    Thread(Writer,
           [Request(Projection, false)] + seq(|order|, (k: nat) requires k < |order| => Request(Provider(order[k]), true)),
           [], None)
  }

  /** A write over several items asks as it should if and only if it locks no provider twice; a write to one
      provider always does. */
  lemma WriterIsFreshIff(sorted: seq<int>, provider: int)
    requires forall i, j :: 0 <= i < j < |sorted| ==> sorted[i] <= sorted[j]
    ensures Fresh(WriterOf(WriteOrder(sorted))) <==> 0 !in sorted || forall p :: p in sorted ==> p >= 0
    ensures Fresh(WriterOf([provider]))
  {
    var order := WriteOrder(sorted);
    var t := WriterOf(order);
    WriteOrderAscends(sorted);
    WriteOrderIsDistinctIff(sorted);
    assert forall k :: 0 <= k < |order| ==> t.todo[k + 1] == Request(Provider(order[k]), true);
    assert forall k :: 1 <= k < |t.todo| ==> t.todo[k] == Request(Provider(order[k - 1]), true);
    if !Distinct(order) {
      var i, j :| 0 <= i < j < |order| && order[i] == order[j];
      assert t.todo[i + 1].lock == t.todo[j + 1].lock;
    }
  }

  // --- The invariant ---

  ghost predicate DistinctLocks(rs: seq<Request>) {
    forall j, k :: 0 <= j < k < |rs| ==> rs[j].lock != rs[k].lock
  }

  ghost predicate ThreadInv(t: Thread, next: nat) {
    var all := t.held + t.todo;
    && DistinctLocks(all)
    && (t.ticket.Some? ==> t.todo != [] && t.ticket.value < next)
    && (t.kind.Writer? && all != [] ==> all[0] == Request(Projection, false))
    && (t.kind.Writer? && t.todo != [] && |all| > 2 ==> all[1].lock == Provider(0))
    && (!t.kind.Writer? ==> |all| <= 1)
    && (forall r :: r in all ==> r.lock.Provider? ==> r.exclusive)
  }

  ghost predicate Inv(s: State) {
    && (forall i :: 0 <= i < |s.threads| ==> ThreadInv(s.threads[i], s.next))
    && (forall i, j :: 0 <= i < j < |s.threads| && s.threads[i].ticket.Some? && s.threads[j].ticket.Some? ==>
          s.threads[i].ticket != s.threads[j].ticket)
    && (forall i, j :: 0 <= i < j < |s.threads| ==> Disjoint(s.threads[i], s.threads[j]))
  }

  /** Whatever two threads hold is compatible. */
  ghost predicate Disjoint(a: Thread, b: Thread) {
    forall g, h :: 0 <= g < |a.held| && 0 <= h < |b.held| ==> Compatible(a.held[g], b.held[h])
  }

  lemma QueuedKeepsThread(t: Thread, next: nat)
    requires ThreadInv(t, next) && t.todo != []
    ensures ThreadInv(t.(ticket := Some(next)), next + 1)
  {
  }

  lemma GrantedKeepsThread(t: Thread, next: nat)
    requires ThreadInv(t, next) && t.todo != []
    ensures ThreadInv(t.(todo := t.todo[1..], held := t.held + [t.todo[0]], ticket := None), next)
  {
    assert t.held + [t.todo[0]] + t.todo[1..] == t.held + t.todo;
  }

  lemma AbortedKeepsThread(t: Thread, next: nat)
    requires ThreadInv(t, next)
    ensures ThreadInv(t.(todo := [], ticket := None), next)
  {
    var all := t.held + t.todo;
    assert t.held + [] == t.held;
    assert forall k :: 0 <= k < |t.held| ==> all[k] == t.held[k];
    assert forall r :: r in t.held ==> r in all;
  }

  lemma ReleasedKeepsThread(t: Thread, next: nat, h: nat)
    requires ThreadInv(t, next) && t.todo == [] && h < |t.held| && (|t.held| == 1 || t.held[h].lock.Provider?)
    ensures ThreadInv(t.(held := t.held[..h] + t.held[h + 1..]), next)
  {
    var r := t.held[..h] + t.held[h + 1..];
    assert t.held + [] == t.held && r + [] == r;
    assert forall k :: 0 <= k < |r| ==> r[k] == t.held[if k < h then k else k + 1];
    assert forall x :: x in r ==> x in t.held;
  }

  lemma LaterTickets(t: Thread, next: nat)
    requires ThreadInv(t, next)
    ensures ThreadInv(t, next + 1)
  {
  }

  lemma StepKeepsThread(s: State, e: Event)
    requires Enabled(s, e) && ThreadInv(s.threads[e.i], s.next)
    ensures ThreadInv(Apply(s, e).threads[e.i], Apply(s, e).next)
  {
    var t, t' := s.threads[e.i], Apply(s, e).threads[e.i];
    match e
    case Enqueue(_) =>
      assert t' == t.(ticket := Some(s.next));
      QueuedKeepsThread(t, s.next);
    case Grant(_) =>
      assert t' == t.(todo := t.todo[1..], held := t.held + [t.todo[0]], ticket := None);
      GrantedKeepsThread(t, s.next);
    case Release(_, h) =>
      assert t' == t.(held := t.held[..h] + t.held[h + 1..]);
      ReleasedKeepsThread(t, s.next, h);
    case Abort(_) =>
      assert t' == t.(todo := [], ticket := None);
      AbortedKeepsThread(t, s.next);
  }

  lemma StepKeepsDisjoint(s: State, e: Event, i: nat)
    requires Inv(s) && Enabled(s, e) && i < |s.threads| && i != e.i
    ensures Disjoint(s.threads[i], Apply(s, e).threads[e.i]) && Disjoint(Apply(s, e).threads[e.i], s.threads[i])
  {
    var t, t', u := s.threads[e.i], Apply(s, e).threads[e.i], s.threads[i];
    assert Disjoint(s.threads[if i < e.i then i else e.i], s.threads[if i < e.i then e.i else i]);
    forall g, h | 0 <= g < |t'.held| && 0 <= h < |u.held|
      ensures Compatible(t'.held[g], u.held[h]) && Compatible(u.held[h], t'.held[g])
    {
      if !(e.Grant? && g == |t.held|) {
        assert t'.held[g] in t.held;
      }
    }
  }

  lemma StepKeepsInv(s: State, e: Event)
    requires Inv(s) && Enabled(s, e)
    ensures Inv(Apply(s, e))
  {
    var s' := Apply(s, e);
    StepKeepsThread(s, e);
    forall i | 0 <= i < |s.threads| && i != e.i
      ensures s'.threads[i] == s.threads[i] && ThreadInv(s'.threads[i], s'.next)
      ensures Disjoint(s'.threads[i], s'.threads[e.i]) && Disjoint(s'.threads[e.i], s'.threads[i])
    {
      LaterTickets(s.threads[i], s.next);
      StepKeepsDisjoint(s, e, i);
    }
  }

  // --- Progress ---

  ghost predicate Progress(e: Event) { !e.Abort? }

  ghost predicate HoldsProvider(t: Thread) {
    exists h :: 0 <= h < |t.held| && t.held[h].lock.Provider?
  }

  /** Whoever holds a provider mutex and waits for more holds that of provider 0. */
  lemma WaitingHolderHasZero(t: Thread, next: nat)
    requires ThreadInv(t, next) && t.todo != [] && HoldsProvider(t)
    ensures |t.held| > 1 && t.held[1] == Request(Provider(0), true)
    ensures t.todo[0].lock.Provider? && forall h :: 0 <= h < |t.held| ==> t.held[h].lock != t.todo[0].lock
  {
    var all := t.held + t.todo;
    var h :| 0 <= h < |t.held| && t.held[h].lock.Provider?;
    assert all[h] == t.held[h] && all[|t.held|] == t.todo[0];
    assert all[0] == t.held[0] && all[1] == t.held[1];
    assert t.held[1] in all;
    assert forall k :: 0 <= k < |t.held| ==> all[k] == t.held[k];
  }

  lemma BothHoldZero(a: Thread, b: Thread, next: nat)
    requires ThreadInv(a, next) && a.todo != [] && HoldsProvider(a)
    requires ThreadInv(b, next) && b.todo != [] && HoldsProvider(b)
    ensures !Disjoint(a, b)
  {
    WaitingHolderHasZero(a, next);
    WaitingHolderHasZero(b, next);
    assert !Compatible(a.held[1], b.held[1]);
  }

  /** So at most one thread does. */
  lemma OneWaitingHolder(s: State, a: nat, b: nat)
    requires Inv(s) && a < |s.threads| && b < |s.threads|
    requires s.threads[a].todo != [] && HoldsProvider(s.threads[a])
    requires s.threads[b].todo != [] && HoldsProvider(s.threads[b])
    ensures a == b
  {
    BothHoldZero(s.threads[a], s.threads[b], s.next);
    BothHoldZero(s.threads[b], s.threads[a], s.next);
  }

  /** Among those queued for a lock one came first. */
  lemma {:induction false} FirstInLine(s: State, l: Lock, i: nat) returns (u: nat)
    requires i < |s.threads| && WaitsFor(s.threads[i], l)
    ensures u < |s.threads| && WaitsFor(s.threads[u], l)
    ensures forall j :: 0 <= j < |s.threads| && WaitsFor(s.threads[j], l) ==>
              s.threads[u].ticket.value <= s.threads[j].ticket.value
    decreases s.threads[i].ticket.value
  {
    if j :| 0 <= j < |s.threads| && WaitsFor(s.threads[j], l) && s.threads[j].ticket.value < s.threads[i].ticket.value {
      u := FirstInLine(s, l, j);
    } else {
      u := i;
    }
  }

  /** Every unfinished thread is queued. */
  ghost predicate AllQueued(s: State) {
    forall j :: 0 <= j < |s.threads| ==> Finished(s.threads[j]) || s.threads[j].ticket.Some?
  }

  /** Whoever holds what the first in line for a provider waits for would itself hold provider 0 and wait for
      this very lock; so nobody does. */
  lemma ProviderIsFree(s: State, z: nat, j: nat, h: nat)
    requires Inv(s) && AllQueued(s) && z < |s.threads| && j < |s.threads| && h < |s.threads[j].held|
    requires s.threads[z].todo != [] && s.threads[z].todo[0].lock.Provider?
    requires forall x :: 0 <= x < |s.threads| && s.threads[x].todo != [] && HoldsProvider(s.threads[x]) ==> x == z
    ensures s.threads[j].held[h].lock != s.threads[z].todo[0].lock
  {
    if s.threads[j].held[h].lock == s.threads[z].todo[0].lock {
      assert HoldsProvider(s.threads[j]);
      assert ThreadInv(s.threads[j], s.next) && s.threads[j].todo != [];
      WaitingHolderHasZero(s.threads[j], s.next);
    }
  }

  lemma GrantFirst(s: State, z: nat) returns (g: nat)
    requires Inv(s) && AllQueued(s) && z < |s.threads| && s.threads[z].ticket.Some?
    requires forall j, h :: 0 <= j < |s.threads| && 0 <= h < |s.threads[j].held| ==>
               s.threads[j].held[h].lock != s.threads[z].todo[0].lock
    ensures g < |s.threads| && Enabled(s, Grant(g))
  {
    assert ThreadInv(s.threads[z], s.next);
    g := FirstInLine(s, s.threads[z].todo[0].lock, z);
  }

  /** If every unfinished thread is queued, some request can be granted. */
  lemma SomeGrant(s: State, i: nat) returns (g: nat)
    requires Inv(s) && AllQueued(s) && i < |s.threads| && s.threads[i].ticket.Some?
    ensures g < |s.threads| && Enabled(s, Grant(g))
  {
    assert forall k :: 0 <= k < |s.threads| ==> ThreadInv(s.threads[k], s.next);
    if z :| 0 <= z < |s.threads| && s.threads[z].todo != [] && HoldsProvider(s.threads[z]) {
      WaitingHolderHasZero(s.threads[z], s.next);
      forall x | 0 <= x < |s.threads| && s.threads[x].todo != [] && HoldsProvider(s.threads[x]) ensures x == z {
        OneWaitingHolder(s, x, z);
      }
      forall j, h | 0 <= j < |s.threads| && 0 <= h < |s.threads[j].held|
        ensures s.threads[j].held[h].lock != s.threads[z].todo[0].lock
      {
        ProviderIsFree(s, z, j, h);
      }
      g := GrantFirst(s, z);
    } else if z :| 0 <= z < |s.threads| && s.threads[z].ticket.Some? && s.threads[z].todo[0].lock.Provider? {
      forall j, h | 0 <= j < |s.threads| && 0 <= h < |s.threads[j].held|
        ensures s.threads[j].held[h].lock != s.threads[z].todo[0].lock
      {
        ProviderIsFree(s, z, j, h);
      }
      g := GrantFirst(s, z);
    } else {
      forall j | 0 <= j < |s.threads| && s.threads[j].todo != [] ensures HoldsOthers(s.threads[j]) {
        HeldIsNotAwaited(s.threads[j], s.next);
      }
      g := GrantFirst(s, i);
    }
  }

  ghost predicate HoldsOthers(t: Thread)
    requires t.todo != []
  {
    forall h :: 0 <= h < |t.held| ==> t.held[h].lock != t.todo[0].lock
  }

  lemma HeldIsNotAwaited(t: Thread, next: nat)
    requires ThreadInv(t, next) && t.todo != []
    ensures HoldsOthers(t)
  {
    var all := t.held + t.todo;
    assert all[|t.held|] == t.todo[0] && forall h :: 0 <= h < |t.held| ==> all[h] == t.held[h];
  }

  /** Deadlock freedom: while some thread is unfinished, some acquisition or release can happen. */
  lemma NoDeadlock(s: State, i: nat) returns (e: Event)
    requires Inv(s) && i < |s.threads| && !Finished(s.threads[i])
    ensures Enabled(s, e) && Progress(e)
  {
    if j :| 0 <= j < |s.threads| && s.threads[j].todo != [] && s.threads[j].ticket.None? {
      e := Enqueue(j);
    } else if j :| 0 <= j < |s.threads| && s.threads[j].todo == [] && s.threads[j].held != [] {
      var t := s.threads[j];
      var h := |t.held| - 1;
      assert t.held + t.todo == t.held;
      assert ThreadInv(t, s.next) && (|t.held| > 1 ==> t.held[h] != t.held[0] && t.held[0].lock == Projection);
      e := Release(j, h);
    } else {
      var g := SomeGrant(s, i);
      e := Grant(g);
    }
  }

  predicate Runnable(s: State, es: seq<Event>)
    decreases |es|
  {
    es == [] || (Enabled(s, es[0]) && Runnable(Apply(s, es[0]), es[1..]))
  }

  function Run(s: State, es: seq<Event>): State
    requires Runnable(s, es)
    decreases |es|
  {
    if es == [] then s else Run(Apply(s, es[0]), es[1..])
  }

  ghost predicate Stuck(s: State) {
    (exists i :: 0 <= i < |s.threads| && !Finished(s.threads[i])) && forall e :: Progress(e) ==> !Enabled(s, e)
  }

  /** Some run leads to a state in which nobody can go on. */
  ghost predicate CanStick(s: State) {
    exists es :: Runnable(s, es) && Stuck(Run(s, es))
  }

  lemma CanStickBefore(s: State, e: Event)
    requires Enabled(s, e) && CanStick(Apply(s, e))
    ensures CanStick(s)
  {
    var es :| Runnable(Apply(s, e), es) && Stuck(Run(Apply(s, e), es));
    assert ([e] + es)[1..] == es;
    assert Runnable(s, [e] + es) && Run(s, [e] + es) == Run(Apply(s, e), es);
  }

  lemma AsksForHeld(s: State, r: Request, held: seq<Request>)
    requires s.threads == [Thread(Writer, [r], held, None)] && r in held && r.exclusive
    ensures CanStick(s)
  {
    var t := Apply(s, Enqueue(0));
    var h :| 0 <= h < |held| && held[h] == r;
    assert !Compatible(t.threads[0].todo[0], t.threads[0].held[h]);
    assert Stuck(t) by { assert !Finished(t.threads[0]); }
    assert Runnable(t, []) && Run(t, []) == t;
    CanStickBefore(s, Enqueue(0));
  }

  /** A thread that is alone gets what it does not hold yet. */
  lemma Acquires(s: State, held: seq<Request>, r: Request, rest: seq<Request>)
    requires s.threads == [Thread(Writer, [r] + rest, held, None)]
    requires forall h :: 0 <= h < |held| ==> Compatible(r, held[h])
    requires CanStick(State([Thread(Writer, rest, held + [r], None)], s.next + 1))
    ensures CanStick(s)
  {
    assert ([r] + rest)[1..] == rest;
    var t := Apply(s, Enqueue(0));
    assert Apply(t, Grant(0)) == State([Thread(Writer, rest, held + [r], None)], s.next + 1);
    CanStickBefore(t, Grant(0));
    CanStickBefore(s, Enqueue(0));
  }

  lemma RepeatingOrder()
    ensures var z := Request(Provider(0), true);
            WriterOf(WriteOrder([-1, 0])).todo ==
            [Request(Projection, false)] + ([z] + ([Request(Provider(-1), true)] + [z]))
  {
    assert WriteOrder([-1, 0]) == [0, -1, 0] by {
      assert [0] + [-1, 0] == [0, -1, 0] && [0, -1, 0][1..] == [-1, 0] && [-1, 0][1..] == [0];
    }
  }

  /** A writer that asks for provider 0 again after a negative one can only end up waiting for itself. */
  lemma RepeatedProviderBlocks(s: State)
    requires s.threads == [WriterOf(WriteOrder([-1, 0]))]
    ensures CanStick(s)
  {
    var p, z, m := Request(Projection, false), Request(Provider(0), true), Request(Provider(-1), true);
    var a := [] + [p];
    var b := a + [z];
    var c := b + [m];
    RepeatingOrder();
    AsksForHeld(State([Thread(Writer, [z], c, None)], s.next + 3), z, c);
    Acquires(State([Thread(Writer, [m] + [z], b, None)], s.next + 2), b, m, [z]);
    Acquires(State([Thread(Writer, [z] + ([m] + [z]), a, None)], s.next + 1), a, z, [m] + [z]);
    Acquires(s, [], p, [z] + ([m] + [z]));
  }

  // --- Every run ends ---

  function Cost(t: Thread): nat {
    3 * |t.todo| + |t.held| + if t.ticket.Some? then 0 else 1
  }

  function Work(ts: seq<Thread>): nat {
    if ts == [] then 0 else Cost(ts[0]) + Work(ts[1..])
  }

  lemma {:induction false} WorkUpdate(ts: seq<Thread>, i: nat, t: Thread)
    requires i < |ts|
    ensures Work(ts[i := t]) == Work(ts) - Cost(ts[i]) + Cost(t)
  {
    if i > 0 {
      WorkUpdate(ts[1..], i - 1, t);
      assert ts[i := t][1..] == ts[1..][i - 1 := t];
    } else {
      assert ts[i := t][1..] == ts[1..];
    }
  }

  lemma StepDoesWork(s: State, e: Event)
    requires Enabled(s, e)
    ensures Work(Apply(s, e).threads) < Work(s.threads)
  {
    WorkUpdate(s.threads, e.i, Apply(s, e).threads[e.i]);
  }

  ghost predicate Behavior(tr: seq<State>, es: seq<Event>) {
    && |tr| == |es| + 1
    && (forall i :: 0 <= i < |tr[0].threads| ==> Fresh(tr[0].threads[i]))
    && forall i :: 0 <= i < |es| ==> Enabled(tr[i], es[i]) && tr[i + 1] == Apply(tr[i], es[i])
  }

  lemma FreshDistinct(t: Thread)
    requires Fresh(t)
    ensures DistinctLocks(t.todo) && forall r :: r in t.todo ==> r.lock.Provider? ==> r.exclusive
  {
    forall j, k | 0 <= j < k < |t.todo| ensures t.todo[j].lock != t.todo[k].lock {
      assert t.todo[k].lock.Provider?;
    }
  }

  lemma FreshInv(t: Thread, next: nat)
    requires Fresh(t)
    ensures ThreadInv(t, next)
  {
    FreshDistinct(t);
    assert t.held + t.todo == t.todo;
  }

  lemma {:induction false} BehaviorInv(tr: seq<State>, es: seq<Event>, i: nat)
    requires Behavior(tr, es) && i <= |es|
    ensures Inv(tr[i]) && i + Work(tr[i].threads) <= Work(tr[0].threads)
    ensures |tr[i].threads| == |tr[0].threads|
  {
    if i == 0 {
      forall k | 0 <= k < |tr[0].threads| ensures ThreadInv(tr[0].threads[k], tr[0].next) {
        FreshInv(tr[0].threads[k], tr[0].next);
      }
    } else {
      BehaviorInv(tr, es, i - 1);
      StepKeepsInv(tr[i - 1], es[i - 1]);
      StepDoesWork(tr[i - 1], es[i - 1]);
    }
  }

  /** Runs are bounded by the work asked for, and one that stops has finished every thread. */
  lemma EveryRunFinishes(tr: seq<State>, es: seq<Event>)
    requires Behavior(tr, es)
    ensures |es| <= Work(tr[0].threads) && |tr[|es|].threads| == |tr[0].threads|
    ensures (forall e :: Progress(e) ==> !Enabled(tr[|es|], e)) ==>
              forall i :: 0 <= i < |tr[0].threads| ==> Finished(tr[|es|].threads[i])
  {
    BehaviorInv(tr, es, |es|);
    var s := tr[|es|];
    if i :| 0 <= i < |s.threads| && !Finished(s.threads[i]) {
      var e := NoDeadlock(s, i);
      assert !(forall e :: Progress(e) ==> !Enabled(s, e));
    }
  }

  lemma {:induction false} KindsFixed(tr: seq<State>, es: seq<Event>, i: nat, k: nat)
    requires Behavior(tr, es) && i <= |es| && k < |tr[0].threads|
    ensures k < |tr[i].threads| && tr[i].threads[k].kind == tr[0].threads[k].kind
  {
    if i > 0 { KindsFixed(tr, es, i - 1, k); }
  }

  /** While a snapshot is held no writer holds anything, and no provider mutex has two holders. */
  lemma SnapshotExcludesWriters(tr: seq<State>, es: seq<Event>, i: nat, a: nat, b: nat)
    requires Behavior(tr, es) && i <= |es| && a < |tr[i].threads| && b < |tr[i].threads| && a != b
    ensures Request(Projection, true) in tr[i].threads[a].held && tr[i].threads[b].kind.Writer? ==>
              tr[i].threads[b].held == []
    ensures forall p, x, y :: Request(Provider(p), x) in tr[i].threads[a].held ==>
              Request(Provider(p), y) !in tr[i].threads[b].held
  {
    BehaviorInv(tr, es, i);
    var s := tr[i];
    assert Disjoint(s.threads[if a < b then a else b], s.threads[if a < b then b else a]);
    forall p, x, y | Request(Provider(p), x) in s.threads[a].held
      ensures Request(Provider(p), y) !in s.threads[b].held
    {
      assert ThreadInv(s.threads[a], s.next);
      assert Request(Provider(p), x) in s.threads[a].held + s.threads[a].todo;
    }
  }
}
