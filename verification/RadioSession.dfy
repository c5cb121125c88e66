/** The continuation chain of one radio session: `next` under the session's data lock. */
module RadioSession {
  import opened Options

  const MAX_STATE_BYTES: nat := 64 * 1024

  datatype Song = Song(id: int, canPlay: bool)

  datatype Batch = Batch(state: string, songs: seq<Song>, configuration: map<string, string>, exhausted: bool)

  datatype Page = Page(version: nat, batch: Batch)

  datatype Failure = Gone | VersionConflict | Ended | Malformed | Changed | Foreign

  /** What the provider answers to a continuation request; it may not answer in time. */
  datatype Answer = Refused | Answered(batch: Batch)

  predicate ValidBatch(batch: Batch, opening: bool) {
    && |batch.state| <= MAX_STATE_BYTES
    && (forall i :: 0 <= i < |batch.songs| ==> batch.songs[i].id > 0)
    && (opening ==> exists i :: 0 <= i < |batch.songs| && batch.songs[i].canPlay)
  }

  // --- One call, as a function ---

  /** Whether the session is valid at the three points where `next` looks. */
  datatype Looks = Looks(entry: bool, answered: bool, retained: bool)

  function Next(page: Page, expected: nat, answer: Answer, kept: bool, valid: Looks): (Page, Result<Page, Failure>) {
    if !valid.entry then (page, Err(Gone))
    else if page.version != expected then (page, Err(VersionConflict))
    else if page.batch.exhausted then (page, Err(Ended))
    else if answer.Refused? then (page, Err(Foreign))
    else
      var renewed := page.(batch := page.batch.(state := answer.batch.state));
      if !valid.answered then (renewed, Err(Gone))
      else if !ValidBatch(answer.batch, false) then (page, Err(Malformed))
      else if answer.batch.configuration != page.batch.configuration then (page, Err(Changed))
      else if !kept then (page, Err(Foreign))
      else if !valid.retained then (renewed, Err(Gone))
      else
        var next := Page(page.version + 1, answer.batch);
        (next, Ok(next))
  }

  /** A call succeeds exactly if the session is valid at every look, the caller has the newest page, the radio is not
      exhausted, and the provider's answer arrives, is well formed, keeps the configuration and has its songs
      retained. Then the answer itself is the next page, and it is what the caller gets. */
  lemma NextSucceedsIff(page: Page, expected: nat, answer: Answer, kept: bool, valid: Looks)
    ensures var (after, result) := Next(page, expected, answer, kept, valid);
            && (result.Ok? <==>
                && valid == Looks(true, true, true) && expected == page.version && !page.batch.exhausted
                && answer.Answered? && |answer.batch.state| <= 65536
                && (forall i :: 0 <= i < |answer.batch.songs| ==> answer.batch.songs[i].id > 0)
                && answer.batch.configuration == page.batch.configuration && kept)
            && (result.Ok? ==> result.value == after == Page(page.version + 1, answer.batch))
            && (!result.Ok? ==> after.version == page.version && after.batch.(state := page.batch.state) == page.batch)
  {
  }

  /** A caller with another page than the newest is told so, unless the session is gone; a page is only changed for a
      session that ended while the provider was asked. */
  lemma NextFails(page: Page, expected: nat, answer: Answer, kept: bool, valid: Looks)
    ensures var (after, result) := Next(page, expected, answer, kept, valid);
            && (!valid.entry ==> result == Err(Gone))
            && (valid.entry && expected != page.version ==> result == Err(VersionConflict))
            && (valid.entry && expected == page.version && page.batch.exhausted ==> result == Err(Ended))
            && (!result.Ok? && after != page ==>
                  result == Err(Gone) && answer.Answered? && after.batch.state == answer.batch.state)
            && (valid.entry && expected == page.version && !page.batch.exhausted && answer.Answered? && !valid.answered ==>
                  result == Err(Gone) && after == page.(batch := page.batch.(state := answer.batch.state)))
  {
  }

  // --- All calls, interleaved with everything that ends a session ---

  /** Who holds the data lock. */
  datatype Phase = Idle | Asking(used: string) | Retaining(used: string, batch: Batch)

  /** A successful call: the page it returned and the state it sent to the provider. */
  datatype Served = Served(used: string, page: Page)

  datatype Session = Session(opening: Batch, page: Page, valid: bool, phase: Phase, log: seq<Served>)

  datatype Event =
    | Enter(expected: nat)
    | Answer(answer: Answer)
    | Retain(kept: bool)
    | Abort
    | Invalidate
    | Revalidate

  predicate Enabled(s: Session, e: Event) {
    match e
    case Enter(_) => s.phase.Idle?
    case Answer(_) => s.phase.Asking?
    case Retain(_) => s.phase.Retaining?
    case Abort => !s.phase.Idle?
    case Invalidate => s.valid
    case Revalidate => !s.valid
  }

  function Apply(s: Session, e: Event): Session
    requires Enabled(s, e)
  {
    match e
    case Enter(expected) =>
      if s.valid && s.page.version == expected && !s.page.batch.exhausted
      then s.(phase := Asking(s.page.batch.state)) else s
    case Answer(Refused) => s.(phase := Idle)
    case Answer(Answered(batch)) =>
      if !s.valid then Renewed(s, batch)
      else if !ValidBatch(batch, false) || batch.configuration != s.page.batch.configuration then s.(phase := Idle)
      else s.(phase := Retaining(s.phase.used, batch))
    case Retain(kept) =>
      if !kept then s.(phase := Idle)
      else if !s.valid then Renewed(s, s.phase.batch)
      else
        var next := Page(s.page.version + 1, s.phase.batch);
        s.(page := next, phase := Idle, log := s.log + [Served(s.phase.used, next)])
    case Abort => s.(phase := Idle)
    case Invalidate => s.(valid := false)
    case Revalidate => s.(valid := true)
  }

  /** A session that expired meanwhile keeps the newest provider state, for the cleanup call. */
  function Renewed(s: Session, batch: Batch): Session {
    s.(page := s.page.(batch := s.page.batch.(state := batch.state)), phase := Idle)
  }

  function Open(batch: Batch): Session {
    Session(batch, Page(1, batch), true, Idle, [])
  }

  predicate Runnable(s: Session, es: seq<Event>)
    decreases |es|
  {
    es == [] || (Enabled(s, es[0]) && Runnable(Apply(s, es[0]), es[1..]))
  }

  function Run(s: Session, es: seq<Event>): Session
    requires Runnable(s, es)
    decreases |es|
  {
    if es == [] then s else Run(Apply(s, es[0]), es[1..])
  }

  /** The page before the `k`-th continuation. */
  function Preceding(s: Session, k: nat): Page
    requires k <= |s.log|
  {
    if k == 0 then Page(1, s.opening) else s.log[k - 1].page
  }

  /** Versions count up by one, every page was computed from the state of the page before it, and all
      have the configuration of the opening. */
  ghost predicate Chained(s: Session) {
    forall k :: 0 <= k < |s.log| ==>
      && s.log[k].page.version == k + 2
      && s.log[k].used == Preceding(s, k).batch.state
      && s.log[k].page.batch.configuration == s.opening.configuration
      && !Preceding(s, k).batch.exhausted
  }

  ghost predicate Fresh(s: Session) {
    s.page == Preceding(s, |s.log|)
  }

  ghost predicate Inv(s: Session) {
    && Chained(s)
    && s.page.version == |s.log| + 1
    && s.page == Preceding(s, |s.log|).(batch := Preceding(s, |s.log|).batch.(state := s.page.batch.state))
    && s.page.batch.configuration == s.opening.configuration
    && (s.valid ==> Fresh(s))
    && (!s.phase.Idle? ==>
          && !s.page.batch.exhausted
          && (s.phase.used == Preceding(s, |s.log|).batch.state))
    && (s.phase.Retaining? ==> s.phase.batch.configuration == s.opening.configuration)
  }

  lemma ServeKeepsChain(s: Session)
    requires Inv(s) && s.phase.Retaining? && s.valid
    ensures Inv(Apply(s, Retain(true)))
  {
    var t := Apply(s, Retain(true));
    assert forall k :: 0 <= k < |s.log| ==> t.log[k] == s.log[k];
    forall k | 0 <= k < |t.log|
      ensures
        && t.log[k].page.version == k + 2
        && t.log[k].used == Preceding(t, k).batch.state
        && t.log[k].page.batch.configuration == t.opening.configuration
        && !Preceding(t, k).batch.exhausted
    {
      assert Preceding(t, k) == Preceding(s, k);
    }
  }

  lemma StepKeepsChain(s: Session, e: Event)
    requires Inv(s) && Enabled(s, e)
    requires e.Revalidate? ==> Fresh(s)
    ensures Inv(Apply(s, e))
  {
    var t := Apply(s, e);
    if t.log == s.log {
      assert forall k :: 0 <= k <= |s.log| ==> Preceding(t, k) == Preceding(s, k);
    } else {
      ServeKeepsChain(s);
    }
  }

  /** A call succeeds exactly when a page is logged; any other step leaves the version alone. */
  lemma OnlySuccessAdvances(s: Session, e: Event)
    requires Enabled(s, e)
    ensures var t := Apply(s, e);
            if |t.log| == |s.log| then t.log == s.log && t.page.version == s.page.version && t.page.batch.songs == s.page.batch.songs
            else t.log == s.log + [Served(s.phase.used, t.page)] && t.page.version == s.page.version + 1
  {
  }

  ghost predicate Permanent(es: seq<Event>) {
    forall i :: 0 <= i < |es| ==> !es[i].Revalidate?
  }

  lemma {:induction false} RunChained(s: Session, es: seq<Event>)
    requires Inv(s) && Runnable(s, es) && Permanent(es)
    ensures Inv(Run(s, es))
    decreases |es|
  {
    if es != [] {
      StepKeepsChain(s, es[0]);
      RunChained(Apply(s, es[0]), es[1..]);
    }
  }

  /** The answer that a successful step of `s` owes its page to, if `last` is the newest answer of the provider. */
  function Owed(s: Session, last: Batch, e: Event): seq<Batch>
    requires Enabled(s, e)
  {
    if |Apply(s, e).log| > |s.log| then [last] else []
  }

  /** The newest answer after `e`. */
  function Newest(last: Batch, e: Event): Batch {
    if e.Answer? && e.answer.Answered? then e.answer.batch else last
  }

  /** The answers that the steps of a run owe their pages to, in order. */
  function Answers(s: Session, last: Batch, es: seq<Event>): seq<Batch>
    requires Runnable(s, es)
    decreases |es|
  {
    if es == [] then [] else Owed(s, last, es[0]) + Answers(Apply(s, es[0]), Newest(last, es[0]), es[1..])
  }

  /** The session holds `last` while its songs are retained. */
  predicate HoldsNewest(s: Session, last: Batch) {
    s.phase.Retaining? ==> s.phase.batch == last
  }

  lemma StepServesAnswer(s: Session, last: Batch, e: Event)
    requires Enabled(s, e) && HoldsNewest(s, last)
    ensures HoldsNewest(Apply(s, e), Newest(last, e))
    ensures var t := Apply(s, e);
            if Owed(s, last, e) == [] then t.log == s.log
            else |t.log| == |s.log| + 1 && t.log[..|s.log|] == s.log && t.log[|s.log|].page.batch == last && t.page.batch == last
  {
  }

  /** In every run, each page that is served is exactly the newest answer of the provider at that moment: its state,
      its songs, its configuration and whether it is the last. */
  lemma {:induction false} PagesAreAnswers(s: Session, last: Batch, es: seq<Event>)
    requires Runnable(s, es) && HoldsNewest(s, last)
    ensures var log := Run(s, es).log;
            && |log| == |s.log| + |Answers(s, last, es)| && log[..|s.log|] == s.log
            && forall k :: |s.log| <= k < |log| ==> log[k].page.batch == Answers(s, last, es)[k - |s.log|]
    decreases |es|
  {
    if es != [] {
      var t, n := Apply(s, es[0]), |s.log|;
      StepServesAnswer(s, last, es[0]);
      PagesAreAnswers(t, Newest(last, es[0]), es[1..]);
      var log := Run(s, es).log;
      assert log[..|t.log|] == t.log;
      assert log[..n] == t.log[..n];
    }
  }

  /** In every run of a session whose invalidity is permanent, the successful continuations carry the
      versions 2, 3, 4, … and form a chain. */
  lemma EveryRunIsAChain(batch: Batch, es: seq<Event>)
    requires Runnable(Open(batch), es) && Permanent(es)
    ensures Chained(Run(Open(batch), es)) && Run(Open(batch), es).page.version == |Run(Open(batch), es).log| + 1
    ensures Run(Open(batch), es).opening == batch
  {
    RunChained(Open(batch), es);
    RunKeepsOpening(Open(batch), es);
  }

  lemma {:induction false} RunKeepsOpening(s: Session, es: seq<Event>)
    requires Runnable(s, es)
    ensures Run(s, es).opening == s.opening && s.log <= Run(s, es).log
    decreases |es|
  {
    if es != [] {
      RunKeepsOpening(Apply(s, es[0]), es[1..]);
    }
  }

  /** The steps of one more continuation after the session became valid again. */
  function Resume(s: Session): seq<Event> {
    var batch := s.page.batch.(songs := []);
    [Revalidate, Enter(s.page.version), Answer(Answered(batch)), Retain(true)]
  }

  lemma ResumeServes(s: Session)
    requires Inv(s) && s.phase.Idle? && !s.valid && !s.page.batch.exhausted
    requires |s.page.batch.state| <= MAX_STATE_BYTES
    ensures Runnable(s, Resume(s))
    ensures Run(s, Resume(s)).log ==
              s.log + [Served(s.page.batch.state, Page(s.page.version + 1, s.page.batch.(songs := [])))]
    ensures Run(s, Resume(s)).opening == s.opening
  {
    var es := Resume(s);
    var s1 := Apply(s, es[0]);
    var s2 := Apply(s1, es[1]);
    var s3 := Apply(s2, es[2]);
    var s4 := Apply(s3, es[3]);
    assert es[1..] == [es[1], es[2], es[3]] && es[1..][1..] == [es[2], es[3]];
    assert es[1..][1..][1..] == [es[3]] && es[1..][1..][1..][1..] == [];
    assert Runnable(s4, []) && Run(s4, []) == s4;
    assert Runnable(s3, [es[3]]) && Run(s3, [es[3]]) == s4;
    assert Runnable(s2, [es[2], es[3]]) && Run(s2, [es[2], es[3]]) == s4;
    assert Runnable(s1, es[1..]) && Run(s1, es[1..]) == s4;
  }

  /** If an invalid session became valid again, its chain would survive in every continuation exactly if
      no provider answer arrived while it was invalid that changed the state. */
  lemma RevalidationIsSafeIff(s: Session)
    requires Inv(s) && s.phase.Idle? && !s.valid && !s.page.batch.exhausted
    requires |s.page.batch.state| <= MAX_STATE_BYTES
    ensures (forall es :: Runnable(Apply(s, Revalidate), es) && Permanent(es) ==>
               Chained(Run(Apply(s, Revalidate), es)))
            <==> s.page.batch.state == Preceding(s, |s.log|).batch.state
  {
    var t := Apply(s, Revalidate);
    if s.page.batch.state == Preceding(s, |s.log|).batch.state {
      StepKeepsChain(s, Revalidate);
      forall es | Runnable(t, es) && Permanent(es) ensures Chained(Run(t, es)) {
        RunChained(t, es);
      }
    } else {
      ResumeServes(s);
      var es := Resume(s)[1..];
      assert Runnable(t, es) && Permanent(es);
      var u := Run(t, es);
      assert u == Run(s, Resume(s));
      assert u.log[|s.log|].used == s.page.batch.state;
      assert Preceding(u, |s.log|) == Preceding(s, |s.log|);
      assert !Chained(u);
    }
  }

  /** Such a session is reachable: an answer with another state arrives after the session ended. One more
      continuation would then start from a state that no page carries. */
  lemma RevalidatedChainCanBreak(batch: Batch, state: string)
    requires !batch.exhausted && state != batch.state && |state| <= MAX_STATE_BYTES
    ensures var es := [Enter(1), Invalidate, Answer(Answered(batch.(state := state)))];
            && Runnable(Open(batch), es)
            && var s := Run(Open(batch), es);
               && Inv(s) && s.phase.Idle? && !s.valid && s.page.batch.state != Preceding(s, |s.log|).batch.state
               && Runnable(s, Resume(s)) && !Chained(Run(s, Resume(s)))
  {
    var es := [Enter(1), Invalidate, Answer(Answered(batch.(state := state)))];
    var s1 := Apply(Open(batch), es[0]);
    var s2 := Apply(s1, es[1]);
    var s3 := Apply(s2, es[2]);
    assert es[1..] == [es[1], es[2]] && es[1..][1..] == [es[2]] && es[1..][1..][1..] == [];
    assert Runnable(s3, []) && Run(s3, []) == s3;
    assert Runnable(s2, [es[2]]) && Run(s2, [es[2]]) == s3;
    assert Runnable(s1, es[1..]) && Run(s1, es[1..]) == s3;
    RunChained(Open(batch), es);
    ResumeServes(s3);
    var u := Run(s3, Resume(s3));
    assert u.log[0].used == state && Preceding(u, 0) == Page(1, batch);
  }

  /** A call that is not interleaved with other steps is `Next`. */
  lemma StepsAreNext(s: Session, expected: nat, answer: Answer, kept: bool)
    requires s.phase.Idle? && s.valid
    ensures var s1 := Apply(s, Enter(expected));
            var s2 := if s1.phase.Asking? then Apply(s1, Event.Answer(answer)) else s1;
            var s3 := if s2.phase.Retaining? then Apply(s2, Retain(kept)) else s2;
            var (page, result) := Next(s.page, expected, answer, kept, Looks(true, true, true));
            && s3.phase.Idle? && s3.page == page
            && s3.log == if result.Ok? then s.log + [Served(s.page.batch.state, result.value)] else s.log
  {
  }

  /** The session object. `Next` holds the data lock throughout; what the provider answers and whether the
      session is valid at each look are given. */
  class RadioSession {
    var page: Page

    constructor (batch: Batch)
      ensures page == Page(1, batch)
    {
      page := Page(1, batch);
    }

    method Continue(expected: nat, answer: Answer, kept: bool, valid: Looks) returns (result: Result<Page, Failure>)
      modifies this`page
      ensures (page, result) == Next(old(page), expected, answer, kept, valid)
      ensures result.Ok? <==> page.version != old(page.version)
      ensures result.Ok? ==> page.version == expected + 1 && result.value == page
    {
      if !valid.entry {
        return Err(Gone);
      }
      if page.version != expected {
        return Err(VersionConflict);
      }
      if page.batch.exhausted {
        return Err(Ended);
      }
      if answer.Refused? {
        return Err(Foreign);
      }
      var batch := answer.batch;
      if !valid.answered {
        page := page.(batch := page.batch.(state := batch.state));
        return Err(Gone);
      }
      if !ValidBatch(batch, false) {
        return Err(Malformed);
      }
      if batch.configuration != page.batch.configuration {
        return Err(Changed);
      }
      if !kept {
        return Err(Foreign);
      }
      if !valid.retained {
        page := page.(batch := page.batch.(state := batch.state));
        return Err(Gone);
      }
      page := Page(page.version + 1, batch);
      return Ok(page);
    }
  }
}
