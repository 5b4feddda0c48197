/** Actions, their effects and the vocabulary of outcomes, over whole runs of the journal. */
module LedgerEffects {
  import opened Common
  import opened LedgerModel
  import opened LedgerContract
  import opened LedgerFixpoint
  import opened LedgerReplay
  import opened LedgerInvariant
  import opened JournalRecord

  // ---------------------------------------------------------------- outcome vocabulary

  /** No outcome id is forgotten and none changes its description. */
  ghost predicate VocabularyGrows(s: State, t: State) {
    s.catalog.Keys <= t.catalog.Keys && forall id | id in s.catalog :: t.catalog[id] == s.catalog[id]
  }

  lemma {:induction false} AdoptedVocabulary(s: State, p: Classification, t: State)
    requires CurrentWork(s) && StepClassified(s, p) == Ok(t)
    ensures VocabularyGrows(s, t)
  {
    hide StepClassified, Catalogue, AsMap, Without, ValidateContractEvent, Validated, OpenOutcomesKept;
    var q := ClassifiedOpened(s, p, t);
    if !q.disposition.value.Withdraw? { Catalogued(ListOf(q.contract.outcomes), s.catalog); }
  }

  lemma {:induction false} OtherVocabulary(s: State, id: Id, e: Event, t: State)
    requires WellCurrent(s) && StepEvent(s, id, e) == Ok(t) && !e.SourceClassified?
    ensures t.catalog == s.catalog
  {
    hide StepClassified, ApplyUpdates, CheckProgress, CheckDisposal, SafeId, Blank, ExpectedEffect, EffectOpen;
  }

  lemma {:induction false} StepVocabulary(s: State, r: Entry, t: State)
    requires CurrentWork(s) && Step(s, r) == Ok(t)
    ensures VocabularyGrows(s, t)
  {
    var mid := StepEvent(s, r.eventId, r.event).value;
    if r.event.SourceClassified? {
      hide StepClassified, OpenOutcomesKept;
      AdoptedVocabulary(s, r.event.classification, mid);
    } else {
      hide StepEvent, OpenOutcomesKept;
      OtherVocabulary(s, r.eventId, r.event, mid);
    }
  }

  /**
   * An outcome id has one description for the whole journal, even across withdrawal and replacement,
   * and whatever is open at any two moments under the same id describes the same outcome.
   */
  lemma {:induction false} DescriptionsNeverChange(rs: seq<Entry>, more: seq<Entry>, s: State, t: State)
    requires UniqueIds(rs + more) && Replay(rs) == Ok(s) && Replay(rs + more) == Ok(t)
    ensures VocabularyGrows(s, t)
    ensures forall id | id in s.open && id in t.open :: s.open[id].description == t.open[id].description
  {
    hide Step, Replay;
    PrefixUnique(rs, more);
    ReplayKeepsInv(rs);
    ReplayKeepsInv(rs + more);
    if more == [] {
      assert rs + more == rs;
    } else {
      var front, last := more[..|more| - 1], more[|more| - 1];
      assert (rs + more)[..|rs + more| - 1] == rs + front;
      assert rs + front + [last] == rs + more;
      var u := ReplayLast(rs + more, t);
      PrefixUnique(rs + front, [last]);
      DescriptionsNeverChange(rs, front, s, u);
      ReplayKeepsInv(rs + front);
      StepVocabulary(u, last, t);
    }
    forall id | id in s.open && id in t.open ensures s.open[id].description == t.open[id].description {
      assert KeptOutcome(s.open[id], id, s.catalog) && KeptOutcome(t.open[id], id, t.catalog);
    }
  }

  lemma {:induction false} PrefixUnique<P>(rs: seq<Record<P>>, more: seq<Record<P>>)
    requires UniqueIds(rs + more)
    ensures UniqueIds(rs)
  {
    assert forall i | 0 <= i < |rs| :: rs[i] == (rs + more)[i];
  }

  // ---------------------------------------------------------------- the unknown-effect frontier

  /** A recorded action that has left the frontier. */
  predicate Settled(s: State, id: Id) {
    id in s.actions && id !in UnknownEffects(s)
  }

  /** The record reports a confirmed outcome, or a terminal reconciliation, of this action. */
  predicate Settles(e: Event, id: Id) {
    || (e.ActionFinished? && e.result.actionId == id && e.result.effect.Some? && !e.result.effect.value.EffectUnknown?)
    || (e.ActionReconciled? && e.reconciliation.actionId == id && e.reconciliation.resolution.Terminal())
  }

  predicate OfActions(e: Event) {
    e.ActionStarted? || e.ActionFinished? || e.ActionReconciled? || e.MethodSupplemented?
  }

  lemma {:induction false} OtherEventsLeaveActions(s: State, id: Id, e: Event, t: State)
    requires WellCurrent(s) && StepEvent(s, id, e) == Ok(t) && !OfActions(e)
    ensures t.actions == s.actions && t.reconciliations == s.reconciliations
  {
    hide ValidateContractEvent, Catalogue, AsMap, Without, ApplyUpdates, CheckProgress, CheckDisposal, SafeId, Blank;
  }

  /** What an event about actions does to the frontier, for one recorded action. */
  predicate FrontierMoves(s: State, e: Event, t: State, id: Id) {
    && id in s.actions && id in t.actions
    && (Settled(s, id) ==> Settled(t, id))
    && (!Settled(s, id) ==> (Settled(t, id) <==> Settles(e, id)))
  }

  lemma {:induction false} StartMoves(s: State, eventId: Id, a: ActionStart, t: State, id: Id)
    requires WellCurrent(s) && id in s.actions && StepStarted(s, eventId, a) == Ok(t)
    ensures FrontierMoves(s, ActionStarted(a), t, id)
  {
    hide SafeId, ClauseIds;
  }

  lemma {:induction false} FinishMoves(s: State, eventId: Id, r: ActionResult, t: State, id: Id)
    requires EffectsRecorded(s) && id in s.actions && StepFinished(s, eventId, r) == Ok(t)
    ensures FrontierMoves(s, ActionFinished(r), t, id)
  {
    hide SafeId, Linked;
  }

  lemma {:induction false} ReconciliationMoves(s: State, eventId: Id, r: Reconciliation, t: State, id: Id)
    requires EffectsRecorded(s) && id in s.actions && StepReconciled(s, eventId, r) == Ok(t)
    ensures FrontierMoves(s, ActionReconciled(r), t, id)
  {
    hide SafeId, Linked;
    assert ReconciliationsOf(t, r.actionId) == ReconciliationsOf(s, r.actionId) + [RecordedReconciliation(eventId, r)];
  }

  lemma {:induction false} SupplementMoves(s: State, eventId: Id, m: Supplement, t: State, id: Id)
    requires id in s.actions && StepSupplemented(s, eventId, m) == Ok(t)
    ensures FrontierMoves(s, MethodSupplemented(m), t, id)
  {
    hide SafeId;
  }

  lemma {:induction false} EventMoves(s: State, eventId: Id, e: Event, t: State, id: Id)
    requires EffectsRecorded(s) && WellCurrent(s) && StepEvent(s, eventId, e) == Ok(t) && id in s.actions
    ensures FrontierMoves(s, e, t, id)
  {
    hide StepStarted, StepFinished, StepReconciled, StepSupplemented, EffectsRecorded, EffectUnsettled;
    if OfActions(e) {
      hide FrontierMoves, StepClassified, StepDisposed, StepProgress, StepCaptured, StepGapResolved;
      match e
      case ActionStarted(a) => StartMoves(s, eventId, a, t, id);
      case ActionFinished(q) => FinishMoves(s, eventId, q, t, id);
      case ActionReconciled(q) => ReconciliationMoves(s, eventId, q, t, id);
      case MethodSupplemented(m) => SupplementMoves(s, eventId, m, t, id);
    } else {
      hide StepEvent;
      OtherEventsLeaveActions(s, eventId, e, t);
      SameFrontier(s, t);
    }
  }

  lemma {:induction false} SameFrontier(s: State, t: State)
    requires t.actions == s.actions && t.reconciliations == s.reconciliations
    ensures UnknownEffects(t) == UnknownEffects(s)
  {
  }

  /**
   * One record moves an action off the frontier exactly when it settles that action, and never back on.
   */
  lemma {:induction false} FrontierStep(s: State, r: Entry, t: State, id: Id)
    requires EffectsRecorded(s) && WellCurrent(s) && Step(s, r) == Ok(t) && id in s.actions
    ensures FrontierMoves(s, r.event, t, id)
  {
    var mid := StepEvent(s, r.eventId, r.event).value;
    hide StepEvent, EffectsRecorded, EffectUnsettled;
    EventMoves(s, r.eventId, r.event, mid, id);
    SameFrontier(mid, t);
  }

  lemma {:induction false} InvEffects(s: State)
    requires LedgerInv(s)
    ensures EffectsRecorded(s) && WellCurrent(s)
  {
  }

  /** Once settled, an action stays settled in every later state. */
  lemma {:induction false} SettledForGood(rs: seq<Entry>, more: seq<Entry>, s: State, t: State, id: Id)
    requires UniqueIds(rs + more) && Replay(rs) == Ok(s) && Replay(rs + more) == Ok(t)
    requires id in s.actions
    ensures id in t.actions
    ensures Settled(s, id) ==> Settled(t, id)
    ensures !Settled(s, id) && Settled(t, id) ==> exists r :: r in more && Settles(r.event, id)
  {
    hide Step, Replay, LedgerInv, Settled, Settles;
    if more == [] {
      assert rs + more == rs;
    } else {
      var front, last := more[..|more| - 1], more[|more| - 1];
      assert (rs + more)[..|rs + more| - 1] == rs + front;
      assert rs + front + [last] == rs + more;
      var u := ReplayLast(rs + more, t);
      PrefixUnique(rs + front, [last]);
      SettledForGood(rs, front, s, u, id);
      ReplayKeepsInv(rs + front);
      InvEffects(u);
      FrontierStep(u, last, t, id);
      assert FrontierMoves(u, last.event, t, id);
      assert last in more;
      if r :| r in front && Settles(r.event, id) { assert r in more; }
    }
  }

  // ---------------------------------------------------------------- retries

  /** The record that starts this action. */
  predicate Starts(r: Entry, id: Id) {
    r.event.ActionStarted? && r.event.start.actionId == id
  }

  /** Exactly one record starts each action, and its event is the one the state names. */
  lemma {:induction false} ActionsStartOnce(rs: seq<Entry>, s: State, id: Id) returns (at: nat)
    requires Replay(rs) == Ok(s) && id in s.actions
    ensures at < |rs| && Starts(rs[at], id)
    ensures s.actions[id].start == rs[at].event.start && s.actions[id].eventId == rs[at].eventId
    ensures forall i | 0 <= i < |rs| && Starts(rs[i], id) :: i == at
  {
    hide Step, Replay;
    if rs == [] {
      ReplayEmpty(s);
    } else {
      var front, last := rs[..|rs| - 1], rs[|rs| - 1];
      var u := ReplayLast(rs, s);
      ActionsStep(u, last, s, id);
      if id in u.actions {
        at := ActionsStartOnce(front, u, id);
        assert rs[at] == front[at];
        forall i | 0 <= i < |rs| && Starts(rs[i], id) ensures i == at {
          if i < |front| { assert rs[i] == front[i]; }
        }
      } else {
        at := |front|;
        forall i | 0 <= i < |front| ensures !Starts(rs[i], id) {
          NotStartedBefore(front, u, id, i);
          assert rs[i] == front[i];
        }
      }
    }
  }

  lemma {:induction false} ReplayEmpty(s: State)
    requires Replay([]) == Ok(s)
    ensures s == EmptyState()
  {
  }

  /** How one event treats the action `id`: kept as started, newly started, or still unknown. */
  predicate StartsTracked(s: State, eventId: Id, e: Event, t: State, id: Id) {
    if id in s.actions then
      && id in t.actions && t.actions[id].start == s.actions[id].start && t.actions[id].eventId == s.actions[id].eventId
      && !(e.ActionStarted? && e.start.actionId == id)
    else if e.ActionStarted? && e.start.actionId == id then
      && id in t.actions && t.actions[id].start == e.start && t.actions[id].eventId == eventId
      && (e.start.retryOf.Some? ==> RetryReady(s, e.start.retryOf.value))
    else id !in t.actions
  }

  predicate RetryReady(s: State, id: Id) {
    id in s.actions && !s.actions[id].status.Pending?
  }

  lemma {:induction false} EventTracksStarts(s: State, eventId: Id, e: Event, t: State, id: Id)
    requires WellCurrent(s) && StepEvent(s, eventId, e) == Ok(t)
    ensures StartsTracked(s, eventId, e, t, id)
  {
    if OfActions(e) {
      hide SafeId, Blank, StepClassified, StepDisposed, StepProgress, ClauseIds, ExpectedEffect, StepCaptured,
        StepGapResolved;
    } else {
      hide StepEvent;
      OtherEventsLeaveActions(s, eventId, e, t);
    }
  }

  lemma {:induction false} ActionsStep(s: State, r: Entry, t: State, id: Id)
    requires WellCurrent(s) && Step(s, r) == Ok(t)
    ensures StartsTracked(s, r.eventId, r.event, t, id)
  {
    hide StepEvent;
    EventTracksStarts(s, r.eventId, r.event, StepEvent(s, r.eventId, r.event).value, id);
  }

  lemma {:induction false} NotStartedBefore(rs: seq<Entry>, s: State, id: Id, i: nat)
    requires Replay(rs) == Ok(s) && id !in s.actions && i < |rs|
    ensures !Starts(rs[i], id)
  {
    hide Step, Replay;
    var u := ReplayLast(rs, s);
    ActionsStep(u, rs[|rs| - 1], s, id);
    if i == |rs| - 1 {
    } else {
      NotStartedBefore(rs[..|rs| - 1], u, id, i);
      assert rs[..|rs| - 1][i] == rs[i];
    }
  }

  // ---------------------------------------------------------------- the frontier is exact

  /** The record that reports how this action ended. */
  predicate Finishes(r: Entry, id: Id) {
    r.event.ActionFinished? && r.event.result.actionId == id
  }

  lemma {:induction false} StartLeavesPending(s: State, eventId: Id, a: ActionStart, t: State)
    requires WellCurrent(s) && StepStarted(s, eventId, a) == Ok(t)
    ensures a.actionId in t.actions && t.actions[a.actionId].status.Pending? && t.reconciliations == s.reconciliations
  {
    hide SafeId, ClauseIds;
  }

  lemma {:induction false} PendingIsUnsettled(s: State, id: Id)
    requires id in s.actions && s.actions[id].status.Pending? && id !in s.reconciliations
    ensures !Settled(s, id)
  {
  }

  lemma {:induction false} NothingReconciled(s: State, id: Id)
    requires EffectsRecorded(s) && id !in s.actions
    ensures id !in s.reconciliations
  {
    hide Linked, ExpectedEffect;
  }

  lemma {:induction false} NewActionIsUnsettled(s: State, r: Entry, t: State, id: Id)
    requires EffectsRecorded(s) && WellCurrent(s) && Step(s, r) == Ok(t) && id !in s.actions && id in t.actions
    ensures !Settled(t, id) && !Settles(r.event, id)
  {
    ActionsStep(s, r, t, id);
    assert r.event.ActionStarted? && r.event.start.actionId == id;
    var mid := StepEvent(s, r.eventId, r.event).value;
    hide StepStarted, EffectsRecorded, EffectUnsettled, UnknownEffects, Settled;
    StartLeavesPending(s, r.eventId, r.event.start, mid);
    NothingReconciled(s, id);
    PendingIsUnsettled(t, id);
  }

  /** What settles an action is a record about an action that has been started. */
  lemma {:induction false} SettlingNeedsAction(s: State, r: Entry, t: State, id: Id)
    requires WellCurrent(s) && Step(s, r) == Ok(t) && Settles(r.event, id)
    ensures id in s.actions
  {
    hide SafeId;
  }

  /**
   * The frontier is exact: in every reachable state an action is off it if and only if some record has
   * settled that action, by a confirmed outcome or a terminal reconciliation.
   */
  lemma {:induction false} FrontierIsExact(rs: seq<Entry>, s: State, id: Id)
    requires UniqueIds(rs) && Replay(rs) == Ok(s) && id in s.actions
    ensures Settled(s, id) <==> exists i :: 0 <= i < |rs| && Settles(rs[i].event, id)
  {
    hide Step, Replay, LedgerInv, Settled, Settles, EffectsRecorded;
    if rs == [] {
      ReplayEmpty(s);
      assert false;
    } else {
      var front, last := rs[..|rs| - 1], rs[|rs| - 1];
      assert front + [last] == rs;
      PrefixUnique(front, [last]);
      var u := ReplayLast(rs, s);
      ReplayKeepsInv(front);
      InvEffects(u);
      assert forall i | 0 <= i < |front| :: front[i] == rs[i];
      if id in u.actions {
        FrontierIsExact(front, u, id);
        FrontierStep(u, last, s, id);
        assert FrontierMoves(u, last.event, s, id);
        assert rs[|rs| - 1] == last;
      } else {
        NewActionIsUnsettled(u, last, s, id);
        forall i | 0 <= i < |front| ensures !Settles(front[i].event, id) { NeverSettled(front, u, id, i); }
      }
    }
  }

  lemma {:induction false} NeverSettled(rs: seq<Entry>, s: State, id: Id, i: nat)
    requires Replay(rs) == Ok(s) && id !in s.actions && i < |rs|
    ensures !Settles(rs[i].event, id)
  {
    hide Step, Replay, Settles;
    var u := ReplayLast(rs, s);
    ActionsStep(u, rs[|rs| - 1], s, id);
    if i < |rs| - 1 {
      NeverSettled(rs[..|rs| - 1], u, id, i);
      assert rs[..|rs| - 1][i] == rs[i];
    } else if Settles(rs[i].event, id) {
      SettlingNeedsAction(u, rs[i], s, id);
    }
  }

  // ---------------------------------------------------------------- retries are resolved before

  /** Only a finishing event takes an action out of the pending status. */
  predicate ResolvesOnly(s: State, e: Event, t: State, id: Id) {
    id in t.actions && !t.actions[id].status.Pending? ==>
      id in s.actions && (!s.actions[id].status.Pending? || (e.ActionFinished? && e.result.actionId == id))
  }

  lemma {:induction false} FinishResolves(s: State, eventId: Id, r: ActionResult, t: State, id: Id)
    requires StepFinished(s, eventId, r) == Ok(t)
    ensures ResolvesOnly(s, ActionFinished(r), t, id)
  {
    hide SafeId, ExpectedEffect;
  }

  lemma {:induction false} StartResolves(s: State, eventId: Id, a: ActionStart, t: State, id: Id)
    requires WellCurrent(s) && StepStarted(s, eventId, a) == Ok(t)
    ensures ResolvesOnly(s, ActionStarted(a), t, id)
  {
    hide SafeId, ClauseIds;
  }

  lemma {:induction false} ReconciliationResolves(s: State, eventId: Id, r: Reconciliation, t: State, id: Id)
    requires StepReconciled(s, eventId, r) == Ok(t)
    ensures ResolvesOnly(s, ActionReconciled(r), t, id)
  {
    hide SafeId, EffectOpen;
  }

  lemma {:induction false} SupplementResolves(s: State, eventId: Id, m: Supplement, t: State, id: Id)
    requires StepSupplemented(s, eventId, m) == Ok(t)
    ensures ResolvesOnly(s, MethodSupplemented(m), t, id)
  {
    hide SafeId;
  }

  lemma {:induction false} EventResolves(s: State, eventId: Id, e: Event, t: State, id: Id)
    requires WellCurrent(s) && StepEvent(s, eventId, e) == Ok(t)
    ensures ResolvesOnly(s, e, t, id)
  {
    hide StepStarted, StepFinished, StepReconciled, StepSupplemented;
    if OfActions(e) {
      hide ResolvesOnly, StepClassified, StepDisposed, StepProgress, StepCaptured, StepGapResolved;
      match e
      case ActionStarted(a) => StartResolves(s, eventId, a, t, id);
      case ActionFinished(q) => FinishResolves(s, eventId, q, t, id);
      case ActionReconciled(q) => ReconciliationResolves(s, eventId, q, t, id);
      case MethodSupplemented(m) => SupplementResolves(s, eventId, m, t, id);
    } else {
      hide StepEvent;
      OtherEventsLeaveActions(s, eventId, e, t);
    }
  }

  lemma {:induction false} OnlyFinishingResolves(s: State, r: Entry, t: State, id: Id)
    requires WellCurrent(s) && Step(s, r) == Ok(t) && id in t.actions && !t.actions[id].status.Pending?
    ensures id in s.actions && (!s.actions[id].status.Pending? || Finishes(r, id))
  {
    hide StepEvent;
    EventResolves(s, r.eventId, r.event, StepEvent(s, r.eventId, r.event).value, id);
  }

  /** An action that is no longer pending was started by one record and finished by a later one. */
  lemma {:induction false} ResolvedWasFinished(rs: seq<Entry>, s: State, id: Id) returns (before: nat, at: nat)
    requires Replay(rs) == Ok(s) && id in s.actions && !s.actions[id].status.Pending?
    ensures before < at < |rs| && Starts(rs[before], id) && Finishes(rs[at], id)
  {
    hide Step, Replay;
    if rs == [] {
      ReplayEmpty(s);
      assert false;
    } else {
      var front, last := rs[..|rs| - 1], rs[|rs| - 1];
      var u := ReplayLast(rs, s);
      OnlyFinishingResolves(u, last, s, id);
      if !u.actions[id].status.Pending? {
        before, at := ResolvedWasFinished(front, u, id);
        assert rs[at] == front[at] && rs[before] == front[before];
      } else {
        before := ActionsStartOnce(front, u, id);
        at := |front|;
        assert rs[before] == front[before];
      }
    }
  }

  /** A retry names an action started, and then finished, before it: retries form an acyclic forest. */
  lemma {:induction false} RetriesFormAForest(rs: seq<Entry>, s: State, id: Id)
    returns (at: nat, before: nat, finished: nat)
    requires Replay(rs) == Ok(s) && id in s.actions && s.actions[id].start.retryOf.Some?
    ensures before < finished < at < |rs|
    ensures Starts(rs[at], id) && Starts(rs[before], s.actions[id].start.retryOf.value)
    ensures Finishes(rs[finished], s.actions[id].start.retryOf.value)
    ensures s.actions[id].start.retryOf.value in s.actions
  {
    hide Step, Replay;
    if rs == [] {
      ReplayEmpty(s);
      assert false;
    } else {
      var front, last := rs[..|rs| - 1], rs[|rs| - 1];
      var u := ReplayLast(rs, s);
      ActionsStep(u, last, s, id);
      if id in u.actions {
        at, before, finished := RetriesFormAForest(front, u, id);
        assert rs[at] == front[at] && rs[before] == front[before] && rs[finished] == front[finished];
      } else {
        at := |front|;
        before, finished := ResolvedWasFinished(front, u, last.event.start.retryOf.value);
        assert rs[before] == front[before] && rs[finished] == front[finished];
      }
      ActionsStep(u, last, s, s.actions[id].start.retryOf.value);
    }
  }
}
