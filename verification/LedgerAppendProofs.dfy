/** What append guarantees, event by event and over every reachable journal. */
module LedgerAppendProofs {
  import opened Common
  import opened LedgerModel
  import opened LedgerContract
  import opened LedgerFixpoint
  import opened LedgerReplay
  import opened LedgerInvariant
  import opened LedgerEffects
  import opened LedgerAppend
  import opened JournalRecord

  lemma {:induction false} CatalogueAccepts(os: seq<Outcome>, catalog: map<Id, string>)
    requires DistinctIds(os) && forall o | o in os :: Passes(o, catalog)
    ensures Catalogue(os, catalog).Ok?
  {
    if os == [] {
    } else {
      assert os[0] in os && Passes(os[0], catalog);
      var catalog' := catalog[os[0].id := os[0].description.value];
      forall o | o in os[1..] ensures Passes(o, catalog') {
        assert Passes(o, catalog) && Passes(os[0], catalog);
        var i :| 0 <= i < |os[1..]| && os[1..][i] == o;
        assert os[0].id != os[i + 1].id;
      }
      CatalogueAccepts(os[1..], catalog');
    }
  }

  lemma {:induction false} AttachKeeps(env: Surroundings, s: State)
    ensures Bare(Attach(env, s)) == Bare(s)
    ensures WellCurrent(s) ==> WellCurrent(Attach(env, s))
    ensures OpenOutcomesKept(s) ==> OpenOutcomesKept(Attach(env, s))
  {
    hide InspectGap, InspectSource, KeptOutcome;
  }

  lemma {:induction false} BareAgain(rs: seq<Entry>, s: State)
    requires Replay(rs) == Ok(s)
    ensures Bare(s) == s
  {
    if rs == [] {
    } else {
      hide Replay;
      var u := ReplayLast(rs, s);
      BareAgain(rs[..|rs| - 1], u);
      StepStaysBare(u, rs[|rs| - 1], s);
    }
  }

  predicate SameFrontiers(s: State, t: State) {
    t.integrity == s.integrity && t.unproven == s.unproven && t.gaps == s.gaps
  }

  lemma {:induction false} ClassifiedStaysBare(s: State, p: Classification, t: State)
    requires WellCurrent(s) && StepClassified(s, p) == Ok(t)
    ensures SameFrontiers(s, t)
  {
    hide ValidateContractEvent, Catalogue, AsMap, Without;
  }

  lemma {:induction false} OtherStaysBare(s: State, id: Id, e: Event, t: State)
    requires WellCurrent(s) && StepEvent(s, id, e) == Ok(t) && !e.SourceClassified?
    ensures SameFrontiers(s, t)
  {
    hide StepClassified, Without, ApplyUpdates, CheckProgress, CheckDisposal, SafeId, Blank, ExpectedEffect, EffectOpen;
  }

  lemma {:induction false} StepStaysBare(s: State, r: Entry, t: State)
    requires WellCurrent(s) && Bare(s) == s && Step(s, r) == Ok(t)
    ensures Bare(t) == t
  {
    var mid := StepEvent(s, r.eventId, r.event).value;
    if r.event.SourceClassified? {
      hide StepClassified;
      ClassifiedStaysBare(s, r.event.classification, mid);
    } else {
      hide StepEvent;
      OtherStaysBare(s, r.eventId, r.event, mid);
    }
  }

  /**
   * Replay can neither reject nor alter a classification that append normalised: folding the written
   * payload succeeds and records exactly that contract.
   */
  lemma {:induction false} NormalisedClassificationReplays(
    env: Surroundings, rs: seq<Entry>, s: State, p: Classification, q: Classification)
    returns (t: State)
    requires UniqueIds(rs) && Replay(rs) == Ok(s)
    requires WellCurrent(Attach(env, s)) && ValidateContractEvent(p, Attach(env, s)) == Ok(q)
    ensures WellCurrent(s) && ValidateContractEvent(q, s) == Ok(q)
    ensures StepClassified(s, q) == Ok(t)
    ensures q.contract.contractId in t.contracts && t.contracts[q.contract.contractId].body == q.contract
    ensures t.contracts[q.contract.contractId].sourceId == p.sourceId
  {
    hide *;
    ReplayKeepsInv(rs);
    InvWork(s);
    AttachKeeps(env, s);
    InvWorkOf(Attach(env, s));
    NormalisationIsAFixpoint(p, q, Attach(env, s));
    BareAgain(rs, s);
    ValidatorValidates(Attach(env, s), p, q);
    ValidatedSource(Attach(env, s), p, q);
    t := FixpointSteps(s, q);
  }

  lemma {:induction false} ValidatedSource(s: State, p: Classification, q: Classification)
    requires Validated(s, p, q)
    ensures q.sourceId == p.sourceId
  {
    hide Passes, ClauseExact, DistinctClauses, DistinctIds;
  }

  lemma {:induction false} AdoptRecords(s: State, q: Classification, catalog: map<Id, string>)
    requires q.disposition.Some?
    ensures var t := Adopt(s, q, q.disposition.value, catalog); var id := q.contract.contractId;
      id in t.contracts && t.contracts[id].body == q.contract && t.contracts[id].sourceId == q.sourceId
  {
    hide AsMap, Without;
  }

  /** A payload that validates to itself is folded into the state as it stands. */
  lemma {:induction false} FixpointSteps(s: State, q: Classification) returns (t: State)
    requires WellCurrent(s) && OpenOutcomesKept(s) && ValidateContractEvent(q, s) == Ok(q)
    ensures StepClassified(s, q) == Ok(t)
    ensures q.contract.contractId in t.contracts && t.contracts[q.contract.contractId].body == q.contract
    ensures t.contracts[q.contract.contractId].sourceId == q.sourceId
  {
    ValidatorValidates(s, q, q);
    hide ValidateContractEvent, Catalogue, AsMap, Without, OpenOutcomesKept, Passes, ClauseExact, DistinctClauses,
      DistinctIds;
    if !q.disposition.value.Withdraw? { CatalogueAccepts(q.contract.outcomes.items, s.catalog); }
    hide Adopt;
    t := StepClassified(s, q).value;
    var catalog := if q.disposition.value.Withdraw?
      then s.catalog else Catalogue(ListOf(q.contract.outcomes), s.catalog).value;
    AdoptRecords(s, q, catalog);
  }

  lemma {:induction false} InvWorkOf(s: State)
    requires WellCurrent(s)
    ensures CurrentContractKnown(s)
  {
  }

  lemma {:induction false} InvWork(s: State)
    requires LedgerInv(s)
    ensures WellCurrent(s) && OpenOutcomesKept(s) && CurrentContractKnown(s)
  {
  }

  // ---------------------------------------------------------------- committed records

  lemma {:induction false} FindEventFinds(rs: seq<Entry>, id: Id)
    ensures FindEvent(rs, id).None? ==> forall i | 0 <= i < |rs| :: rs[i].eventId != id
    ensures FindEvent(rs, id).Some? ==> FindEvent(rs, id).value in rs && FindEvent(rs, id).value.eventId == id
  {
    if rs == [] {
    } else {
      FindEventFinds(rs[1..], id);
      assert forall i | 1 <= i < |rs| :: rs[i] == rs[1..][i - 1];
    }
  }

  /**
   * A commit extends the chain by one record under a fresh id and the expected head, and its state is the
   * replay of the extended journal.
   */
  lemma {:induction false} CommitExtends(
      hash: Entry -> string, env: Surroundings, rs: seq<Entry>, a: Attempt, r: Entry, t: State)
    requires Decide(hash, env, rs, a) == Ok(Commit(r, t))
    ensures r.seqNo == |rs| + 1 && r.prevHash == Head(rs) && r.schema == SCHEMA
    ensures r.eventHash == hash(r.(eventHash := ""))
    ensures r.eventId == a.eventId && r.actorRole == a.actorRole && r.timestamp == a.timestamp
    ensures r.eventId !in EventIds(rs)
    ensures a.expectedHead.Some? ==> Upper(a.expectedHead.value) == r.prevHash
    ensures Replay(rs + [r]).Ok? && t == Attach(env, Replay(rs + [r]).value)
    ensures SourcesAvailable(t, DependentSources(r.event, a.eventId, t))
  {
    FindEventFinds(rs, a.eventId);
    hide Replay, Attach, Normalise, FindEvent, SafeId, Upper, DependentSources;
  }

  /** The journals that successive commits can build. */
  ghost predicate Reachable(hash: Entry -> string, rs: seq<Entry>) {
    rs == [] || (Reachable(hash, rs[..|rs| - 1]) && CommitPossible(hash, rs[..|rs| - 1], rs[|rs| - 1]))
  }

  ghost predicate CommitPossible(hash: Entry -> string, rs: seq<Entry>, r: Entry) {
    exists env, a, t :: Decide(hash, env, rs, a) == Ok(Commit(r, t))
  }

  /** Event ids stay unique, so every reachable journal replays to a state that keeps the whole invariant. */
  lemma {:induction false} ReachableJournalsKeepInv(hash: Entry -> string, rs: seq<Entry>)
    requires Reachable(hash, rs)
    ensures UniqueIds(rs) && Replay(rs).Ok? && LedgerInv(Replay(rs).value)
  {
    hide *;
    if rs == [] {
      NothingReplays();
    } else {
      var front, last := rs[..|rs| - 1], rs[|rs| - 1];
      ReachableLast(hash, rs);
      ReachableJournalsKeepInv(hash, front);
      LastCommitted(hash, front, last);
      assert front + [last] == rs;
      UniqueExtends(front, last);
    }
    ReplayKeepsInv(rs);
  }

  lemma {:induction false} NothingReplays()
    ensures UniqueIds<Event>([]) && Replay([]).Ok?
  {
  }

  lemma {:induction false} ReachableLast(hash: Entry -> string, rs: seq<Entry>)
    requires Reachable(hash, rs) && rs != []
    ensures Reachable(hash, rs[..|rs| - 1]) && CommitPossible(hash, rs[..|rs| - 1], rs[|rs| - 1])
  {
    hide CommitPossible;
  }

  lemma {:induction false} LastCommitted(hash: Entry -> string, rs: seq<Entry>, r: Entry)
    requires CommitPossible(hash, rs, r)
    ensures r.eventId !in EventIds(rs) && Replay(rs + [r]).Ok?
  {
    var env, a, t :| Decide(hash, env, rs, a) == Ok(Commit(r, t));
    hide Replay, Decide;
    CommitExtends(hash, env, rs, a, r, t);
  }

  lemma {:induction false} UniqueExtends<P>(rs: seq<Record<P>>, r: Record<P>)
    requires UniqueIds(rs) && r.eventId !in EventIds(rs)
    ensures UniqueIds(rs + [r])
  {
    forall i | 0 <= i < |rs| ensures rs[i].eventId != r.eventId { assert rs[i].eventId in EventIds(rs); }
  }

  lemma {:induction false} NormalisedClassification(env: Surroundings, s: State, p: Classification, e: Event)
    requires WellCurrent(s) && Normalise(env, s, SourceClassified(p)) == Ok(e)
    ensures e.SourceClassified? && ValidateContractEvent(p, s) == Ok(e.classification)
  {
    hide ValidateContractEvent;
  }

  lemma {:induction false} ReplayOneMore(rs: seq<Entry>, s: State, r: Entry)
    requires Replay(rs) == Ok(s) && r.event.SourceClassified? && WellCurrent(s)
    requires StepClassified(s, r.event.classification).Ok?
    ensures Replay(rs + [r]).Ok?
  {
    assert (rs + [r])[..|rs|] == rs;
    hide StepClassified;
  }

  /** The attempt is committed with the payload `e`, unless the bytes of a source it depends on do not verify. */
  predicate CommittedIfAvailable(hash: Entry -> string, env: Surroundings, rs: seq<Entry>, a: Attempt, e: Event)
    requires Replay(rs + [NewRecord(hash, rs, a, e)]).Ok?
  {
    var r := NewRecord(hash, rs, a, e);
    var t := Attach(env, Replay(rs + [r]).value);
    Decide(hash, env, rs, a) ==
      if SourcesAvailable(t, DependentSources(e, a.eventId, t)) then Ok(Commit(r, t)) else Err(SourceUnavailable)
  }

  /** What `append` does with an attempt under a fresh id and a current head, once normalisation accepts it. */
  lemma {:induction false} DecideFresh(
      hash: Entry -> string, env: Surroundings, rs: seq<Entry>, s: State, a: Attempt, e: Event)
    requires Replay(rs) == Ok(s) && WellCurrent(Attach(env, s)) && SafeId(a.eventId) && FindEvent(rs, a.eventId).None?
    requires a.expectedHead.Some? ==> Upper(a.expectedHead.value) == Head(rs)
    requires Normalise(env, Attach(env, s), a.event) == Ok(e)
    ensures NewRecord(hash, rs, a, e).event == e
    ensures Replay(rs + [NewRecord(hash, rs, a, e)]).Ok? ==> CommittedIfAvailable(hash, env, rs, a, e)
  {
    hide Replay, Attach, Normalise, FindEvent, SafeId, Upper, DependentSources, SourcesAvailable;
  }

  lemma {:induction false} FreshIsNotFound(rs: seq<Entry>, id: Id)
    requires id !in EventIds(rs)
    ensures FindEvent(rs, id).None?
  {
    FindEventFinds(rs, id);
    forall i | 0 <= i < |rs| ensures rs[i].eventId != id { assert rs[i].eventId in EventIds(rs); }
  }

  /**
   * Replay never stands in the way of an accepted classification: under a fresh id and the current head it
   * is committed exactly when the bytes of the sources it then depends on verify.
   */
  lemma {:induction false} AcceptedClassificationCommits(
    hash: Entry -> string, env: Surroundings, rs: seq<Entry>, s: State, a: Attempt, e: Event)
    requires Reachable(hash, rs) && Replay(rs) == Ok(s) && SafeId(a.eventId) && a.eventId !in EventIds(rs)
    requires a.expectedHead.Some? ==> Upper(a.expectedHead.value) == Head(rs)
    requires WellCurrent(Attach(env, s)) && a.event.SourceClassified?
    requires Normalise(env, Attach(env, s), a.event) == Ok(e)
    ensures Replay(rs + [NewRecord(hash, rs, a, e)]).Ok? && CommittedIfAvailable(hash, env, rs, a, e)
  {
    hide *;
    ReachableJournalsKeepInv(hash, rs);
    var p := a.event.classification;
    assert a.event == SourceClassified(p);
    NormalisedClassification(env, Attach(env, s), p, e);
    var t := NormalisedClassificationReplays(env, rs, s, p, e.classification);
    FreshIsNotFound(rs, a.eventId);
    DecideFresh(hash, env, rs, s, a, e);
    ReplayOneMore(rs, s, NewRecord(hash, rs, a, e));
  }

  // ---------------------------------------------------------------- retries of one event

  lemma {:induction false} FindInUnique(rs: seq<Entry>, i: nat)
    requires UniqueIds(rs) && i < |rs|
    ensures FindEvent(rs, rs[i].eventId) == Some(rs[i])
  {
    if i == 0 {
    } else {
      FindInUnique(rs[1..], i - 1);
    }
  }

  /** A source event that is already in is reported again, exactly, as long as its file is intact. */
  lemma {:induction false} SourceRetryIsIdempotent(
      hash: Entry -> string, env: Surroundings, rs: seq<Entry>, i: nat, a: Attempt)
    requires Reachable(hash, rs) && i < |rs| && SafeId(a.eventId)
    requires a.eventId == rs[i].eventId && a.event == rs[i].event && a.actorRole == rs[i].actorRole
    requires a.expectedHead.None? && a.event.SourceCaptured?
    requires a.event.source.ref in env.files && env.files[a.event.source.ref].sha == Upper(a.event.source.sha)
    ensures Decide(hash, env, rs, a) == Ok(Duplicate(rs[i]))
  {
    hide Replay, LedgerInv, FindEvent, UniqueIds;
    ReachableJournalsKeepInv(hash, rs);
    FindInUnique(rs, i);
    AttachKeeps(env, Replay(rs).value);
  }

  lemma {:induction false} ClassifiedStaysConsumed(rs: seq<Entry>, s: State, i: nat)
    requires UniqueIds(rs) && Replay(rs) == Ok(s) && i < |rs| && rs[i].event.SourceClassified?
    ensures rs[i].event.classification.sourceId in ClassifiedSources(s)
    ensures rs[i].event.classification.sourceId in s.sources
  {
    hide Replay, Step, LedgerInv;
    var front, last := rs[..|rs| - 1], rs[|rs| - 1];
    assert front + [last] == rs;
    PrefixUnique(front, [last]);
    var u := ReplayLast(rs, s);
    ReplayKeepsInv(front);
    InvWork(u);
    var p := rs[i].event.classification;
    if i == |rs| - 1 {
      ClassifiedConsumes(u, last, s);
    } else {
      assert front[i] == rs[i];
      ClassifiedStaysConsumed(front, u, i);
      ConsumedPersists(u, last, s, p.sourceId);
    }
  }

  lemma {:induction false} ClassifiedConsumes(s: State, r: Entry, t: State)
    requires WellCurrent(s) && OpenOutcomesKept(s) && Step(s, r) == Ok(t) && r.event.SourceClassified?
    ensures r.event.classification.sourceId in ClassifiedSources(t) && r.event.classification.sourceId in t.sources
  {
    var p := r.event.classification;
    var mid := StepClassified(s, p).value;
    hide StepClassified, Catalogue, AsMap, Without, ValidateContractEvent, OpenOutcomesKept, Passes, ClauseExact,
      DistinctClauses, DistinctIds;
    var q := ClassifiedOpened(s, p, mid);
    assert t.contracts[q.contract.contractId].sourceId == p.sourceId;
  }

  lemma {:induction false} ConsumedPersists(s: State, r: Entry, t: State, id: Id)
    requires WellCurrent(s) && OpenOutcomesKept(s) && Step(s, r) == Ok(t)
    requires id in ClassifiedSources(s) && id in s.sources
    ensures id in ClassifiedSources(t) && id in t.sources
  {
    var k :| k in s.contracts && s.contracts[k].sourceId == id;
    ContractsPersist(s, r, t, k);
    assert t.contracts[k].sourceId == id;
    hide Step;
  }

  lemma {:induction false} AdoptPersists(s: State, p: Classification, t: State, k: Id)
    requires WellCurrent(s) && OpenOutcomesKept(s) && StepClassified(s, p) == Ok(t) && k in s.contracts
    ensures k in t.contracts && t.contracts[k] == s.contracts[k] && s.sources == t.sources
  {
    hide StepClassified, Catalogue, AsMap, Without, ValidateContractEvent, OpenOutcomesKept, Passes, ClauseExact,
      DistinctClauses, DistinctIds;
    var q := ClassifiedOpened(s, p, t);
  }

  lemma {:induction false} OtherPersists(s: State, id: Id, e: Event, t: State)
    requires WellCurrent(s) && StepEvent(s, id, e) == Ok(t) && !e.SourceClassified?
    ensures t.contracts == s.contracts && s.sources.Keys <= t.sources.Keys
  {
    hide StepClassified, Without, ApplyUpdates, CheckProgress, CheckDisposal, SafeId, Blank, ExpectedEffect, EffectOpen;
  }

  lemma {:induction false} ContractsPersist(s: State, r: Entry, t: State, k: Id)
    requires WellCurrent(s) && OpenOutcomesKept(s) && Step(s, r) == Ok(t) && k in s.contracts
    ensures k in t.contracts && t.contracts[k] == s.contracts[k] && s.sources.Keys <= t.sources.Keys
  {
    var mid := StepEvent(s, r.eventId, r.event).value;
    if r.event.SourceClassified? {
      hide StepClassified, OpenOutcomesKept;
      AdoptPersists(s, r.event.classification, mid, k);
    } else {
      hide StepEvent, OpenOutcomesKept;
      OtherPersists(s, r.eventId, r.event, mid);
    }
  }

  /**
   * Retrying a classification is refused, not reported as a duplicate: its source is consumed, and
   * normalisation runs before the search for the event id.
   */
  lemma {:induction false} ClassificationRetryIsRefused(
    hash: Entry -> string, env: Surroundings, rs: seq<Entry>, i: nat, a: Attempt)
    requires Reachable(hash, rs) && i < |rs| && rs[i].event.SourceClassified?
    requires a.event.SourceClassified? && a.event.classification.sourceId == rs[i].event.classification.sourceId
    ensures Decide(hash, env, rs, a).Err?
  {
    hide Replay, LedgerInv, FindEvent, UniqueIds, ValidateContractEvent;
    ReachableJournalsKeepInv(hash, rs);
    var s := Replay(rs).value;
    ClassifiedStaysConsumed(rs, s, i);
    var p := a.event.classification;
    InvSources(s);
    assert p.sourceId !in s.unclassified by { assert p.sourceId !in Elements(s.unclassified); }
    AttachKeeps(env, s);
    ConsumedRejected(p, Attach(env, s));
  }

  lemma {:induction false} InvSources(s: State)
    requires LedgerInv(s)
    ensures SourcesConserved(s) && WellCurrent(s)
  {
  }

  lemma {:induction false} ConsumedRejected(p: Classification, s: State)
    requires WellCurrent(s) && p.sourceId !in s.unclassified
    ensures ValidateContractEvent(p, s).Err?
  {
    assert CheckClassifiedSource(p, s).Err?;
    hide ValidateClauseRefs, ValidateOutcomes, SettleOutcomes, CheckLineage, CheckObjective, Inherit,
      CheckClassifiedSource;
  }

  // ---------------------------------------------------------------- holding new work

  lemma {:induction false} DecideOpened(
      hash: Entry -> string, env: Surroundings, rs: seq<Entry>, a: Attempt, r: Entry, t: State)
    returns (s: State, u: State)
    requires Decide(hash, env, rs, a) == Ok(Commit(r, t))
    ensures Replay(rs) == Ok(s) && WellCurrent(s) && WellCurrent(Attach(env, s))
    ensures Normalise(env, Attach(env, s), a.event) == Ok(r.event)
    ensures Step(s, r) == Ok(u) && t == Attach(env, u)
  {
    s := Replay(rs).value;
    u := Replay(rs + [r]).value;
    assert (rs + [r])[..|rs|] == rs;
    hide Attach, Normalise, FindEvent, SafeId, Upper, DependentSources, Step;
    AttachKeeps(env, s);
  }

  lemma {:induction false} StartChecked(s: State, a: ActionStart, e: Event)
    requires WellCurrent(s) && NormaliseStart(s, a) == Ok(e)
    ensures Recorded(ActionStarted(a)) == Ok(e) && e.ActionStarted? && e.start.outcomeIds == a.outcomeIds
    ensures s.current.Some? && !ReconciliationPending(s) && Elements(a.outcomeIds) <= s.open.Keys
  {
    hide RecordMethod, SafeId, Blank, ClauseIds, ReconciliationPending;
  }

  /** An action can only be recorded once every source is reconciled and every named outcome is open. */
  lemma {:induction false} StartNeedsReconciliation(
    hash: Entry -> string, env: Surroundings, rs: seq<Entry>, a: Attempt, r: Entry, t: State)
    requires Decide(hash, env, rs, a) == Ok(Commit(r, t)) && a.event.ActionStarted?
    ensures t.unclassified == [] && UnresolvedGaps(t) == {} && CurrentContractSources(t) * t.unproven == {}
    ensures t.current.Some? && Recorded(a.event) == Ok(r.event) && r.event.ActionStarted?
    ensures Elements(a.event.start.outcomeIds) <= t.open.Keys
    ensures r.event.start.actionId in t.actions && t.actions[r.event.start.actionId].status.Pending?
  {
    hide Replay, Decide, Step, Attach, UnresolvedGaps, CurrentContractSources, NormaliseStart, Recorded;
    var s, u := DecideOpened(hash, env, rs, a, r, t);
    StartChecked(Attach(env, s), a.event.start, r.event);
    StartedState(env, s, r, u);
  }

  lemma {:induction false} StartedState(env: Surroundings, s: State, r: Entry, u: State)
    requires WellCurrent(s) && r.event.ActionStarted? && Step(s, r) == Ok(u)
    ensures var t, a := Attach(env, u), Attach(env, s);
      && t.unclassified == a.unclassified && t.current == a.current && t.open == a.open && t.unproven == a.unproven
      && CurrentContractSources(t) == CurrentContractSources(a) && UnresolvedGaps(t) == UnresolvedGaps(a)
      && r.event.start.actionId in t.actions && t.actions[r.event.start.actionId].status.Pending?
  {
    hide SafeId, ClauseIds, InspectSource;
  }

  /**
   * A mutating call is let through only when every dependency it names that is a recorded action is
   * settled, and those dependencies then stay settled in every later state.
   */
  lemma {:induction false} PreflightIsSafe(
    env: Surroundings, rs: seq<Entry>, more: seq<Entry>, s: State, t: State, dependencies: set<Id>, id: Id)
    requires UniqueIds(rs + more) && Replay(rs) == Ok(s) && Replay(rs + more) == Ok(t)
    requires PreflightDecision(ReadState(env, rs), Mutating, dependencies) == Allow
    requires id in dependencies && id in s.actions
    ensures Settled(s, id) && Settled(t, id)
    ensures s.unclassified == []
  {
    var a := Attach(env, s);
    assert UnknownEffects(a) == UnknownEffects(s) by { SameFrontier(s, a); }
    assert id !in dependencies * UnknownEffects(a);
    hide Replay, Attach, UnknownEffects;
    SettledForGood(rs, more, s, t, id);
  }

  /** Conversely, a mutating call whose sources are reconciled is held only for an unsettled dependency. */
  lemma {:induction false} PreflightHoldsExactly(env: Surroundings, rs: seq<Entry>, s: State, dependencies: set<Id>)
    requires Replay(rs) == Ok(s) && s.unclassified == []
    requires UnresolvedGaps(Attach(env, s)) == {} && CurrentContractSources(s) * Attach(env, s).unproven == {}
    ensures PreflightDecision(ReadState(env, rs), Mutating, dependencies) == Allow
       <==> forall id | id in dependencies && id in s.actions :: Settled(s, id)
  {
    var a := Attach(env, s);
    assert UnknownEffects(a) == UnknownEffects(s) by { SameFrontier(s, a); }
    assert CurrentContractSources(a) == CurrentContractSources(s);
    hide Replay, Attach, CurrentContractSources, UnresolvedGaps, EffectUnsettled;
    var blocked := dependencies * UnknownEffects(a);
    if blocked == {} {
      forall id | id in dependencies && id in s.actions ensures Settled(s, id) { assert id !in blocked; }
    } else {
      var id :| id in blocked;
      assert id in s.actions && !Settled(s, id);
    }
  }
}
