/** What every replayable journal with unique event ids keeps true of the state. */
module LedgerInvariant {
  import opened Common
  import opened LedgerModel
  import opened LedgerContract
  import opened LedgerFixpoint
  import opened LedgerReplay
  import opened JournalRecord

  function ClassifiedSources(s: State): set<Id> {
    set k | k in s.contracts :: s.contracts[k].sourceId
  }

  /** Every captured source is pending, disposed or the source of exactly one contract, never two of these. */
  ghost predicate SourcesConserved(s: State) {
    && Distinct(s.unclassified)
    && s.sources.Keys == Elements(s.unclassified) + s.disposed.Keys + ClassifiedSources(s)
    && Elements(s.unclassified) !! s.disposed.Keys
    && Elements(s.unclassified) !! ClassifiedSources(s)
    && s.disposed.Keys !! ClassifiedSources(s)
    && (forall k, k' | k in s.contracts && k' in s.contracts && s.contracts[k].sourceId == s.contracts[k'].sourceId ::
      k == k')
  }

  predicate ClauseExact(c: Clause, sources: map<Id, Source>) {
    c.sourceId in sources && c.sourceRef == sources[c.sourceId].ref && c.sourceSha == sources[c.sourceId].sha
  }

  predicate DistinctClauses(cs: seq<Clause>) {
    forall i, j :: 0 <= i < j < |cs| ==> cs[i].id != cs[j].id
  }

  /** Every clause of every contract ever recorded still binds its source's reference and hash. */
  ghost predicate ClausesExact(s: State) {
    forall k | k in s.contracts ::
      && s.contracts[k].body.contractId == k && DistinctClauses(ClausesOf(s.contracts[k]))
      && forall c | c in ClausesOf(s.contracts[k]) :: ClauseExact(c, s.sources)
  }

  /** Outcomes and advice belong to the current contract. */
  ghost predicate CurrentWork(s: State) {
    && WellCurrent(s)
    && OpenOutcomesKept(s)
    && (s.current.None? ==> s.open == map[])
    && (s.latestProgress.Some? ==> s.current == Some(s.latestProgress.value.contractId))
  }

  /** A chain of reconciliations: each links its predecessor, and only the last may settle the effect. */
  predicate Linked(rec: seq<RecordedReconciliation>) {
    && (rec != [] ==> rec[0].body.priorEvent == None)
    && (forall i | 1 <= i < |rec| :: rec[i].body.priorEvent == Some(rec[i - 1].eventId))
    && (forall i | 0 <= i < |rec| - 1 :: rec[i].body.resolution == RemainsUnknown)
    && (forall i | 0 <= i < |rec| :: !rec[i].body.resolution.OtherResolution?)
  }

  ghost predicate EffectsRecorded(s: State) {
    && (forall id | id in s.actions ::
          !s.actions[id].status.Pending? ==> ExpectedEffect(s.actions[id].status, s.actions[id].effect))
    && (forall id | id in s.reconciliations ::
          id in s.actions && EffectOpen(s.actions[id]) && s.reconciliations[id] != [] && Linked(s.reconciliations[id]))
  }

  ghost predicate LedgerInv(s: State) {
    SourcesConserved(s) && ClausesExact(s) && CurrentWork(s) && EffectsRecorded(s)
  }

  // ---------------------------------------------------------------- sources

  lemma {:induction false} WithoutElements(ids: seq<Id>, id: Id)
    requires Distinct(ids)
    ensures Distinct(Without(ids, id)) && Elements(Without(ids, id)) == Elements(ids) - {id}
    ensures forall x | x in Without(ids, id) :: x in ids
  {
    if ids == [] {
    } else {
      WithoutElements(ids[1..], id);
      assert ids == [ids[0]] + ids[1..];
      if ids[0] != id {
        var r := Without(ids[1..], id);
        assert Elements([ids[0]] + r) == {ids[0]} + Elements(r);
        assert forall x | x in r :: x in ids[1..];
      }
      assert Elements(ids) == {ids[0]} + Elements(ids[1..]);
      assert forall x | x in Elements(ids[1..]) :: x in ids[1..];
    }
  }

  lemma {:induction false} CapturedConserves(s: State, id: Id, source: Source)
    requires SourcesConserved(s) && id !in s.sources
    ensures SourcesConserved(StepCaptured(s, id, source).value)
  {
    var t := StepCaptured(s, id, source).value;
    assert id !in Elements(s.unclassified);
    assert id !in s.unclassified;
    assert Elements(t.unclassified) == Elements(s.unclassified) + {id};
    assert ClassifiedSources(t) == ClassifiedSources(s);
  }

  lemma {:induction false} DisposedConserves(s: State, d: Disposal)
    requires SourcesConserved(s) && WellCurrent(s) && StepDisposed(s, d).Ok?
    ensures SourcesConserved(StepDisposed(s, d).value)
  {
    var t := StepDisposed(s, d).value;
    WithoutElements(s.unclassified, d.sourceId);
    assert d.sourceId in Elements(s.unclassified);
    assert ClassifiedSources(t) == ClassifiedSources(s);
  }

  lemma {:induction false} ClassifiedConserves(s: State, t: State, id: Id, contract: Contract)
    requires SourcesConserved(s) && id !in s.contracts && contract.sourceId in s.unclassified
    requires t.sources == s.sources && t.disposed == s.disposed && t.contracts == s.contracts[id := contract]
    requires t.unclassified == Without(s.unclassified, contract.sourceId)
    ensures SourcesConserved(t)
  {
    WithoutElements(s.unclassified, contract.sourceId);
    assert contract.sourceId in Elements(s.unclassified);
    assert t.contracts[id] == contract && forall k | k in s.contracts :: t.contracts[k] == s.contracts[k];
    forall x | x in ClassifiedSources(s) + {contract.sourceId} ensures x in ClassifiedSources(t) {
      if x in ClassifiedSources(s) {
        var k :| k in s.contracts && s.contracts[k].sourceId == x;
        assert t.contracts[k].sourceId == x;
      }
    }
    assert ClassifiedSources(t) == ClassifiedSources(s) + {contract.sourceId};
    assert forall k | k in s.contracts :: s.contracts[k].sourceId in ClassifiedSources(s);
  }

  // ---------------------------------------------------------------- classification

  lemma {:induction false} Catalogued(os: seq<Outcome>, catalog: map<Id, string>)
    requires Catalogue(os, catalog).Ok?
    ensures var c := Catalogue(os, catalog).value;
      && catalog.Keys <= c.Keys && (forall k | k in catalog :: c[k] == catalog[k])
      && (forall o | o in os :: o.id in c && o.description == Some(c[o.id]))
  {
    if os == [] {
    } else {
      Catalogued(os[1..], catalog[os[0].id := os[0].description.value]);
      assert os == [os[0]] + os[1..];
    }
  }

  lemma {:induction false} DraftClauses(p: Classification, s: State)
    requires WellCurrent(s) && DraftContract(p, s).Ok?
    ensures var draft := DraftContract(p, s).value;
      && DistinctClauses(draft.clauses) && (forall c | c in draft.clauses :: ClauseExact(c, s.sources))
      && p.sourceId in s.unclassified && p.contract.contractId !in s.contracts
  {
    ClausesBound(p.contract.clauses.items, s.sources, {});
    hide ValidateClauses, ValidateOutcomes, SafeId, Lookup, Inherit, CheckObjective, CheckLineage, SourcesAvailable;
  }

  /** What the validator guarantees of its output, in the state it was given. */
  ghost predicate Validated(s: State, p: Classification, q: Classification) {
    && q.sourceId == p.sourceId && p.sourceId in s.sources && p.sourceId in s.unclassified
    && q.disposition == p.disposition && p.disposition.Some?
    && q.contract.contractId !in s.contracts
    && q.contract.clauses.Items? && DistinctClauses(q.contract.clauses.items)
    && (forall c | c in q.contract.clauses.items :: ClauseExact(c, s.sources))
    && q.contract.outcomes.Items? && DistinctIds(q.contract.outcomes.items)
    && (forall o | o in q.contract.outcomes.items :: Passes(o, s.catalog))
  }

  lemma {:induction false} ValidatorValidates(s: State, p: Classification, q: Classification)
    requires WellCurrent(s) && OpenOutcomesKept(s) && ValidateContractEvent(p, s) == Ok(q)
    ensures Validated(s, p, q)
  {
    var draft := DraftContract(p, s).value;
    DraftFacts(p, s);
    DraftClauses(p, s);
    var inc := SettleOutcomes(p, draft, s).value;
    hide DraftContract, SettleOutcomes, Passes, DistinctIds, Inherit, OpenOutcomesKept, DistinctClauses, ClauseExact;
    SettleFixpoint(p, Publish(p, draft, inc), draft, s, s, inc);
  }

  /** An accepted classification is its normalised form adopted with the extended catalogue. */
  ghost predicate Adopted(s: State, q: Classification, t: State) {
    && q.disposition.Some? && t == Adopt(s, q, q.disposition.value, t.catalog)
    && if q.disposition.value.Withdraw? then t.catalog == s.catalog
       else Catalogue(ListOf(q.contract.outcomes), s.catalog) == Ok(t.catalog)
  }

  lemma {:induction false} ClassifiedOpened(s: State, p: Classification, t: State) returns (q: Classification)
    requires WellCurrent(s) && OpenOutcomesKept(s) && StepClassified(s, p) == Ok(t)
    ensures ValidateContractEvent(p, s) == Ok(q) && Validated(s, p, q) && Adopted(s, q, t)
  {
    q := ValidateContractEvent(p, s).value;
    ValidatorValidates(s, p, q);
    hide ValidateContractEvent, Catalogue, Validated;
  }

  lemma {:induction false} PublishedOutcomesKept(os: seq<Outcome>, catalog: map<Id, string>)
    requires DistinctIds(os) && (forall o | o in os :: Passes(o, catalog)) && Catalogue(os, catalog).Ok?
    ensures var open := AsMap(os);
      forall id | id in open :: KeptOutcome(open[id], id, Catalogue(os, catalog).value)
  {
    Catalogued(os, catalog);
    AsMapFinds(os);
    var open, c := AsMap(os), Catalogue(os, catalog).value;
    hide AsMap, Catalogue;
    forall id | id in open ensures KeptOutcome(open[id], id, c) {
      assert Passes(open[id], catalog);
    }
  }

  lemma {:induction false} AdoptedKeepsWork(s: State, p: Classification, q: Classification, t: State)
    requires Validated(s, p, q) && Adopted(s, q, t)
    ensures CurrentWork(t)
  {
    hide Catalogue, AsMap, DistinctIds, Passes, KeptOutcome, ClauseExact, DistinctClauses, Without;
    if !q.disposition.value.Withdraw? {
      var os := q.contract.outcomes.items;
      PublishedOutcomesKept(os, s.catalog);
      assert ListOf(q.contract.outcomes) == os && t.open == AsMap(os) && Catalogue(os, s.catalog) == Ok(t.catalog);
      assert OpenOutcomesKept(t);
    } else {
      assert t.open == map[];
    }
  }

  lemma {:induction false} AdoptedKeepsClauses(s: State, p: Classification, q: Classification, t: State)
    requires ClausesExact(s) && Validated(s, p, q) && Adopted(s, q, t)
    ensures ClausesExact(t)
  {
    hide ClauseExact, DistinctClauses, Catalogue, AsMap, DistinctIds, Passes, Without;
  }

  lemma {:induction false} ClassifiedKeepsInv(s: State, p: Classification, t: State)
    requires LedgerInv(s) && StepClassified(s, p) == Ok(t)
    ensures LedgerInv(t) && t.sources == s.sources
  {
    hide StepClassified, SourcesConserved, ClausesExact, EffectsRecorded, Validated;
    var q := ClassifiedOpened(s, p, t);
    hide CurrentWork;
    AdoptedKeepsWork(s, p, q, t);
    AdoptedKeepsClauses(s, p, q, t);
    AdoptedConserves(s, p, q, t);
    SameEffects(s, t);
  }

  lemma {:induction false} AdoptedConserves(s: State, p: Classification, q: Classification, t: State)
    requires SourcesConserved(s) && Validated(s, p, q) && Adopted(s, q, t)
    ensures SourcesConserved(t)
  {
    hide SourcesConserved, ClauseExact, DistinctClauses, Catalogue, AsMap, DistinctIds, Passes, Without;
    ClassifiedConserves(s, t, q.contract.contractId, t.contracts[q.contract.contractId]);
  }

  // ---------------------------------------------------------------- progress

  lemma {:induction false} UpdatesKeepOutcomes(us: seq<OutcomeUpdate>, open: map<Id, Outcome>, catalog: map<Id, string>)
    requires ApplyUpdates(us, open).Ok?
    requires forall id | id in open :: KeptOutcome(open[id], id, catalog)
    ensures var open' := ApplyUpdates(us, open).value;
      open'.Keys == open.Keys && forall id | id in open' :: KeptOutcome(open'[id], id, catalog)
  {
    if us == [] {
    } else {
      var o := ApplyUpdate(open[us[0].outcomeId], us[0]).value;
      assert KeptOutcome(open[us[0].outcomeId], us[0].outcomeId, catalog);
      UpdatesKeepOutcomes(us[1..], open[us[0].outcomeId := o], catalog);
    }
  }

  lemma {:induction false} ProgressKeepsInv(s: State, p: Progress)
    requires LedgerInv(s) && StepProgress(s, p).Ok?
    ensures LedgerInv(StepProgress(s, p).value)
  {
    UpdatesKeepOutcomes(ListOf(p.updates), s.open, s.catalog);
    var t := StepProgress(s, p).value;
    assert ClassifiedSources(t) == ClassifiedSources(s);
    hide ApplyUpdates, CheckProgress, EffectOpen, Linked, KeptOutcome, ExpectedEffect;
  }

  // ---------------------------------------------------------------- every step

  lemma {:induction false} CapturedKeepsInv(s: State, id: Id, source: Source)
    requires LedgerInv(s) && id !in s.sources
    ensures LedgerInv(StepCaptured(s, id, source).value)
  {
    CapturedConserves(s, id, source);
    hide SourcesConserved, KeptOutcome, EffectOpen, Linked, ExpectedEffect;
  }

  lemma {:induction false} DisposedKeepsInv(s: State, d: Disposal)
    requires LedgerInv(s) && StepDisposed(s, d).Ok?
    ensures LedgerInv(StepDisposed(s, d).value)
  {
    DisposedConserves(s, d);
    hide SourcesConserved, KeptOutcome, EffectOpen, Linked, CheckDisposal, ExpectedEffect;
  }

  predicate SameSourcesAndWork(s: State, t: State) {
    && t.sources == s.sources && t.unclassified == s.unclassified && t.disposed == s.disposed
    && t.contracts == s.contracts && t.current == s.current && t.open == s.open && t.catalog == s.catalog
    && t.latestProgress == s.latestProgress
  }

  lemma {:induction false} SameKeepsInv(s: State, t: State)
    requires LedgerInv(s) && SameSourcesAndWork(s, t) && EffectsRecorded(t)
    ensures LedgerInv(t)
  {
    assert ClassifiedSources(t) == ClassifiedSources(s);
    hide EffectsRecorded, KeptOutcome, ClauseExact, DistinctClauses, Distinct;
  }

  lemma {:induction false} LinkedExtends(rec: seq<RecordedReconciliation>, eventId: Id, r: Reconciliation)
    requires Linked(rec) && !r.resolution.OtherResolution?
    requires rec == [] ==> r.priorEvent.None?
    requires rec != [] ==>
      rec[|rec| - 1].body.resolution == RemainsUnknown && r.priorEvent == Some(rec[|rec| - 1].eventId)
    ensures Linked(rec + [RecordedReconciliation(eventId, r)])
  {
    var all := rec + [RecordedReconciliation(eventId, r)];
    forall i | 1 <= i < |all| ensures all[i].body.priorEvent == Some(all[i - 1].eventId) {
      assert all[i - 1] == rec[i - 1];
      if i < |rec| { assert all[i] == rec[i]; }
    }
  }

  lemma {:induction false} ReconciledKeepsEffects(s: State, id: Id, r: Reconciliation)
    requires EffectsRecorded(s) && StepReconciled(s, id, r).Ok?
    ensures EffectsRecorded(StepReconciled(s, id, r).value)
  {
    var prior := ReconciliationsOf(s, r.actionId);
    assert Linked(prior);
    LinkedExtends(prior, id, r);
    hide Linked, SafeId;
  }

  lemma {:induction false} StartedKeepsEffects(s: State, id: Id, a: ActionStart)
    requires EffectsRecorded(s) && WellCurrent(s) && StepStarted(s, id, a).Ok?
    ensures EffectsRecorded(StepStarted(s, id, a).value)
  {
    hide Linked, SafeId;
  }

  lemma {:induction false} FinishedKeepsEffects(s: State, id: Id, r: ActionResult)
    requires EffectsRecorded(s) && StepFinished(s, id, r).Ok?
    ensures EffectsRecorded(StepFinished(s, id, r).value)
  {
    hide Linked, SafeId;
  }

  lemma {:induction false} SupplementedKeepsEffects(s: State, id: Id, m: Supplement)
    requires EffectsRecorded(s) && StepSupplemented(s, id, m).Ok?
    ensures EffectsRecorded(StepSupplemented(s, id, m).value)
  {
    hide Linked, SafeId;
  }

  lemma {:induction false} ActionsKeepEffects(s: State, id: Id, e: Event, t: State)
    requires WellCurrent(s) && EffectsRecorded(s) && StepEvent(s, id, e) == Ok(t)
    requires !e.SourceCaptured? && !e.SourceClassified? && !e.SourceDisposed? && !e.ProgressMade?
    ensures EffectsRecorded(t) && SameSourcesAndWork(s, t)
  {
    hide EffectsRecorded, SafeId, Blank, ExpectedEffect, EffectOpen, ClauseIds;
    match e
    case ActionStarted(a) => StartedKeepsEffects(s, id, a);
    case ActionFinished(r) => FinishedKeepsEffects(s, id, r);
    case ActionReconciled(r) => ReconciledKeepsEffects(s, id, r);
    case MethodSupplemented(m) => SupplementedKeepsEffects(s, id, m);
    case _ => SameEffects(s, t);
  }

  lemma {:induction false} ActionsKeepInv(s: State, id: Id, e: Event, t: State)
    requires LedgerInv(s) && StepEvent(s, id, e) == Ok(t)
    requires !e.SourceCaptured? && !e.SourceClassified? && !e.SourceDisposed? && !e.ProgressMade?
    ensures LedgerInv(t) && t.sources == s.sources
  {
    assert WellCurrent(s);
    hide StepEvent, SourcesConserved, ClausesExact, CurrentWork, EffectsRecorded;
    ActionsKeepEffects(s, id, e, t);
    SameKeepsInv(s, t);
  }

  lemma {:induction false} SameEffects(s: State, t: State)
    requires EffectsRecorded(s) && t.actions == s.actions && t.reconciliations == s.reconciliations
    ensures EffectsRecorded(t)
  {
    hide Linked, ExpectedEffect, EffectOpen;
  }

  lemma {:induction false} StepEventKeepsInv(s: State, id: Id, e: Event)
    requires LedgerInv(s) && StepEvent(s, id, e).Ok?
    requires e.SourceCaptured? ==> id !in s.sources
    ensures LedgerInv(StepEvent(s, id, e).value)
    ensures StepEvent(s, id, e).value.sources.Keys <= s.sources.Keys + {id}
  {
    var t := StepEvent(s, id, e).value;
    hide LedgerInv, ValidateContractEvent, Catalogue, AsMap, Without, ApplyUpdates, CheckProgress, CheckDisposal,
      SafeId, Blank;
    match e
    case SourceCaptured(_, source) => CapturedKeepsInv(s, id, source);
    case SourceClassified(p) => ClassifiedKeepsInv(s, p, t);
    case SourceDisposed(d) => DisposedKeepsInv(s, d);
    case ProgressMade(p) => ProgressKeepsInv(s, p);
    case _ => ActionsKeepInv(s, id, e, t);
  }

  lemma {:induction false} StepKeepsInv(s: State, r: Entry)
    requires LedgerInv(s) && Step(s, r).Ok?
    requires r.event.SourceCaptured? ==> r.eventId !in s.sources
    ensures LedgerInv(Step(s, r).value)
    ensures Step(s, r).value.sources.Keys <= s.sources.Keys + {r.eventId}
  {
    StepEventKeepsInv(s, r.eventId, r.event);
    var mid := StepEvent(s, r.eventId, r.event).value;
    hide StepEvent, SourcesConserved, ClausesExact, CurrentWork;
    hide EffectsRecorded;
    SameEffects(mid, Step(s, r).value);
    SameKeepsInv(mid, Step(s, r).value);
  }

  /** Every reachable state conserves its sources, binds every clause and keeps work, advice and effects consistent. */
  lemma {:induction false} ReplayKeepsInv(rs: seq<Entry>)
    requires UniqueIds(rs) && Replay(rs).Ok?
    ensures LedgerInv(Replay(rs).value)
    ensures Replay(rs).value.sources.Keys <= EventIds(rs)
  {
    if rs == [] {
      assert LedgerInv(EmptyState()) by { assert ClassifiedSources(EmptyState()) == {}; }
    } else {
      var front, last := rs[..|rs| - 1], rs[|rs| - 1];
      ReplayKeepsInv(front);
      var s := Replay(front).value;
      assert last.eventId !in EventIds(front);
      hide LedgerInv, Step, UniqueIds;
      StepKeepsInv(s, last);
      forall x | x in EventIds(front) + {last.eventId} ensures x in EventIds(rs) {
        if x != last.eventId {
          var i :| 0 <= i < |front| && front[i].eventId == x;
          assert rs[i].eventId == x;
        }
      }
    }
  }
}
