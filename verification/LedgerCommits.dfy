/** Append over bare states and files: exactly which attempts are committed, and what is recorded of them. */
module LedgerCommits {
  import opened Common
  import opened LedgerModel
  import opened LedgerContract
  import opened LedgerFixpoint
  import opened LedgerMethods
  import opened LedgerReplay
  import opened LedgerInvariant
  import opened LedgerAppend
  import opened LedgerAppendProofs
  import opened LedgerRetries
  import opened LedgerFrontiers
  import opened LedgerClassified
  import opened LedgerRules
  import opened JournalRecord

  // ---------------------------------------------------------------- what may be committed

  predicate SourceIntact(env: Surroundings, s: State, id: Id) {
    id in s.sources && Intact(env, s.sources[id])
  }

  predicate CurrentIntact(env: Surroundings, s: State) {
    forall c | c in CurrentClauses(s) :: SourceIntact(env, s, c.sourceId)
  }

  predicate SafeIds(ids: seq<Id>) {
    forall id | id in ids :: SafeId(id)
  }

  /** What append takes, in the state replay has and with the files as they are. */
  ghost predicate Allowed(env: Surroundings, s: State, e: Event)
    requires WellCurrent(s)
  {
    match e
    case SourceCaptured(_, source) => Intact(env, source) && Upper(source.sha) == source.sha
    case SourceClassified(p) =>
      && Acceptable(p, s) && SourceIntact(env, s, p.sourceId)
      && (p.disposition == Some(Initial) || CurrentIntact(env, s))
      && (p.disposition == Some(Withdraw)
          || forall c | c in ListOf(p.contract.clauses) :: SourceIntact(env, s, c.sourceId))
    case SourceDisposed(d) =>
      && d.unsupported == {} && Disposable(s, d) && SourceIntact(env, s, d.sourceId)
      && (d.disposition.AlreadyIncorporatedDuplicate? ==> SafeIds(d.clauseIds))
    case ProgressMade(p) => Progresses(s, p) && CurrentIntact(env, s)
    case ActionStarted(a) =>
      && a.unsupported == {} && Startable(s, a) && NothingPending(env, s)
      && SafeIds(a.outcomeIds) && SafeIds(a.clauseIds) && Grounded(a.description)
      && (a.methodRecord.Absent? || a.methodRecord.Sheet? || MethodFits(a.methodRecord))
    case ActionFinished(r) =>
      r.unsupported == {} && Finishable(s, r) && (r.effectRecord.Absent? || EffectFits(r.effectRecord))
    case ActionReconciled(r) => r.unsupported == {} && Reconcilable(s, r)
    case MethodSupplemented(m) =>
      && m.unsupported == {} && Supplementable(s, m) && MethodFits(m.methodRecord)
      && m.lateReason.Some? && ShortText(Text(m.lateReason.value))
      && m.evidence != [] && forall ref | ref in m.evidence :: !Blank(ref)
    case GapResolved(g) =>
      && g.unsupported == {} && GapResolvable(s, g) && g.gapId in env.gapFiles
      && (g.decision.OwnerDisposition? ==> g.sourceId == None)
      && (g.decision.SourceRecovered? ==>
            env.gapFiles[g.gapId].GapFile? && Recovers(env, s, env.gapFiles[g.gapId], g.sourceId.value))
    case Lifecycle(_) => false
    case UnknownEvent(_) => false
  }

  /** The sources an event in its recorded form rests on are intact in the state it leads to. */
  ghost predicate Stands(env: Surroundings, id: Id, e: Event, t: State) {
    forall k | RestsOn(e, id, t, k) :: SourceIntact(env, t, k)
  }

  /** Normalisation takes what is sent, and replay takes what is recorded of it, to a state that stands. */
  ghost predicate Goes(env: Surroundings, s: State, id: Id, sent: Event)
    requires WellCurrent(s) && WellCurrent(Attach(env, s))
  {
    && Normalise(env, Attach(env, s), sent).Ok?
    && var e := Normalise(env, Attach(env, s), sent).value;
    && StepEvent(s, id, e).Ok?
    && Stands(env, id, e, StepEvent(s, id, e).value)
  }

  // ---------------------------------------------------------------- kind by kind

  lemma {:induction false} CurrentIntactMeans(env: Surroundings, s: State)
    ensures SourcesAvailable(Attach(env, s), CurrentContractSources(s)) <==> CurrentIntact(env, s)
  {
    AvailableMeans(env, s, CurrentContractSources(s));
    CurrentSources(s);
    hide Attach, SourcesAvailable, CurrentContractSources, CurrentClauses, Intact;
  }

  lemma {:induction false} CapturedGoes(env: Surroundings, s: State, id: Id, bootstrap: bool, source: Source)
    requires WellCurrent(s) && WellCurrent(Attach(env, s))
    ensures Goes(env, s, id, SourceCaptured(bootstrap, source)) <==> Allowed(env, s, SourceCaptured(bootstrap, source))
  {
    hide Attach, Upper;
    var t := StepCaptured(s, id, source).value;
    assert id in t.sources && t.sources[id] == source;
    assert RestsOn(SourceCaptured(bootstrap, source), id, t, id);
    assert Stands(env, id, SourceCaptured(bootstrap, source), t) <==> Intact(env, source);
  }

  lemma {:induction false} CheckDisposalExactly(s: State, d: Disposal)
    requires WellCurrent(s)
    ensures CheckDisposal(s, d).Ok? <==> Disposable(s, d)
  {
    DisposedExactly(s, d);
    hide CheckDisposal, Disposable, Without;
  }

  lemma {:induction false} SameDisposable(s: State, u: State, d: Disposal, e: Disposal)
    requires u.unclassified == s.unclassified && u.current == s.current && u.contracts == s.contracts
    requires e == d.(unsupported := e.unsupported)
    ensures Disposable(u, d) <==> Disposable(s, d)
    ensures Disposable(s, e) <==> Disposable(s, d)
  {
    assert CurrentClauses(u) == CurrentClauses(s);
    hide CurrentClauses, SafeId, Blank;
  }

  lemma {:induction false} DisposalSends(env: Surroundings, s: State, d: Disposal)
    requires WellCurrent(s) && WellCurrent(Attach(env, s))
    ensures NormaliseDisposal(Attach(env, s), d).Ok? <==>
      && d.unsupported == {} && Disposable(s, d) && SourceIntact(env, s, d.sourceId)
      && (d.disposition.AlreadyIncorporatedDuplicate? ==> SafeIds(d.clauseIds))
    ensures NormaliseDisposal(Attach(env, s), d).Ok? ==>
      NormaliseDisposal(Attach(env, s), d).value == SourceDisposed(d.(unsupported := DISCLAIMERS))
  {
    var u := Attach(env, s);
    AttachView(env, s);
    AvailableMeans(env, s, {d.sourceId});
    CheckDisposalExactly(u, d);
    SameDisposable(s, u, d, d);
    assert SourcesAvailable(u, {d.sourceId}) <==> SourceIntact(env, s, d.sourceId);
    assert Disposable(s, d) ==> SafeId(d.sourceId) && d.sourceId in s.unclassified;
    hide Attach, SafeId, CheckDisposal, Disposable, SourceIntact, SourcesAvailable;
  }

  lemma {:induction false} DisposalStands(env: Surroundings, s: State, id: Id, d: Disposal, t: State)
    requires t.sources == s.sources
    ensures Stands(env, id, SourceDisposed(d), t) <==> SourceIntact(env, s, d.sourceId)
  {
    assert RestsOn(SourceDisposed(d), id, t, d.sourceId);
  }

  lemma {:induction false} DisposalOpens(s: State, u: State, env: Surroundings, id: Id, d: Disposal, e: Disposal)
    requires WellCurrent(s) && WellCurrent(u)
    ensures Normalise(env, u, SourceDisposed(d)) == NormaliseDisposal(u, d)
    ensures StepEvent(s, id, SourceDisposed(e)) == StepDisposed(s, e)
    ensures StepDisposed(s, e).Ok? ==> StepDisposed(s, e).value.sources == s.sources
  {
    hide NormaliseDisposal, CheckDisposal, Without;
  }

  lemma {:induction false} DisposedGoes(env: Surroundings, s: State, id: Id, d: Disposal)
    requires WellCurrent(s) && WellCurrent(Attach(env, s))
    ensures Goes(env, s, id, SourceDisposed(d)) <==> Allowed(env, s, SourceDisposed(d))
  {
    hide Attach, SafeIds, NormaliseDisposal, Disposable, SourceIntact, RestsOn, Normalise, StepEvent, StepDisposed,
      Stands;
    var e := d.(unsupported := DISCLAIMERS);
    DisposalSends(env, s, d);
    DisposedExactly(s, e);
    SameDisposable(s, s, d, e);
    DisposalOpens(s, Attach(env, s), env, id, d, e);
    if StepDisposed(s, e).Ok? { DisposalStands(env, s, id, e, StepDisposed(s, e).value); }
  }

  lemma {:induction false} ProgressGoes(env: Surroundings, s: State, id: Id, p: Progress)
    requires WellCurrent(s) && WellCurrent(Attach(env, s))
    ensures Goes(env, s, id, ProgressMade(p)) <==> Allowed(env, s, ProgressMade(p))
  {
    AttachView(env, s);
    CurrentIntactMeans(env, s);
    ProgressExactly(s, p);
    hide Attach, SafeId, UpdatesFit, UpdatedAs, SourcesAvailable, CurrentContractSources, StepProgress, Intact;
    if StepProgress(s, p).Ok? { StandsOnCurrent(env, s, id, ProgressMade(p), StepProgress(s, p).value); }
    hide CurrentIntact, CurrentClauses, Stands;
  }

  lemma {:induction false} StandsOnCurrent(env: Surroundings, s: State, id: Id, e: Event, t: State)
    requires e.ProgressMade? || e.ActionStarted?
    requires t.sources == s.sources && t.contracts == s.contracts && t.current == s.current
    ensures Stands(env, id, e, t) <==> CurrentIntact(env, s)
  {
    assert CurrentClauses(t) == CurrentClauses(s);
    hide CurrentClauses, Intact;
    if Stands(env, id, e, t) {
      forall c | c in CurrentClauses(s) ensures SourceIntact(env, s, c.sourceId) {
        assert RestsOn(e, id, t, c.sourceId);
      }
    }
  }

  lemma {:induction false} FinishedGoes(env: Surroundings, s: State, id: Id, r: ActionResult)
    requires WellCurrent(s) && WellCurrent(Attach(env, s))
    ensures Goes(env, s, id, ActionFinished(r)) <==> Allowed(env, s, ActionFinished(r))
  {
    EffectExactly(r.effectRecord);
    hide Attach, SafeId, ValidateEffect, EffectFits;
    FinishedExactly(s, id, r);
    if Recorded(ActionFinished(r)).Ok? {
      var e := Recorded(ActionFinished(r)).value;
      FinishedExactly(s, id, e.result);
    }
    hide StepFinished;
  }

  lemma {:induction false} ReconciledGoes(env: Surroundings, s: State, id: Id, r: Reconciliation)
    requires WellCurrent(s) && WellCurrent(Attach(env, s))
    ensures Goes(env, s, id, ActionReconciled(r)) <==> Allowed(env, s, ActionReconciled(r))
  {
    ReconciledExactly(s, id, r);
    hide Attach, StepReconciled, Reconcilable;
  }

  lemma {:induction false} SupplementedGoes(env: Surroundings, s: State, id: Id, m: Supplement)
    requires WellCurrent(s) && WellCurrent(Attach(env, s))
    ensures Goes(env, s, id, MethodSupplemented(m)) <==> Allowed(env, s, MethodSupplemented(m))
  {
    MethodExactly(m.methodRecord);
    hide Attach, SafeId, ValidateMethod, MethodFits, Strip;
    if RecordSupplement(m).Ok? {
      SupplementedExactly(s, id, RecordSupplement(m).value);
    }
    hide StepSupplemented;
  }

  lemma {:induction false} AllSafe(xs: seq<Id>, ys: seq<Id>)
    ensures (exists id | id in xs + ys :: !SafeId(id)) <==> !(SafeIds(xs) && SafeIds(ys))
  {
    hide SafeId;
  }

  lemma {:induction false} SameIds(xs: seq<Id>, ids: set<Id>)
    ensures Elements(xs) <= ids <==> forall id | id in xs :: id in ids
  {
    assert forall id :: id in Elements(xs) <==> id in xs;
  }

  /** What append takes of a start, in a state whose files have been looked at. */
  lemma {:induction false} StartTaken(u: State, a: ActionStart)
    requires WellCurrent(u)
    ensures NormaliseStart(u, a).Ok? <==>
      && a.unsupported == {} && !ReconciliationPending(u) && SourcesAvailable(u, CurrentContractSources(u))
      && SafeId(a.contractId) && u.current == Some(a.contractId)
      && a.outcomeIds != [] && (forall id | id in a.outcomeIds :: id in u.open)
      && a.clauseIds != [] && Elements(a.clauseIds) <= ClauseIds(ClausesOf(u.contracts[u.current.value]))
      && SafeIds(a.outcomeIds) && SafeIds(a.clauseIds) && Grounded(a.description)
      && (a.methodRecord.Absent? || a.methodRecord.Sheet? || MethodFits(a.methodRecord))
    ensures NormaliseStart(u, a).Ok? ==>
      var e := NormaliseStart(u, a).value;
      e.ActionStarted? && e.start == a.(methodRecord := e.start.methodRecord)
  {
    MethodExactly(a.methodRecord);
    AllSafe(a.outcomeIds, a.clauseIds);
    SameIds(a.outcomeIds, u.open.Keys);
    hide SafeId, Blank, ReconciliationPending, SourcesAvailable, CurrentContractSources, ClauseIds, Elements, ClausesOf,
      ValidateMethod, MethodFits, SafeIds, KeptAs;
  }

  lemma {:induction false} StartSends(env: Surroundings, s: State, a: ActionStart)
    requires WellCurrent(s) && WellCurrent(Attach(env, s)) && ClausesExact(s)
    ensures NormaliseStart(Attach(env, s), a).Ok? <==>
      && a.unsupported == {} && NothingPending(env, s) && SafeId(a.contractId) && s.current == Some(a.contractId)
      && a.outcomeIds != [] && (forall id | id in a.outcomeIds :: id in s.open) && Cites(s, a.clauseIds)
      && SafeIds(a.outcomeIds) && SafeIds(a.clauseIds) && Grounded(a.description)
      && (a.methodRecord.Absent? || a.methodRecord.Sheet? || MethodFits(a.methodRecord))
    ensures NormaliseStart(Attach(env, s), a).Ok? ==>
      var e := NormaliseStart(Attach(env, s), a).value;
      e.ActionStarted? && e.start == a.(methodRecord := e.start.methodRecord)
  {
    var u := Attach(env, s);
    AttachView(env, s);
    PendingMeans(env, s);
    hide *;
    if !ReconciliationPending(u) { ReconciledIsAvailable(env, s); }
    if s.current.Some? { CitesExactly(s, a.clauseIds); }
    StartTaken(u, a);
  }

  lemma {:induction false} StartedGoes(env: Surroundings, s: State, id: Id, a: ActionStart)
    requires WellCurrent(s) && WellCurrent(Attach(env, s)) && ClausesExact(s)
    ensures Goes(env, s, id, ActionStarted(a)) <==> Allowed(env, s, ActionStarted(a))
  {
    StartSends(env, s, a);
    if NormaliseStart(Attach(env, s), a).Ok? {
      var e := NormaliseStart(Attach(env, s), a).value.start;
      StartedExactly(s, id, e);
      StartOpens(s, id, e);
      if StepStarted(s, id, e).Ok? { StandsOnCurrent(env, s, id, ActionStarted(e), StepStarted(s, id, e).value); }
      if NothingPending(env, s) { PendingStands(env, s); }
    }
    hide Attach, SafeIds, SafeId, NormaliseStart, StepStarted, MethodFits, Cites, Stands, CurrentIntact, NothingPending,
      ClausesExact, RestsOn;
  }

  lemma {:induction false} StartOpens(s: State, id: Id, a: ActionStart)
    requires WellCurrent(s)
    ensures StepStarted(s, id, a).Ok? ==>
      var t := StepStarted(s, id, a).value;
      t.sources == s.sources && t.contracts == s.contracts && t.current == s.current
  {
    hide SafeId, ClauseIds, Elements;
  }

  /** With nothing pending, every source of the current contract is intact. */
  lemma {:induction false} PendingStands(env: Surroundings, s: State)
    requires WellCurrent(s) && ClausesExact(s) && NothingPending(env, s)
    ensures CurrentIntact(env, s)
  {
    CurrentSourcesKnown(s);
    CurrentSources(s);
    hide CurrentClauses, CurrentContractSources, Intact, ClausesExact, GapSettled;
  }

  lemma {:induction false} GapSends(env: Surroundings, s: State, g: GapResolution)
    requires g.gapId !in s.gapResolutions
    ensures NormaliseGap(Attach(env, s), g).Ok? <==>
      && g.unsupported == {} && SafeId(g.gapId) && g.gapId in env.gapFiles
      && !g.decision.OtherDecision? && Grounded(g.ground)
      && (g.decision.SourceRecovered? ==>
            && g.sourceId.Some? && SafeId(g.sourceId.value)
            && env.gapFiles[g.gapId].GapFile? && Recovers(env, s, env.gapFiles[g.gapId], g.sourceId.value))
      && (g.decision.OwnerDisposition? ==> g.sourceId == None)
    ensures NormaliseGap(Attach(env, s), g).Ok? ==>
      NormaliseGap(Attach(env, s), g).value == GapResolved(g.(unsupported := DISCLAIMERS))
  {
    var u := Attach(env, s);
    UnresolvedIsUnsettled(env, s, g.gapId);
    GapAttached(env, s, g.gapId);
    if g.gapId in env.gapFiles {
      var file := env.gapFiles[g.gapId];
      if file.GapFile? && g.decision.SourceRecovered? && g.sourceId.Some? {
        RecoveryIgnoresGaps(env, s, file.observedSha, file.observedBytes, g.sourceId.value);
        RecoversIsExact(env, s, file, g.sourceId.value);
      }
    }
    hide Attach, AttachIntegrity, SafeId, Blank, IsSha256, UnresolvedGaps, Recovers, GapSettled;
  }

  lemma {:induction false} GapOpens(env: Surroundings, s: State, id: Id, g: GapResolution, e: Event)
    requires WellCurrent(s) && NormaliseGap(Attach(env, s), g) == Ok(e)
    ensures e == GapResolved(g.(unsupported := DISCLAIMERS))
    ensures StepEvent(s, id, e) == StepGapResolved(s, id, e.gap)
    ensures StepGapResolved(s, id, e.gap).Ok? ==> StepGapResolved(s, id, e.gap).value.sources == s.sources
    ensures GapResolvable(s, e.gap) <==> GapResolvable(s, g)
  {
    hide Attach, SafeId, Blank, UnresolvedGaps, ExactRecovery;
  }

  lemma {:induction false} GapStands(env: Surroundings, s: State, id: Id, g: GapResolution, t: State)
    requires t.sources == s.sources && g.gapId in env.gapFiles
    requires g.sourceId.Some? ==>
      env.gapFiles[g.gapId].GapFile? && Recovers(env, s, env.gapFiles[g.gapId], g.sourceId.value)
    ensures Stands(env, id, GapResolved(g), t)
  {
    hide IsSha256;
  }

  lemma {:induction false} GapGoes(env: Surroundings, s: State, id: Id, g: GapResolution)
    requires WellCurrent(s) && WellCurrent(Attach(env, s))
    ensures Goes(env, s, id, GapResolved(g)) <==> Allowed(env, s, GapResolved(g))
  {
    var n := NormaliseGap(Attach(env, s), g);
    assert Normalise(env, Attach(env, s), GapResolved(g)) == n by { hide NormaliseGap, Attach; }
    if g.gapId !in s.gapResolutions { GapSends(env, s, g); }
    assert GapResolvable(s, g) ==>
      && SafeId(g.gapId) && g.gapId !in s.gapResolutions && !g.decision.OtherDecision? && Grounded(g.ground)
      && (g.decision.SourceRecovered? ==> g.sourceId.Some? && SafeId(g.sourceId.value));
    assert g.gapId !in s.gapResolutions && n.Ok? ==> GapResolvable(s, g);
    hide Attach, NormaliseGap, Normalise, StepEvent, StepGapResolved, SafeId, Grounded, GapResolvable, Recovers,
      Stands;
    if n.Ok? {
      GapOpens(env, s, id, g, n.value);
      var e := n.value.gap;
      GapExactly(s, id, e);
      if StepGapResolved(s, id, e).Ok? { GapStands(env, s, id, e, StepGapResolved(s, id, e).value); }
    }
  }

  /** Classification looks at nothing but sources, contracts and outcomes. */
  predicate SameView(s: State, u: State) {
    && u.sources == s.sources && u.unclassified == s.unclassified && u.contracts == s.contracts
    && u.current == s.current && u.open == s.open && u.catalog == s.catalog
  }

  lemma {:induction false} SameAcceptable(p: Classification, s: State, u: State)
    requires CurrentContractKnown(s) && SameView(s, u)
    ensures Acceptable(p, u) <==> Acceptable(p, s)
  {
    hide ClausesFit, OutcomesFit, ClausesKept, NormativesFit, DeclaresChanges, TransitionsFit, CorrectsProperly,
      AllBound, SafeId, Blank, Changes, OutcomeIds, OwnClauseIds, TruthyList;
    if p.disposition.Some? {
      var d := p.disposition.value;
      assert DraftFits(p, d, u) <==> DraftFits(p, d, s);
      if d.Incremental() && s.current.Some? {
        assert IncrementFits(p, d, u, u.contracts[u.current.value]) <==>
          IncrementFits(p, d, s, s.contracts[s.current.value]);
      }
    }
    hide DraftFits, IncrementFits;
  }

  lemma {:induction false} ClassificationSends(env: Surroundings, s: State, p: Classification)
    requires CurrentContractKnown(s) && CurrentContractKnown(Attach(env, s))
    ensures ValidateContractEvent(p, Attach(env, s)).Ok? <==>
      && Acceptable(p, s) && SourceIntact(env, s, p.sourceId)
      && (p.disposition == Some(Initial) || CurrentIntact(env, s))
  {
    var u := Attach(env, s);
    AttachView(env, s);
    assert SameView(s, u) by { hide InspectGap, InspectSource; }
    SameAcceptable(p, s, u);
    AcceptedExactly(p, u);
    CurrentIntactMeans(env, s);
    AvailableMeans(env, s, {p.sourceId});
    assert SourcesAvailable(u, {p.sourceId}) <==> SourceIntact(env, s, p.sourceId);
    assert Acceptable(p, s) ==> p.sourceId in s.sources;
    if p.sourceId in s.sources { VerifiedIsIntact(env, s, p.sourceId, 0); }
    assert p.sourceId in s.sources ==> u.integrity != map[];
    hide Attach, ValidateContractEvent, Acceptable, CurrentContractSources, SourcesAvailable, Intact, CurrentClauses;
  }

  /** What is recorded of an accepted classification is taken by replay, and adds its clauses to those in force. */
  lemma {:induction false} ClassificationSteps(env: Surroundings, s: State, p: Classification, q: Classification)
    returns (t: State)
    requires LedgerInv(s) && s == Bare(s)
    requires WellCurrent(Attach(env, s)) && ValidateContractEvent(p, Attach(env, s)) == Ok(q)
    ensures WellCurrent(s) && q.sourceId == p.sourceId && q.disposition == p.disposition
    ensures StepClassified(s, q) == Ok(t) && t.sources == s.sources
    ensures CurrentClauses(t) ==
      if p.disposition == Some(Withdraw) then [] else AllBound(ListOf(p.contract.clauses), s.sources)
  {
    var u := Attach(env, s);
    hide *;
    InvWork(s);
    AttachKeeps(env, s);
    InvWorkOf(u);
    NormalisationIsAFixpoint(p, q, u);
    AttachBare(env, s);
    PublishedRecordsAs(p, u, q);
    t := FixpointSteps(s, q);
    ClassifiedExactly(s, q);
    AttachView(env, s);
    ClausesInForce(p, u, q, s, t);
  }

  lemma {:induction false} AttachBare(env: Surroundings, s: State)
    requires s == Bare(s)
    ensures Bare(Attach(env, s)) == s
  {
    hide InspectGap, InspectSource;
  }

  lemma {:induction false} ClausesInForce(
      p: Classification, u: State, q: Classification, s: State, t: State)
    requires CurrentContractKnown(s) && CurrentContractKnown(u) && u.sources == s.sources
    requires q.disposition.Some? && q.disposition == p.disposition
    requires RecordsAs(p, q.disposition.value, u, AsContract(q))
    requires ClassifiedTo(s, q, q.disposition.value, t)
    requires q.contract.contractId in t.contracts && t.contracts[q.contract.contractId].body == q.contract
    ensures t.sources == s.sources
    ensures CurrentClauses(t) ==
      if p.disposition == Some(Withdraw) then [] else AllBound(ListOf(p.contract.clauses), s.sources)
  {
    hide OpensAs, Lists, Removed, AllBound, Effective, SameTransitions, Ascending;
  }

  lemma {:induction false} ClassifiedGoes(env: Surroundings, s: State, id: Id, p: Classification)
    requires LedgerInv(s) && s == Bare(s) && WellCurrent(s) && WellCurrent(Attach(env, s))
    ensures Goes(env, s, id, SourceClassified(p)) <==> Allowed(env, s, SourceClassified(p))
  {
    ClassificationSends(env, s, p);
    var v := ValidateContractEvent(p, Attach(env, s));
    assert Normalise(env, Attach(env, s), SourceClassified(p)) ==
      (if v.Ok? then Ok(SourceClassified(v.value)) else Err(v.error)) by { hide ValidateContractEvent, Attach; }
    hide ValidateContractEvent, Normalise, Attach, Acceptable, CurrentIntact, LedgerInv, Intact, Stands, StepClassified;
    if v.Ok? {
      var q := v.value;
      var t := ClassificationSteps(env, s, p, q);
      ClassificationStands(env, s, id, p, q, t);
    }
  }

  lemma {:induction false} ClassificationStands(
      env: Surroundings, s: State, id: Id, p: Classification, q: Classification, t: State)
    requires t.sources == s.sources && q.sourceId == p.sourceId && SourceIntact(env, s, p.sourceId)
    requires CurrentClauses(t) ==
      if p.disposition == Some(Withdraw) then [] else AllBound(ListOf(p.contract.clauses), s.sources)
    ensures Stands(env, id, SourceClassified(q), t) <==>
      || p.disposition == Some(Withdraw)
      || forall c | c in ListOf(p.contract.clauses) :: SourceIntact(env, s, c.sourceId)
  {
    var cs, e := ListOf(p.contract.clauses), SourceClassified(q);
    hide Intact;
    if p.disposition != Some(Withdraw) {
      var bs := CurrentClauses(t);
      forall i | 0 <= i < |cs| ensures bs[i].sourceId == cs[i].sourceId {}
      hide CurrentClauses, AllBound;
      if Stands(env, id, e, t) {
        forall c | c in cs ensures SourceIntact(env, s, c.sourceId) {
          var i :| 0 <= i < |cs| && cs[i] == c;
          assert bs[i] in bs && RestsOn(e, id, t, c.sourceId);
        }
      }
      if forall c | c in cs :: SourceIntact(env, s, c.sourceId) {
        forall k | RestsOn(e, id, t, k) ensures SourceIntact(env, t, k) {
          if k != q.sourceId {
            var i :| 0 <= i < |bs| && bs[i].sourceId == k;
            assert cs[i] in cs;
          }
        }
      }
    }
  }

  /** An event goes through exactly when it is allowed. */
  lemma {:induction false} EventGoes(env: Surroundings, s: State, id: Id, e: Event)
    requires LedgerInv(s) && s == Bare(s) && WellCurrent(s) && WellCurrent(Attach(env, s))
    ensures Goes(env, s, id, e) <==> Allowed(env, s, e)
  {
    hide Attach, Bare;
    assert ClausesExact(s);
    assert e.Lifecycle? || e.UnknownEvent? ==> Normalise(env, Attach(env, s), e).Err?;
    hide *;
    match e
    case SourceCaptured(bootstrap, source) => CapturedGoes(env, s, id, bootstrap, source);
    case SourceClassified(p) => ClassifiedGoes(env, s, id, p);
    case SourceDisposed(d) => DisposedGoes(env, s, id, d);
    case ProgressMade(p) => ProgressGoes(env, s, id, p);
    case ActionStarted(a) => StartedGoes(env, s, id, a);
    case ActionFinished(r) => FinishedGoes(env, s, id, r);
    case ActionReconciled(r) => ReconciledGoes(env, s, id, r);
    case MethodSupplemented(m) => SupplementedGoes(env, s, id, m);
    case GapResolved(g) => GapGoes(env, s, id, g);
    case _ => NoOtherGoes(env, s, id, e);
  }

  lemma {:induction false} NoOtherGoes(env: Surroundings, s: State, id: Id, e: Event)
    requires WellCurrent(s) && WellCurrent(Attach(env, s)) && (e.Lifecycle? || e.UnknownEvent?)
    ensures !Goes(env, s, id, e) && !Allowed(env, s, e)
  {
    hide Attach;
  }

  // ---------------------------------------------------------------- the commit decision

  lemma {:induction false} DependentIsRestedOn(e: Event, id: Id, t: State, k: Id)
    ensures k in DependentSources(e, id, t) <==> RestsOn(e, id, t, k)
  {
    CurrentSources(t);
    hide CurrentContractSources, CurrentClauses;
  }

  lemma {:induction false} AvailableIsStands(env: Surroundings, e: Event, id: Id, t: State)
    ensures SourcesAvailable(Attach(env, t), DependentSources(e, id, Attach(env, t))) <==> Stands(env, id, e, t)
  {
    var ids := DependentSources(e, id, t);
    AttachView(env, t);
    assert DependentSources(e, id, Attach(env, t)) == ids by { hide Attach, CurrentContractSources; }
    AvailableMeans(env, t, ids);
    hide Attach, DependentSources, RestsOn, SourcesAvailable, Intact;
    forall k ensures k in ids <==> RestsOn(e, id, t, k) { DependentIsRestedOn(e, id, t, k); }
  }

  /** Replaying one more record is one more transition. */
  lemma {:induction false} ReplayStep(rs: seq<Entry>, s: State, r: Entry)
    requires Replay(rs) == Ok(s) && WellCurrent(s)
    ensures Replay(rs + [r]) == Step(s, r)
  {
    assert (rs + [r])[..|rs|] == rs;
    hide Step;
  }

  lemma {:induction false} DecideGoes(
      hash: Entry -> string, env: Surroundings, rs: seq<Entry>, s: State, a: Attempt)
    requires Replay(rs) == Ok(s) && WellCurrent(s) && WellCurrent(Attach(env, s))
    requires SafeId(a.eventId) && FindEvent(rs, a.eventId).None?
    requires a.expectedHead.Some? ==> Upper(a.expectedHead.value) == Head(rs)
    ensures Decide(hash, env, rs, a).Ok? <==> Goes(env, s, a.eventId, a.event)
    ensures Decide(hash, env, rs, a).Ok? ==> Decide(hash, env, rs, a).value.Commit?
  {
    var n := Normalise(env, Attach(env, s), a.event);
    assert n.Err? ==> Decide(hash, env, rs, a).Err? by { hide Replay, Attach, Normalise, FindEvent, SafeId, Upper; }
    if n.Ok? {
      var r := NewRecord(hash, rs, a, n.value);
      ReplayStep(rs, s, r);
      assert r.event == n.value && r.eventId == a.eventId;
      DecideCandidate(hash, env, rs, s, a, n.value);
      hide Replay, Attach, Normalise, FindEvent, SafeId, Upper, Decide, StepEvent, NewRecord, Stands;
      if StepEvent(s, r.eventId, r.event).Ok? {
        var next := StepEvent(s, r.eventId, r.event).value;
        var t := next.(revision := r.seqNo, head := r.eventHash);
        AvailableIsStands(env, r.event, r.eventId, t);
        SameStands(env, r.eventId, r.event, next, t);
      }
    }
  }

  lemma {:induction false} SameStands(env: Surroundings, id: Id, e: Event, s: State, t: State)
    requires t == s.(revision := t.revision, head := t.head)
    ensures Stands(env, id, e, t) <==> Stands(env, id, e, s)
  {
    assert CurrentClauses(t) == CurrentClauses(s);
    hide CurrentClauses, Intact;
    forall k ensures RestsOn(e, id, t, k) <==> RestsOn(e, id, s, k) {}
    hide RestsOn;
  }

  lemma {:induction false} DecideCandidate(
      hash: Entry -> string, env: Surroundings, rs: seq<Entry>, s: State, a: Attempt, e: Event)
    requires Replay(rs) == Ok(s) && WellCurrent(Attach(env, s)) && Normalise(env, Attach(env, s), a.event) == Ok(e)
    requires SafeId(a.eventId) && FindEvent(rs, a.eventId).None?
    requires a.expectedHead.Some? ==> Upper(a.expectedHead.value) == Head(rs)
    ensures var r := NewRecord(hash, rs, a, e); var c := Replay(rs + [r]);
      && (Decide(hash, env, rs, a).Ok? ==> Decide(hash, env, rs, a).value.Commit?)
      && (Decide(hash, env, rs, a).Ok? <==>
            c.Ok? && SourcesAvailable(Attach(env, c.value), DependentSources(e, a.eventId, Attach(env, c.value))))
  {
    hide Replay, Attach, Normalise, FindEvent, SafeId, Upper, NewRecord, DependentSources, SourcesAvailable;
  }

  /**
   * Over any journal that commits have built, an attempt is committed if and only if its id is safe and new, the
   * head is the one it expects, and the event is allowed in the state replayed and with the files as they are.
   */
  lemma {:induction false} CommitsExactly(
      hash: Entry -> string, env: Surroundings, rs: seq<Entry>, s: State, a: Attempt)
    requires Reachable(hash, rs) && Replay(rs) == Ok(s)
    ensures WellCurrent(s)
    ensures (Decide(hash, env, rs, a).Ok? && Decide(hash, env, rs, a).value.Commit?) <==>
      && SafeId(a.eventId) && a.eventId !in EventIds(rs)
      && (a.expectedHead.Some? ==> Upper(a.expectedHead.value) == Head(rs))
      && Allowed(env, s, a.event)
  {
    hide *;
    ReachableJournalsKeepInv(hash, rs);
    BareAgain(rs, s);
    InvWork(s);
    AttachKeeps(env, s);
    if SafeId(a.eventId) && a.eventId !in EventIds(rs)
      && (a.expectedHead.Some? ==> Upper(a.expectedHead.value) == Head(rs))
    {
      FreshIsNotFound(rs, a.eventId);
      DecideGoes(hash, env, rs, s, a);
      EventGoes(env, s, a.eventId, a.event);
    } else {
      NotCommitted(hash, env, rs, a);
    }
  }

  lemma {:induction false} NotCommitted(hash: Entry -> string, env: Surroundings, rs: seq<Entry>, a: Attempt)
    requires !SafeId(a.eventId) || a.eventId in EventIds(rs)
      || (a.expectedHead.Some? && Upper(a.expectedHead.value) != Head(rs))
    ensures !(Decide(hash, env, rs, a).Ok? && Decide(hash, env, rs, a).value.Commit?)
  {
    FindEventFinds(rs, a.eventId);
    hide Replay, Attach, Normalise, FindEvent, SafeId, Upper, NewRecord, DependentSources, SourcesAvailable;
  }

  // ---------------------------------------------------------------- what is recorded

  /** A method or effect is recorded as it is, or stripped to what it gives. */
  ghost predicate AnnotatedAs(sent: Annotation, kept: Annotation, asIs: bool) {
    if sent.Absent? || asIs then kept == sent else KeptAs(sent, kept)
  }

  /** The event on record is the one sent, but for stripped texts and two disclaimers. */
  ghost predicate RecordedFrom(sent: Event, e: Event) {
    match sent
    case SourceCaptured(_, _) => e == sent
    case ProgressMade(_) => e == sent
    case ActionReconciled(_) => e == sent
    case SourceDisposed(d) => e == SourceDisposed(d.(unsupported := {"semantic_authority", "objective_changed"}))
    case GapResolved(g) => e == GapResolved(g.(unsupported := {"semantic_authority", "objective_changed"}))
    case ActionStarted(a) =>
      && e.ActionStarted? && e.start == a.(methodRecord := e.start.methodRecord)
      && AnnotatedAs(a.methodRecord, e.start.methodRecord, a.methodRecord.Sheet?)
    case ActionFinished(r) =>
      && e.ActionFinished? && e.result == r.(effectRecord := e.result.effectRecord)
      && AnnotatedAs(r.effectRecord, e.result.effectRecord, false)
    case MethodSupplemented(m) =>
      && e.MethodSupplemented? && m.lateReason.Some? && KeptAs(m.methodRecord, e.supplement.methodRecord)
      && e.supplement
         == m.(methodRecord := e.supplement.methodRecord, lateReason := Some(Strip(m.lateReason.value)))
    case _ => false
  }

  lemma {:induction false} RecordedExactly(sent: Event, e: Event)
    requires Recorded(sent) == Ok(e) && !sent.SourceClassified?
    ensures RecordedFrom(sent, e)
  {
    match sent
    case ActionStarted(a) => MethodExactly(a.methodRecord);
    case ActionFinished(r) => EffectExactly(r.effectRecord);
    case MethodSupplemented(m) => MethodExactly(m.methodRecord);
    case _ =>
    hide ValidateMethod, ValidateEffect, KeptAs, Strip, SafeId, MethodFits, EffectFits;
  }

  /**
   * A commit adds one record, with the attempt's id, role and time at the head it named, and the event as
   * `RecordedFrom` says; the state is the replay's next, where a classification has done what `ClassifiedTo` says.
   */
  lemma {:induction false} CommittedExactly(
      hash: Entry -> string, env: Surroundings, rs: seq<Entry>, s: State, a: Attempt, r: Entry, t: State)
    returns (u: State)
    requires Reachable(hash, rs) && Replay(rs) == Ok(s) && Decide(hash, env, rs, a) == Ok(Commit(r, t))
    ensures WellCurrent(s) && r.eventId == a.eventId && r.actorRole == a.actorRole && r.timestamp == a.timestamp
    ensures Replay(rs + [r]) == Ok(u.(revision := |rs| + 1, head := r.eventHash))
    ensures t == Attach(env, u.(revision := |rs| + 1, head := r.eventHash))
    ensures !a.event.SourceClassified? ==> RecordedFrom(a.event, r.event)
    ensures a.event.SourceClassified? ==>
      var p := a.event.classification;
      r.event.SourceClassified? && p.disposition.Some? && ClassifiedTo(s, p, p.disposition.value, u)
  {
    hide *;
    ReachableJournalsKeepInv(hash, rs);
    BareAgain(rs, s);
    InvWork(s);
    CommitExtends(hash, env, rs, a, r, t);
    var s', t' := DecideOpened(hash, env, rs, a, r, t);
    u := StepOpened(s, r, t');
    ReplayStep(rs, s, r);
    if a.event.SourceClassified? {
      var p := a.event.classification;
      assert a.event == SourceClassified(p);
      NormalisedClassification(env, Attach(env, s), p, r.event);
      ClassificationMakes(env, s, r.eventId, p, r.event.classification, u);
      assert r.event == SourceClassified(r.event.classification);
    } else {
      NormalisedIsRecorded(env, Attach(env, s), a.event, r.event);
      RecordedExactly(a.event, r.event);
    }
  }

  lemma {:induction false} StepOpened(s: State, r: Entry, t: State) returns (u: State)
    requires WellCurrent(s) && Step(s, r) == Ok(t)
    ensures StepEvent(s, r.eventId, r.event) == Ok(u) && t == u.(revision := r.seqNo, head := r.eventHash)
  {
    u := StepEvent(s, r.eventId, r.event).value;
    hide StepEvent;
  }

  /** Recording the normalised payload in the bare state does what the payload sent would do with the files read. */
  lemma {:induction false} ClassificationMakes(
      env: Surroundings, s: State, id: Id, p: Classification, q: Classification, u: State)
    requires LedgerInv(s) && s == Bare(s) && WellCurrent(s)
    requires WellCurrent(Attach(env, s)) && ValidateContractEvent(p, Attach(env, s)) == Ok(q)
    requires StepEvent(s, id, SourceClassified(q)) == Ok(u)
    ensures p.disposition.Some? && ClassifiedTo(s, p, p.disposition.value, u)
  {
    hide *;
    var v := Attach(env, s);
    InvWork(s);
    AttachKeeps(env, s);
    InvWorkOf(v);
    NormalisationIsAFixpoint(p, q, v);
    AttachBare(env, s);
    ValidatorValidates(v, p, q);
    var w := ValidatedSteps(v, p, q);
    ClassifiedExactly(v, p);
    StepClassifiedOf(s, id, q, u);
    ValidatorValidates(s, q, q);
    var u' := ValidatedSteps(s, q, q);
    SameAdopted(env, s, q, w, u);
    SameClassifiedTo(env, s, p, p.disposition.value, w, u);
  }

  lemma {:induction false} StepClassifiedOf(s: State, id: Id, q: Classification, u: State)
    requires WellCurrent(s) && StepEvent(s, id, SourceClassified(q)) == Ok(u)
    ensures StepClassified(s, q) == Ok(u)
  {
    hide StepClassified;
  }

  lemma {:induction false} SameAdopted(env: Surroundings, s: State, q: Classification, w: State, u: State)
    requires Adopted(Attach(env, s), q, w) && Adopted(s, q, u)
    ensures w.sources == u.sources == s.sources && SameView(u, w)
    ensures u == s.(contracts := u.contracts, current := u.current, latestProgress := u.latestProgress,
                    open := u.open, catalog := u.catalog, unclassified := u.unclassified)
    ensures u.latestProgress == None
  {
    AttachView(env, s);
    assert Attach(env, s).catalog == s.catalog by { hide InspectGap, InspectSource; }
    hide Attach, Catalogue, AsMap, Without;
  }

  lemma {:induction false} SameOpensAs(
      p: Classification, d: Disposition, s: State, v: State, open: map<Id, Outcome>)
    requires SameView(s, v) && OpensAs(p, d, v, open)
    ensures OpensAs(p, d, s, open)
  {
    hide Begun, Turned, OutcomeIds, TouchedIds;
  }

  lemma {:induction false} SameRecordsAs(p: Classification, d: Disposition, s: State, v: State, n: Contract)
    requires CurrentContractKnown(s) && CurrentContractKnown(v) && SameView(s, v) && RecordsAs(p, d, v, n)
    ensures RecordsAs(p, d, s, n)
  {
    forall f ensures Effective(p, v, f) == Effective(p, s, f) {}
    hide Effective, AllBound, SameTransitions, Ascending, Lookup;
  }

  lemma {:induction false} AttachSameView(env: Surroundings, s: State)
    ensures SameView(s, Attach(env, s))
  {
    hide InspectGap, InspectSource;
  }

  lemma {:induction false} SameClassifiedTo(
      env: Surroundings, s: State, p: Classification, d: Disposition, w: State, u: State)
    requires WellCurrent(s) && WellCurrent(Attach(env, s)) && ClassifiedTo(Attach(env, s), p, d, w)
    requires SameView(u, w)
    requires u == s.(contracts := u.contracts, current := u.current, latestProgress := None,
                     open := u.open, catalog := u.catalog, unclassified := u.unclassified)
    ensures ClassifiedTo(s, p, d, u)
  {
    hide Attach, OpensAs, RecordsAs, Lists, Removed;
    var v := Attach(env, s);
    AttachSameView(env, s);
    SameOpensAs(p, d, s, v, u.open);
    SameRecordsAs(p, d, s, v, w.contracts[p.contract.contractId]);
  }
}
