/** Sending an event under an id that is already committed: when it is reported as a duplicate. */
module LedgerRetries {
  import opened Common
  import opened LedgerModel
  import opened LedgerContract
  import opened LedgerMethods
  import opened LedgerFixpoint
  import opened LedgerReplay
  import opened LedgerInvariant
  import opened LedgerLineage
  import opened LedgerEffects
  import opened LedgerAppend
  import opened LedgerAppendProofs
  import opened JournalRecord

  // ---------------------------------------------------------------- what append had checked

  /** What every recorded event satisfies by itself. */
  predicate SoundAlone(e: Event) {
    match e
    case SourceCaptured(_, _) => true
    case SourceClassified(_) => true
    case SourceDisposed(_) => true
    case ProgressMade(p) => CheckProgress(p).Ok? && SafeId(p.contractId)
    case ActionStarted(a) =>
      && SafeId(a.contractId) && a.outcomeIds != [] && a.clauseIds != []
      && (forall id | id in a.outcomeIds + a.clauseIds :: SafeId(id))
      && a.description.Some? && !Blank(a.description.value)
    case ActionFinished(_) => true
    case ActionReconciled(_) => true
    case MethodSupplemented(_) => true
    case GapResolved(g) =>
      && SafeId(g.gapId) && !g.decision.OtherDecision? && g.ground.Some? && !Blank(g.ground.value)
      && (g.decision.SourceRecovered? ==> g.sourceId.Some? && SafeId(g.sourceId.value))
      && (g.decision.OwnerDisposition? ==> g.sourceId.None?)
    case Lifecycle(_) => false
    case UnknownEvent(_) => false
  }

  /** Everything but a classification is recorded as `Recorded` says, in whatever state it is accepted. */
  lemma {:induction false} NormalisedIsRecorded(env: Surroundings, s: State, e: Event, e': Event)
    requires WellCurrent(s) && Normalise(env, s, e) == Ok(e')
    ensures e'.SourceClassified? <==> e.SourceClassified?
    ensures !e.SourceClassified? ==> Recorded(e) == Ok(e') && SoundAlone(e')
  {
    hide ValidateContractEvent, CheckDisposal, SafeId, Blank, ReconciliationPending, ExactRecovery, UnresolvedGaps,
      ClauseIds, CurrentContractSources, SourcesAvailable, CheckProgress, ValidateMethod, ValidateEffect,
      RecordSupplement;
  }

  lemma {:induction false} RecordedKind(e: Event, e': Event)
    requires Recorded(e) == Ok(e')
    ensures e'.SourceClassified? <==> e.SourceClassified?
    ensures e'.SourceDisposed? <==> e.SourceDisposed?
  {
    hide ValidateMethod, ValidateEffect, RecordSupplement;
  }

  /** Every committed record was sent by somebody, and is what append records of what was sent. */
  lemma {:induction false} CommittedWasSent(hash: Entry -> string, rs: seq<Entry>, i: nat) returns (sent: Event)
    requires Reachable(hash, rs) && i < |rs|
    ensures SafeId(rs[i].eventId)
    ensures !rs[i].event.SourceClassified? ==> SoundAlone(rs[i].event) && Recorded(sent) == Ok(rs[i].event)
  {
    var front, last := rs[..|rs| - 1], rs[|rs| - 1];
    hide *;
    ReachableLast(hash, rs);
    if i == |rs| - 1 {
      sent := PossibleWasSent(hash, front, last);
    } else {
      assert front[i] == rs[i];
      sent := CommittedWasSent(hash, front, i);
    }
  }

  lemma {:induction false} PossibleWasSent(hash: Entry -> string, rs: seq<Entry>, r: Entry) returns (sent: Event)
    requires CommitPossible(hash, rs, r)
    ensures SafeId(r.eventId)
    ensures !r.event.SourceClassified? ==> SoundAlone(r.event) && Recorded(sent) == Ok(r.event)
  {
    var env, a, t :| Decide(hash, env, rs, a) == Ok(Commit(r, t));
    DecidedSafely(hash, env, rs, a, r, t);
    hide *;
    var s, u := DecideOpened(hash, env, rs, a, r, t);
    NormalisedIsRecorded(env, Attach(env, s), a.event, r.event);
    sent := a.event;
  }

  lemma {:induction false} DecidedSafely(
    hash: Entry -> string, env: Surroundings, rs: seq<Entry>, a: Attempt, r: Entry, t: State)
    requires Decide(hash, env, rs, a) == Ok(Commit(r, t))
    ensures SafeId(r.eventId) && r.eventId == a.eventId && r.actorRole == a.actorRole
  {
    hide Replay, Attach, Normalise, FindEvent, SafeId, Upper, DependentSources;
  }

  // ---------------------------------------------------------------- what a committed record leaves behind

  /** What every later state still shows of a committed event. */
  ghost predicate Left(s: State, e: Event) {
    match e
    case SourceDisposed(d) => d.sourceId in s.disposed
    case GapResolved(g) => g.gapId in s.gapResolutions && s.gapResolutions[g.gapId].body == g
    case ActionStarted(a) =>
      && a.contractId in s.contracts && Elements(a.clauseIds) <= ClauseIds(ClausesOf(s.contracts[a.contractId]))
      && (s.current == Some(a.contractId) ==> Elements(a.outcomeIds) <= s.open.Keys)
    case _ => true
  }

  lemma {:induction false} EventLeaves(s: State, id: Id, e: Event, t: State)
    requires WellCurrent(s) && StepEvent(s, id, e) == Ok(t)
    ensures Left(t, e)
  {
    hide StepClassified, StepProgress, StepFinished, StepReconciled, StepSupplemented, CheckDisposal, SafeId, Blank,
      ClauseIds;
  }

  /** Disposals and gap resolutions are never taken back. */
  predicate KeepsDecisions(s: State, t: State) {
    && s.disposed.Keys <= t.disposed.Keys
    && forall g | g in s.gapResolutions :: g in t.gapResolutions && t.gapResolutions[g] == s.gapResolutions[g]
  }

  lemma {:induction false} OtherKeepsDecisions(s: State, id: Id, e: Event, t: State)
    requires WellCurrent(s) && StepEvent(s, id, e) == Ok(t) && !e.SourceClassified?
    ensures KeepsDecisions(s, t)
  {
    hide StepClassified, ApplyUpdates, CheckProgress, CheckDisposal, SafeId, Blank, ExpectedEffect, EffectOpen, Without,
      ClauseIds;
  }

  lemma {:induction false} ClassifiedKeepsLeft(s: State, p: Classification, t: State, e: Event)
    requires WellCurrent(s) && OpenOutcomesKept(s) && StepClassified(s, p) == Ok(t) && Left(s, e)
    ensures Left(t, e)
  {
    hide StepClassified, Catalogue, AsMap, Without, ValidateContractEvent, OpenOutcomesKept, Passes, ClauseExact,
      DistinctClauses, DistinctIds, ClauseIds, ListOf;
    var q := ClassifiedOpened(s, p, t);
    assert q.contract.contractId !in s.contracts;
  }

  lemma {:induction false} OtherKeepsLeft(s: State, id: Id, other: Event, t: State, e: Event)
    requires WellCurrent(s) && StepEvent(s, id, other) == Ok(t) && !other.SourceClassified? && Left(s, e)
    ensures Left(t, e)
  {
    OtherKeepsDecisions(s, id, other, t);
    OtherStepKeeps(s, id, other, t);
    hide StepEvent, ClauseIds;
  }

  lemma {:induction false} StepKeepsLeft(s: State, r: Entry, t: State, e: Event)
    requires WellCurrent(s) && OpenOutcomesKept(s) && Step(s, r) == Ok(t) && Left(s, e)
    ensures Left(t, e)
  {
    var mid := StepEvent(s, r.eventId, r.event).value;
    if r.event.SourceClassified? {
      hide StepClassified, OpenOutcomesKept, ClauseIds;
      ClassifiedKeepsLeft(s, r.event.classification, mid, e);
    } else {
      hide StepEvent, OpenOutcomesKept, ClauseIds;
      OtherKeepsLeft(s, r.eventId, r.event, mid, e);
    }
  }

  lemma {:induction false} StepLeaves(s: State, r: Entry, t: State)
    requires WellCurrent(s) && Step(s, r) == Ok(t)
    ensures Left(t, r.event)
  {
    var mid := StepEvent(s, r.eventId, r.event).value;
    hide StepEvent, ClauseIds;
    EventLeaves(s, r.eventId, r.event, mid);
  }

  lemma {:induction false} JournalLeaves(rs: seq<Entry>, s: State, i: nat)
    requires UniqueIds(rs) && Replay(rs) == Ok(s) && i < |rs|
    ensures Left(s, rs[i].event)
  {
    hide *;
    var front, last := rs[..|rs| - 1], rs[|rs| - 1];
    assert front + [last] == rs;
    PrefixUnique(front, [last]);
    var u := ReplayLast(rs, s);
    ReplayKeepsInv(front);
    InvWork(u);
    if i == |rs| - 1 {
      StepLeaves(u, last, s);
    } else {
      assert front[i] == rs[i];
      JournalLeaves(front, u, i);
      StepKeepsLeft(u, last, s, rs[i].event);
    }
  }

  // ---------------------------------------------------------------- when a repeat is a duplicate

  /**
   * What a caller can look up before sending again what is recorded as `e`, in the ledger's state `s` and the
   * files around it. What consumed a source is never repeated; a gap resolution is, only if its gap file has
   * become invalid since.
   */
  predicate Repeatable(env: Surroundings, s: State, e: Event) {
    match e
    case SourceCaptured(_, source) => source.ref in env.files && env.files[source.ref].sha == Upper(source.sha)
    case ProgressMade(p) =>
      s.current == Some(p.contractId) && SourcesAvailable(Attach(env, s), CurrentContractSources(s))
    case ActionStarted(a) => s.current == Some(a.contractId) && !ReconciliationPending(Attach(env, s))
    case ActionFinished(_) => true
    case ActionReconciled(_) => true
    case MethodSupplemented(_) => true
    case GapResolved(g) =>
      g.decision.OwnerDisposition? && g.gapId in env.gapFiles && env.gapFiles[g.gapId].InvalidGapFile?
    case _ => false
  }

  lemma {:induction false} AttachView(env: Surroundings, s: State)
    ensures var t := Attach(env, s);
      && t.current == s.current && t.contracts == s.contracts && t.open == s.open && t.unclassified == s.unclassified
      && t.sources == s.sources && t.gapResolutions == s.gapResolutions
      && CurrentContractSources(t) == CurrentContractSources(s)
  {
    hide InspectGap, InspectSource;
  }

  lemma {:induction false} ProgressRepeats(env: Surroundings, s: State, p: Progress)
    requires SoundAlone(ProgressMade(p))
    ensures NormaliseProgress(Attach(env, s), p).Ok? <==> Repeatable(env, s, ProgressMade(p))
  {
    AttachView(env, s);
    hide Attach, CheckProgress, SafeId, CurrentContractSources, SourcesAvailable;
  }

  /** With nothing pending, the sources of the current contract are available. */
  lemma {:induction false} ReconciledIsAvailable(env: Surroundings, s: State)
    requires WellCurrent(s) && ClausesExact(s) && !ReconciliationPending(Attach(env, s))
    ensures SourcesAvailable(Attach(env, s), CurrentContractSources(s))
  {
    AttachView(env, s);
    var t := AttachIntegrity(env, s);
    assert Attach(env, s).integrity == t.integrity && Attach(env, s).unproven == t.unproven by {
      hide InspectGap, InspectSource;
    }
    assert CurrentContractSources(s) <= s.sources.Keys by { CurrentSourcesKnown(s); }
    hide InspectGap, InspectSource, AttachGaps, CurrentContractSources, UnresolvedGaps, ClausesExact;
    forall id | id in CurrentContractSources(s) ensures id in t.integrity && t.integrity[id].Verified? {
      assert id !in (CurrentContractSources(s) + Elements(s.unclassified)) * t.unproven;
    }
  }

  lemma {:induction false} CurrentSourcesKnown(s: State)
    requires WellCurrent(s) && ClausesExact(s)
    ensures CurrentContractSources(s) <= s.sources.Keys
  {
    hide DistinctClauses;
    if s.current.Some? {
      forall c | c in ClausesOf(s.contracts[s.current.value]) ensures c.sourceId in s.sources {
        assert ClauseExact(c, s.sources);
      }
    }
  }

  lemma {:induction false} StartRepeats(env: Surroundings, s: State, a: ActionStart, e: Event)
    requires WellCurrent(s) && WellCurrent(Attach(env, s)) && ClausesExact(s)
    requires Recorded(ActionStarted(a)) == Ok(e) && SoundAlone(e) && Left(s, e)
    ensures NormaliseStart(Attach(env, s), a).Ok? <==> Repeatable(env, s, e)
  {
    AttachView(env, s);
    assert e == ActionStarted(a.(methodRecord := e.start.methodRecord)) by { hide ValidateMethod; }
    if !ReconciliationPending(Attach(env, s)) { ReconciledIsAvailable(env, s); }
    hide Attach, SafeId, Blank, CurrentContractSources, SourcesAvailable, ReconciliationPending, ClauseIds,
      ClausesExact, ValidateMethod;
  }

  lemma {:induction false} RecoveryIgnoresGaps(
      env: Surroundings, s: State, sha: Option<string>, bytes: Option<int>, id: Id)
    ensures ExactRecovery(AttachIntegrity(env, s), sha, bytes, id) == ExactRecovery(Attach(env, s), sha, bytes, id)
  {
    hide InspectGap, InspectSource, IsSha256;
  }

  lemma {:induction false} GapAttached(env: Surroundings, s: State, id: Id)
    ensures id in Attach(env, s).gaps <==> id in env.gapFiles
    ensures id in env.gapFiles ==> Attach(env, s).gaps[id] == InspectGap(AttachIntegrity(env, s), id, env.gapFiles[id])
  {
    hide InspectGap, InspectSource;
  }

  /** A resolved gap is listed as unresolved again only when its file has become invalid. */
  lemma {:induction false} GapRepeats(env: Surroundings, s: State, g: GapResolution, e: Event)
    requires Recorded(GapResolved(g)) == Ok(e) && SoundAlone(e) && Left(s, e)
    ensures NormaliseGap(Attach(env, s), g).Ok? <==> Repeatable(env, s, e)
  {
    var t, u := Attach(env, s), AttachIntegrity(env, s);
    GapAttached(env, s, g.gapId);
    if g.gapId in env.gapFiles {
      var file := env.gapFiles[g.gapId];
      if file.GapFile? && g.decision.SourceRecovered? {
        RecoveryIgnoresGaps(env, s, file.observedSha, file.observedBytes, g.sourceId.value);
      }
    }
    assert u.gapResolutions == s.gapResolutions;
    hide Attach, AttachIntegrity, SafeId, Blank, IsSha256;
  }

  lemma {:induction false} DisposalRepeats(env: Surroundings, s: State, d: Disposal, e: Event)
    requires SourcesConserved(s) && WellCurrent(Attach(env, s))
    requires Recorded(SourceDisposed(d)) == Ok(e) && Left(s, e)
    ensures NormaliseDisposal(Attach(env, s), d).Err?
  {
    AttachView(env, s);
    assert d.sourceId !in s.unclassified by { assert d.sourceId !in Elements(s.unclassified); }
    hide Attach, SafeId, CheckDisposal, SourcesAvailable, ClassifiedSources;
  }

  /** What is recorded as `e` is accepted again exactly when `e` is repeatable. */
  lemma {:induction false} NormalisesAgain(env: Surroundings, s: State, sent: Event, e: Event)
    requires LedgerInv(s) && WellCurrent(s) && WellCurrent(Attach(env, s))
    requires Recorded(sent) == Ok(e) && SoundAlone(e) && Left(s, e) && !e.SourceClassified?
    ensures Normalise(env, Attach(env, s), sent) == Ok(e) <==> Repeatable(env, s, e)
  {
    hide Attach, LedgerInv, SourcesConserved, ClausesExact, NormaliseDisposal, NormaliseProgress, NormaliseStart,
      NormaliseGap, RecordSupplement, ValidateMethod, ValidateEffect, CurrentContractSources, ReconciliationPending,
      SourcesAvailable, Left;
    if Normalise(env, Attach(env, s), sent).Ok? {
      NormalisedIsRecorded(env, Attach(env, s), sent, Normalise(env, Attach(env, s), sent).value);
    }
    InvParts(s);
    match sent
    case SourceDisposed(d) => DisposalRepeats(env, s, d, e);
    case ProgressMade(p) => ProgressRepeats(env, s, p);
    case ActionStarted(a) => StartRepeats(env, s, a, e);
    case GapResolved(g) => GapRepeats(env, s, g, e);
    case _ =>
  }

  lemma {:induction false} InvParts(s: State)
    requires LedgerInv(s)
    ensures SourcesConserved(s) && ClausesExact(s) && WellCurrent(s)
  {
  }

  /** What `append` makes of an attempt whose event id is already in the journal. */
  lemma {:induction false} DecideKnown(
    hash: Entry -> string, env: Surroundings, rs: seq<Entry>, s: State, a: Attempt, r: Entry)
    requires Replay(rs) == Ok(s) && FindEvent(rs, a.eventId) == Some(r) && SafeId(a.eventId)
    requires a.expectedHead.Some? ==> Upper(a.expectedHead.value) == Head(rs)
    ensures WellCurrent(s) && WellCurrent(Attach(env, s))
    ensures Decide(hash, env, rs, a) ==
      match Normalise(env, Attach(env, s), a.event)
      case Err(refusal) => Err(refusal)
      case Ok(e) => if r.event == e && r.actorRole == a.actorRole then Ok(Duplicate(r)) else Err(EventCollision)
  {
    AttachKeeps(env, s);
    hide Replay, Attach, Normalise, FindEvent, SafeId, Upper, DependentSources;
  }

  lemma {:induction false} NeverRepeatable(env: Surroundings, e: Event)
    ensures e.SourceClassified? || e.SourceDisposed? ==> forall s :: !Repeatable(env, s, e)
  {
  }

  lemma {:induction false} SourceKept(p: Classification, s: State)
    requires WellCurrent(s) && ValidateContractEvent(p, s).Ok?
    ensures ValidateContractEvent(p, s).value.sourceId == p.sourceId
  {
    hide ValidateClauseRefs, ValidateOutcomes, SettleOutcomes, CheckLineage, CheckObjective, Inherit,
      CheckClassifiedSource;
  }

  lemma {:induction false} ConsumedIsNotPending(env: Surroundings, s: State, id: Id)
    requires SourcesConserved(s) && id in ClassifiedSources(s) && id in s.sources
    ensures id !in Attach(env, s).unclassified
  {
    AttachView(env, s);
    assert id !in s.unclassified by { assert id !in Elements(s.unclassified); }
    hide Attach;
  }

  /**
   * Any attempt under a committed id, against the current head or none: it commits nothing, and it is reported
   * as the committed record's duplicate if and only if its role is the record's, append would record of it
   * what it has recorded, and that is repeatable now. Results, reconciliations and method supplements always
   * are repeatable; classifications and disposals never, because normalisation runs before the search for the
   * event id.
   */
  lemma {:induction false} RepeatIsDuplicateIff(
      hash: Entry -> string, env: Surroundings, rs: seq<Entry>, i: nat, a: Attempt)
    requires Reachable(hash, rs) && i < |rs| && a.eventId == rs[i].eventId
    requires a.expectedHead.Some? ==> Upper(a.expectedHead.value) == Head(rs)
    ensures Replay(rs).Ok?
    ensures Decide(hash, env, rs, a) == Ok(Duplicate(rs[i])) <==>
      && a.actorRole == rs[i].actorRole && Recorded(a.event) == Ok(rs[i].event)
      && Repeatable(env, Replay(rs).value, rs[i].event)
    ensures Decide(hash, env, rs, a) == Ok(Duplicate(rs[i])) || Decide(hash, env, rs, a).Err?
  {
    NeverRepeatable(env, rs[i].event);
    hide *;
    ReachableJournalsKeepInv(hash, rs);
    var _ := CommittedWasSent(hash, rs, i);
    FindInUnique(rs, i);
    var s := Replay(rs).value;
    DecideKnown(hash, env, rs, s, a, rs[i]);
    if Normalise(env, Attach(env, s), a.event).Ok? {
      NormalisedIsRecorded(env, Attach(env, s), a.event, Normalise(env, Attach(env, s), a.event).value);
    }
    if rs[i].event.SourceClassified? {
      ClassifiedNeverAgain(hash, env, rs, s, i, a);
    } else if Recorded(a.event) == Ok(rs[i].event) {
      JournalLeaves(rs, s, i);
      NormalisesAgain(env, s, a.event, rs[i].event);
    }
  }

  lemma {:induction false} ClassifiedNeverAgain(
      hash: Entry -> string, env: Surroundings, rs: seq<Entry>, s: State, i: nat, a: Attempt)
    requires Reachable(hash, rs) && i < |rs| && Replay(rs) == Ok(s) && rs[i].event.SourceClassified?
    requires WellCurrent(Attach(env, s))
    ensures Normalise(env, Attach(env, s), a.event) != Ok(rs[i].event)
  {
    if Normalise(env, Attach(env, s), a.event) == Ok(rs[i].event) {
      hide *;
      NormalisedIsRecorded(env, Attach(env, s), a.event, rs[i].event);
      var p := a.event.classification;
      assert a.event == SourceClassified(p);
      NormalisedClassification(env, Attach(env, s), p, rs[i].event);
      SourceKept(p, Attach(env, s));
      ReachableJournalsKeepInv(hash, rs);
      ClassifiedStaysConsumed(rs, s, i);
      InvSources(s);
      ConsumedIsNotPending(env, s, p.sourceId);
      ConsumedRejected(p, Attach(env, s));
    }
  }

  /**
   * An attempt that was committed, sent once more as it was sent then: a duplicate if and only if what it
   * recorded is repeatable. A classification is not among these; its source is consumed.
   */
  lemma {:induction false} ResentIsDuplicateIff(
      hash: Entry -> string, env: Surroundings, before: Surroundings, rs: seq<Entry>, i: nat, a: Attempt, t: State)
    requires Reachable(hash, rs) && i < |rs| && Decide(hash, before, rs[..i], a) == Ok(Commit(rs[i], t))
    requires !a.event.SourceClassified?
    ensures Replay(rs).Ok?
    ensures Decide(hash, env, rs, a.(expectedHead := None)) == Ok(Duplicate(rs[i])) <==>
      Repeatable(env, Replay(rs).value, rs[i].event)
  {
    hide *;
    DecidedSafely(hash, before, rs[..i], a, rs[i], t);
    var s, u := DecideOpened(hash, before, rs[..i], a, rs[i], t);
    NormalisedIsRecorded(before, Attach(before, s), a.event, rs[i].event);
    RepeatIsDuplicateIff(hash, env, rs, i, a.(expectedHead := None));
  }

  // ---------------------------------------------------------------- sending what was recorded

  /**
   * The recorded form can be sent as it is. The note of a method sent as text is no field of a method, and
   * the disclaimers that append adds are no fields of a disposal or a gap resolution.
   */
  predicate SendsAsRecorded(e: Event) {
    match e
    case SourceDisposed(_) => false
    case GapResolved(_) => false
    case MethodSupplemented(m) => m.methodRecord.Sheet? && "note" !in m.methodRecord.fields
    case _ => true
  }

  lemma {:induction false} SupplementAgain(m: Supplement, r: Supplement)
    requires RecordSupplement(m) == Ok(r)
    ensures r.methodRecord.Sheet?
    ensures RecordSupplement(r) == if "note" in r.methodRecord.fields then Err(UnsupportedFields) else Ok(r)
  {
    hide ValidateMethod, Strip, SafeId, Blank;
    MethodAgain(m.methodRecord, r.methodRecord);
    StripTwice(m.lateReason.value);
  }

  /** What append recorded is recorded as itself again exactly when it can be sent as recorded. */
  lemma {:induction false} RecordedAgain(sent: Event, e: Event)
    requires Recorded(sent) == Ok(e)
    ensures Recorded(e) == Ok(e) <==> SendsAsRecorded(e)
  {
    match sent
    case ActionStarted(a) =>
      if !a.methodRecord.Absent? && !a.methodRecord.Sheet? { MethodAgain(a.methodRecord, e.start.methodRecord); }
      hide ValidateMethod;
    case ActionFinished(r) =>
      if !r.effectRecord.Absent? { EffectAgain(r.effectRecord, e.result.effectRecord); }
      hide ValidateEffect;
    case MethodSupplemented(m) =>
      SupplementAgain(m, e.supplement);
      hide RecordSupplement;
    case _ =>
  }

  /** An attempt that sends a record's own payload: a duplicate if and only if that can be sent, and now. */
  lemma {:induction false} RecordedFormIsDuplicateIff(
      hash: Entry -> string, env: Surroundings, rs: seq<Entry>, i: nat, a: Attempt)
    requires Reachable(hash, rs) && i < |rs| && !rs[i].event.SourceClassified?
    requires a.eventId == rs[i].eventId && a.event == rs[i].event && a.actorRole == rs[i].actorRole
    requires a.expectedHead.Some? ==> Upper(a.expectedHead.value) == Head(rs)
    ensures Replay(rs).Ok?
    ensures Decide(hash, env, rs, a) == Ok(Duplicate(rs[i])) <==>
      SendsAsRecorded(rs[i].event) && Repeatable(env, Replay(rs).value, rs[i].event)
  {
    hide *;
    var sent := CommittedWasSent(hash, rs, i);
    RecordedAgain(sent, rs[i].event);
    RepeatIsDuplicateIff(hash, env, rs, i, a);
  }

  lemma {:induction false} PlainTexts()
    ensures Strip("x") == "x" && Bounded("x") && Strip("late") == "late" && Bounded("late") && !Blank("ref")
  {
    assert !IsSpace("x"[0]) && !IsSpace("late"[0]) && !IsSpace("late"[3]) && !IsSpace("ref"[0]);
  }

  /** A method sent as text is recorded as a note, and the note is refused when it is sent. */
  lemma {:induction false} NoteIsRefused(actionId: Id)
    requires SafeId(actionId)
    ensures var sent := Supplement(actionId, Note("x"), Some("late"), ["ref"], {});
      var recorded := sent.(methodRecord := Sheet(map["note" := Text("x")]));
      && Recorded(MethodSupplemented(sent)) == Ok(MethodSupplemented(recorded))
      && Recorded(MethodSupplemented(recorded)) == Err(UnsupportedFields)
  {
    hide SafeId, Strip, Bounded, Blank;
    PlainTexts();
    var m := Supplement(actionId, Note("x"), Some("late"), ["ref"], {});
    assert RecordSupplement(m) == Ok(m.(methodRecord := Sheet(map["note" := Text("x")])));
    hide RecordSupplement;
    SupplementAgain(m, m.(methodRecord := Sheet(map["note" := Text("x")])));
  }
}
