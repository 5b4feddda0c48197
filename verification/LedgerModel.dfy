/** The objective ledger's entities: what a journal record may say and what replaying it yields. */
module LedgerModel {
  import opened Common
  import opened JournalRecord

  type Id = string

  /** Remaining fields of a JSON object: field name to canonical text. */
  type Fields = map<string, string>

  /** The value stored under a normative field. An absent field reads as `Null`. */
  datatype Value = Null | Text(text: string) | Other(json: string)

  /** A field that should hold a list. `truthy` is what the text would count as when tested. */
  datatype ListField<T> = Missing | NotAList(truthy: bool) | Items(items: seq<T>)

  datatype Field =
    | PrimaryObjective | MandatoryAcceptance | AcceptanceCriteria | Authority | Scope | Constraints
    | Permissions | ProhibitedSubstitutes | PreservationContracts | EvidenceRequirements
    | StoppingConditions | IndependentDeliverables | Methods | Preferences | ProofCeiling

  datatype Disposition = Initial | Add | Clarify | Correct | Replace | Withdraw {
    predicate Incremental() { Add? || Clarify? || Correct? }
  }

  datatype Status = Open | Satisfied | UserDeferred | UserWithdrawn | Superseded | OtherStatus(text: string)

  datatype TransitionOp = WithdrawOutcome | Defer | Supersede | Reopen | OtherOperation(text: string) {
    function Target(): Status
      requires !OtherOperation?
    {
      match this
      case WithdrawOutcome => UserWithdrawn
      case Defer => UserDeferred
      case Supersede => Superseded
      case Reopen => Open
    }
  }

  datatype Clause = Clause(id: Id, sourceId: Id, sourceRef: string, sourceSha: string, rest: Fields)

  datatype OutcomeTransition = OutcomeTransition(
    outcomeId: Id, operation: TransitionOp, fromStatus: Option<Status>, clauseIds: seq<Id>,
    note: Option<string>, unsupported: set<string>)

  datatype Outcome = Outcome(
    id: Id, status: Option<Status>, description: Option<string>, corrects: Option<Id>,
    evidence: seq<string>, transition: Option<OutcomeTransition>, rest: Fields)

  datatype NormativeTransition = NormativeTransition(
    field: Option<Field>, operation: Option<Disposition>, clauseIds: seq<Id>, note: Option<string>,
    unsupported: set<string>)

  datatype ContractBody = ContractBody(
    contractId: Id, parentId: Option<Id>, replacesId: Option<Id>, withdrawsId: Option<Id>,
    normative: map<Field, Value>, clauses: ListField<Clause>, outcomes: ListField<Outcome>,
    transitions: ListField<OutcomeTransition>, unsupported: set<string>)

  /** The payload of a `source_classified` event, before and after normalisation. */
  datatype Classification = Classification(
    sourceId: Id, disposition: Option<Disposition>, contract: ContractBody, note: Option<string>,
    supersedes: ListField<Id>, normative: ListField<NormativeTransition>, unsupported: set<string>)

  datatype Contract = Contract(
    body: ContractBody, sourceId: Id, disposition: Disposition,
    normative: seq<NormativeTransition>, supersedes: seq<Id>)

  datatype Source = Source(ref: string, sha: string, rest: Fields)

  datatype SourceDisposition =
    | InternalContinuation | Subagent | Irrelevant | NonUser | AlreadyIncorporatedDuplicate
    | OtherDisposition(text: string)

  datatype Disposal = Disposal(
    sourceId: Id, disposition: SourceDisposition, ground: Option<string>, contractId: Option<Id>,
    clauseIds: seq<Id>, unsupported: set<string>)

  datatype OutcomeUpdate = OutcomeUpdate(
    outcomeId: Id, status: Option<Status>, evidence: Option<seq<string>>, rest: Fields,
    unsupported: set<string>)

  datatype Progress = Progress(
    contractId: Id, updates: ListField<OutcomeUpdate>, rest: Fields, unsupported: set<string>)

  /** The optional record of an action's method or effect: a text or an object. Null counts as absent. */
  datatype Annotation = Absent | Note(text: string) | Sheet(fields: map<string, Value>) | NotASheet(json: string)

  datatype ActionStart = ActionStart(
    actionId: Id, contractId: Id, outcomeIds: seq<Id>, clauseIds: seq<Id>, retryOf: Option<Id>,
    description: Option<string>, methodRecord: Annotation, rest: Fields, unsupported: set<string>)

  datatype ActionStatus = Pending | Succeeded | Failed | Cancelled | UnknownEffect | OtherActionStatus(text: string)

  datatype Effect =
    | ConfirmedSucceeded | ConfirmedFailed | ConfirmedPartial | NoEffectConfirmed | EffectUnknown
    | OtherEffect(text: string)

  datatype ActionResult = ActionResult(
    actionId: Id, status: ActionStatus, effect: Option<Effect>, effectRecord: Annotation, rest: Fields,
    unsupported: set<string>)

  datatype Resolution =
    | ResolvedSucceeded | ResolvedFailed | ResolvedNoEffect | RemainsUnknown | OtherResolution(text: string) {
    predicate Terminal() { ResolvedSucceeded? || ResolvedFailed? || ResolvedNoEffect? }
  }

  datatype Reconciliation = Reconciliation(
    actionId: Id, resolution: Resolution, evidence: seq<string>, priorEvent: Option<Id>, rest: Fields,
    unsupported: set<string>)

  datatype RecordedReconciliation = RecordedReconciliation(eventId: Id, body: Reconciliation)

  datatype Supplement = Supplement(
    actionId: Id, methodRecord: Annotation, lateReason: Option<string>, evidence: seq<string>,
    unsupported: set<string>)

  datatype Action = Action(
    start: ActionStart, eventId: Id, status: ActionStatus, effect: Option<Effect>,
    outcomeEvent: Option<Id>, methodRecord: Annotation, effectRecord: Annotation, supplements: seq<Id>, rest: Fields)

  datatype GapDecision = SourceRecovered | OwnerDisposition | OtherDecision(text: string)

  datatype GapResolution = GapResolution(
    gapId: Id, decision: GapDecision, ground: Option<string>, sourceId: Option<Id>, unsupported: set<string>)

  datatype RecordedGapResolution = RecordedGapResolution(eventId: Id, body: GapResolution)

  /** The event type together with its payload. */
  datatype Event =
    | SourceCaptured(bootstrap: bool, source: Source)
    | SourceClassified(classification: Classification)
    | SourceDisposed(disposal: Disposal)
    | ProgressMade(progress: Progress)
    | ActionStarted(start: ActionStart)
    | ActionFinished(result: ActionResult)
    | ActionReconciled(reconciliation: Reconciliation)
    | MethodSupplemented(supplement: Supplement)
    | GapResolved(gap: GapResolution)
    | Lifecycle(note: string)
    | UnknownEvent(name: string)

  // ---------------------------------------------------------------- runtime frontiers

  /** What re-reading a source's immutable file finds. */
  datatype Integrity = Verified(bytes: nat) | SourceMissing | Modified | InvalidPath | Unreadable

  /** The decoded body of a file in the capture-gap directory. */
  datatype GapFile = InvalidGapFile | GapFile(observedSha: Option<string>, observedBytes: Option<int>)

  datatype GapStatus = Unresolved | InvalidGapRecord | Resolved | InvalidRecoveryRelation

  datatype GapEntry = GapEntry(observedSha: Option<string>, observedBytes: Option<int>, status: GapStatus)

  /** The files beside the journal that replay reads: source texts by reference and capture-gap records. */
  datatype Blob = Blob(sha: string, size: nat, readable: bool)
  datatype Surroundings = Surroundings(
    files: map<string, Blob>, outside: set<string>, gapFiles: map<Id, GapFile>)

  /** The state replay builds. `integrity`, `unproven` and `gaps` stay empty until the frontiers are attached. */
  datatype State = State(
    revision: nat, head: string,
    sources: map<Id, Source>, unclassified: seq<Id>, disposed: map<Id, Disposal>,
    integrity: map<Id, Integrity>, unproven: set<Id>,
    gaps: map<Id, GapEntry>, gapResolutions: map<Id, RecordedGapResolution>,
    contracts: map<Id, Contract>, current: Option<Id>,
    open: map<Id, Outcome>, catalog: map<Id, string>,
    actions: map<Id, Action>, reconciliations: map<Id, seq<RecordedReconciliation>>,
    latestProgress: Option<Progress>, latestLifecycle: Option<string>)

  /** Why a proposed transition is refused. */
  datatype Refusal =
    | UnsupportedFields | UnsafeId | UnknownSource | SourceConsumed | SourceUnavailable | BadDisposition
    | ContractExists | InitialNotFirst | LineageBroken | NoPrimaryObjective | BadClauseList | DuplicateClause
    | ClauseUnbound | BadOutcomeList | WithdrawPublishes | DuplicateOutcome | BadOutcomeStatus
    | NoOutcomeDescription | DescriptionChanged | OutcomesDropped | BadSupersededList | OnlyCorrectSupersedes
    | UnknownSuperseded | ClausesDropped | ClauseChanged | ObjectiveRewritten | NewOutcomeNotOpen
    | BadTransitionList | UnboundCorrection | BadNormativeField | WrongNormativeOperation | NoClauseAuthority
    | NotBoundToSource | NormativeMismatch | BadOutcomeTransition | BadTransitionOperation | StaleFromStatus
    | DuplicateAuthority | BadCorrectedOutcome | CorrectionNotSuperseding | NotIncremental
    | NoGround | WrongContract | NoUpdateList | UnknownOutcome | Retired | ActionExists | RetryUnknown
    | RetryPending | ActionUnknown | ActionSettled | BadActionOutcome | EffectMismatch | NotUnknownEffect
    | BrokenReconciliationChain | BadResolution | NoEvidence | MethodExists | GapUnknown | GapAlreadyResolved
    | GapRecoveryInexact | OwnerClaimsSource | ReconciliationRequired | NoActiveContract | NoDescription
    | UnknownEventType | BadMethod | SourceFileChanged | CasMismatch | EventCollision

  type Checked<+T> = Result<T, Refusal>

  function EmptyState(): State {
    State(0, ZERO_HASH, map[], [], map[], map[], {}, map[], map[], map[], None, map[], map[], map[], map[], None, None)
  }

  function ListOf<T>(f: ListField<T>): seq<T> {
    if f.Items? then f.items else []
  }

  function ClausesOf(c: Contract): seq<Clause> {
    ListOf(c.body.clauses)
  }

  function ClauseIds(cs: seq<Clause>): set<Id> {
    set c | c in cs :: c.id
  }

  function Lookup(m: map<Field, Value>, f: Field): Value {
    if f in m then m[f] else Null
  }

  function CurrentContractSources(s: State): set<Id> {
    if s.current.Some? && s.current.value in s.contracts
    then set c | c in ClausesOf(s.contracts[s.current.value]) :: c.sourceId
    else {}
  }

  /** The clauses in force: none without a current contract. */
  function CurrentClauses(s: State): seq<Clause> {
    if s.current.Some? && s.current.value in s.contracts then ClausesOf(s.contracts[s.current.value]) else []
  }

  predicate SourcesAvailable(s: State, ids: set<Id>) {
    forall id | id in ids :: id in s.integrity && s.integrity[id].Verified?
  }
}
