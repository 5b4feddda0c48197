/** Appending to the ledger: runtime frontiers, normalisation, the commit decision and preflight. */
module LedgerAppend {
  import opened Common
  import opened LedgerModel
  import opened LedgerContract
  import opened LedgerMethods
  import opened LedgerReplay
  import opened JournalRecord

  // ---------------------------------------------------------------- runtime frontiers

  function InspectSource(env: Surroundings, source: Source): Integrity {
    if source.ref in env.outside then InvalidPath
    else if source.ref !in env.files then SourceMissing
    else if !env.files[source.ref].readable then Unreadable
    else if env.files[source.ref].sha == source.sha then Verified(env.files[source.ref].size)
    else Modified
  }

  function AttachIntegrity(env: Surroundings, s: State): State {
    var integrity := map id | id in s.sources :: InspectSource(env, s.sources[id]);
    s.(integrity := integrity, unproven := set id | id in integrity && !integrity[id].Verified?)
  }

  predicate IsSha256(s: string) {
    |s| == 64 && forall i | 0 <= i < |s| :: 'A' <= s[i] <= 'F' || '0' <= s[i] <= '9'
  }

  /** The recovered source is byte for byte what the capture gap observed. */
  predicate ExactRecovery(s: State, observedSha: Option<string>, observedBytes: Option<int>, sourceId: Id) {
    && observedSha.Some? && IsSha256(observedSha.value) && observedBytes.Some? && observedBytes.value >= 0
    && sourceId in s.sources && sourceId in s.integrity && s.integrity[sourceId].Verified?
    && s.sources[sourceId].sha == observedSha.value && s.integrity[sourceId].bytes == observedBytes.value
  }

  function InspectGap(s: State, id: Id, file: GapFile): GapEntry {
    if file.InvalidGapFile? || !SafeId(id) then GapEntry(None, None, InvalidGapRecord)
    else
      var status :=
        if id !in s.gapResolutions then Unresolved
        else
          var g := s.gapResolutions[id].body;
          if g.decision.SourceRecovered?
             && !ExactRecovery(s, file.observedSha, file.observedBytes,
                  if g.sourceId.Some? then g.sourceId.value else "")
          then InvalidRecoveryRelation
          else Resolved;
      GapEntry(file.observedSha, file.observedBytes, status)
  }

  function AttachGaps(env: Surroundings, s: State): State {
    s.(gaps := map id | id in env.gapFiles :: InspectGap(s, id, env.gapFiles[id]))
  }

  function Attach(env: Surroundings, s: State): State {
    AttachGaps(env, AttachIntegrity(env, s))
  }

  function UnresolvedGaps(s: State): set<Id> {
    set id | id in s.gaps && !s.gaps[id].status.Resolved?
  }

  predicate ReconciliationPending(s: State) {
    || s.unclassified != []
    || UnresolvedGaps(s) != {}
    || (CurrentContractSources(s) + Elements(s.unclassified)) * s.unproven != {}
  }

  // ---------------------------------------------------------------- normalisation

  /** What append adds to the payloads that carry no authority. */
  const DISCLAIMERS: set<string> := {"semantic_authority", "objective_changed"}

  /** An action may be started without a method, and with an object that is recorded as it is. */
  function RecordMethod(v: Annotation): Checked<Annotation> {
    if v.Absent? || v.Sheet? then Ok(v) else ValidateMethod(v)
  }

  function RecordEffect(v: Annotation): Checked<Annotation> {
    if v.Absent? then Ok(v) else ValidateEffect(v)
  }

  function RecordSupplement(m: Supplement): Checked<Supplement> {
    if m.unsupported != {} then Err(UnsupportedFields)
    else if !SafeId(m.actionId) then Err(UnsafeId)
    else
      var record :- ValidateMethod(m.methodRecord);
      if m.lateReason.None? || !Bounded(m.lateReason.value) then Err(NoGround)
      else if m.evidence == [] || exists e | e in m.evidence :: Blank(e) then Err(NoEvidence)
      else Ok(m.(methodRecord := record, lateReason := Some(Strip(m.lateReason.value))))
  }

  /**
   * The event that is recorded for one that is sent, as far as that does not depend on the state. The
   * payload of a classification depends on it and is left alone here.
   */
  function Recorded(e: Event): Checked<Event> {
    match e
    case SourceCaptured(_, _) => Ok(e)
    case SourceClassified(_) => Ok(e)
    case SourceDisposed(d) =>
      if d.unsupported != {} then Err(UnsupportedFields) else Ok(SourceDisposed(d.(unsupported := DISCLAIMERS)))
    case ProgressMade(_) => Ok(e)
    case ActionStarted(a) =>
      if a.unsupported != {} then Err(UnsupportedFields)
      else
        var record :- RecordMethod(a.methodRecord);
        Ok(ActionStarted(a.(methodRecord := record)))
    case ActionFinished(r) =>
      if r.unsupported != {} then Err(UnsupportedFields)
      else
        var record :- RecordEffect(r.effectRecord);
        Ok(ActionFinished(r.(effectRecord := record)))
    case ActionReconciled(r) => if r.unsupported != {} then Err(UnsupportedFields) else Ok(e)
    case MethodSupplemented(m) =>
      var supplement :- RecordSupplement(m);
      Ok(MethodSupplemented(supplement))
    case GapResolved(g) =>
      if g.unsupported != {} then Err(UnsupportedFields) else Ok(GapResolved(g.(unsupported := DISCLAIMERS)))
    case Lifecycle(_) => Err(UnknownEventType)
    case UnknownEvent(_) => Err(UnknownEventType)
  }

  function NormaliseDisposal(s: State, d: Disposal): Checked<Event>
    requires WellCurrent(s)
  {
    if d.unsupported != {} then Err(UnsupportedFields)
    else if !SafeId(d.sourceId) then Err(UnsafeId)
    else if d.sourceId !in s.unclassified then Err(SourceConsumed)
    else if !SourcesAvailable(s, {d.sourceId}) then Err(SourceUnavailable)
    else
      var _ :- CheckDisposal(s, d);
      if d.disposition.AlreadyIncorporatedDuplicate? && exists id | id in d.clauseIds :: !SafeId(id) then Err(UnsafeId)
      else Recorded(SourceDisposed(d))
  }

  function NormaliseProgress(s: State, p: Progress): Checked<Event> {
    var _ :- CheckProgress(p);
    if s.current.None? then Err(NoActiveContract)
    else if !SafeId(p.contractId) then Err(UnsafeId)
    else if Some(p.contractId) != s.current then Err(WrongContract)
    else if !SourcesAvailable(s, CurrentContractSources(s)) then Err(SourceUnavailable)
    else Recorded(ProgressMade(p))
  }

  function NormaliseStart(s: State, a: ActionStart): Checked<Event>
    requires WellCurrent(s)
  {
    if a.unsupported != {} then Err(UnsupportedFields)
    else if s.current.None? then Err(NoActiveContract)
    else if ReconciliationPending(s) then Err(ReconciliationRequired)
    else if !SourcesAvailable(s, CurrentContractSources(s)) then Err(SourceUnavailable)
    else if !SafeId(a.contractId) then Err(UnsafeId)
    else if Some(a.contractId) != s.current then Err(WrongContract)
    else if a.outcomeIds == [] || !(Elements(a.outcomeIds) <= s.open.Keys) then Err(UnknownOutcome)
    else if a.clauseIds == [] || !(Elements(a.clauseIds) <= ClauseIds(ClausesOf(s.contracts[s.current.value])))
      then Err(NotBoundToSource)
    else if exists id | id in a.outcomeIds + a.clauseIds :: !SafeId(id) then Err(UnsafeId)
    else if a.description.None? || Blank(a.description.value) then Err(NoDescription)
    else Recorded(ActionStarted(a))
  }

  function NormaliseGap(s: State, g: GapResolution): Checked<Event> {
    if g.unsupported != {} then Err(UnsupportedFields)
    else if !SafeId(g.gapId) then Err(UnsafeId)
    else if g.gapId !in UnresolvedGaps(s) then Err(GapUnknown)
    else if g.decision.OtherDecision? then Err(BadResolution)
    else if g.ground.None? || Blank(g.ground.value) then Err(NoGround)
    else if g.decision.SourceRecovered? && (g.sourceId.None? || !SafeId(g.sourceId.value)) then Err(UnsafeId)
    else if g.decision.SourceRecovered?
            && !ExactRecovery(s, s.gaps[g.gapId].observedSha, s.gaps[g.gapId].observedBytes, g.sourceId.value)
    then Err(GapRecoveryInexact)
    else if g.decision.OwnerDisposition? && g.sourceId.Some? then Err(OwnerClaimsSource)
    else Recorded(GapResolved(g))
  }

  /** The payload that will be written, checked against the state with its frontiers attached. */
  function Normalise(env: Surroundings, s: State, e: Event): Checked<Event>
    requires WellCurrent(s)
  {
    match e
    case SourceCaptured(_, source) =>
      if source.ref in env.files && env.files[source.ref].sha == Upper(source.sha)
        then Recorded(e) else Err(SourceFileChanged)
    case SourceClassified(p) =>
      var q :- ValidateContractEvent(p, s);
      Ok(SourceClassified(q))
    case SourceDisposed(d) => NormaliseDisposal(s, d)
    case ProgressMade(p) => NormaliseProgress(s, p)
    case ActionStarted(a) => NormaliseStart(s, a)
    case ActionFinished(_) => Recorded(e)
    case ActionReconciled(_) => Recorded(e)
    case MethodSupplemented(_) => Recorded(e)
    case GapResolved(g) => NormaliseGap(s, g)
    case Lifecycle(_) => Recorded(e)
    case UnknownEvent(_) => Recorded(e)
  }

  // ---------------------------------------------------------------- the commit decision

  datatype Attempt = Attempt(
    eventId: Id, event: Event, actorRole: string, expectedHead: Option<string>, timestamp: string)

  datatype Decision = Duplicate(existing: Entry) | Commit(record: Entry, state: State)

  function FindEvent(rs: seq<Entry>, id: Id): Option<Entry> {
    if rs == [] then None
    else if rs[0].eventId == id then Some(rs[0])
    else FindEvent(rs[1..], id)
  }

  /** Sources whose bytes must still verify once the event is in. */
  function DependentSources(e: Event, id: Id, candidate: State): set<Id> {
    match e
    case SourceCaptured(_, _) => {id}
    case SourceClassified(p) => {p.sourceId} + CurrentContractSources(candidate)
    case SourceDisposed(d) => {d.sourceId}
    case ProgressMade(_) => CurrentContractSources(candidate)
    case ActionStarted(_) => CurrentContractSources(candidate)
    case GapResolved(g) => if g.sourceId.Some? then {g.sourceId.value} else {}
    case _ => {}
  }

  /** The record an accepted attempt writes. `hash` is taken over the record with its hash field empty. */
  function NewRecord(hash: Entry -> string, rs: seq<Entry>, a: Attempt, e: Event): Entry {
    var r := Record(SCHEMA, |rs| + 1, a.eventId, a.actorRole, a.timestamp, Head(rs), e, "");
    r.(eventHash := hash(r))
  }

  /** What `append_event` does with an attempt, given the committed records and the surrounding files. */
  function Decide(hash: Entry -> string, env: Surroundings, rs: seq<Entry>, a: Attempt): Checked<Decision> {
    if !SafeId(a.eventId) then Err(UnsafeId)
    else
      var bare :- Replay(rs);
      var s := Attach(env, bare);
      if a.expectedHead.Some? && Upper(a.expectedHead.value) != Head(rs) then Err(CasMismatch)
      else
        var e :- Normalise(env, s, a.event);
        var existing := FindEvent(rs, a.eventId);
        if existing.Some? then
          if existing.value.event == e && existing.value.actorRole == a.actorRole then Ok(Duplicate(existing.value))
          else Err(EventCollision)
        else
          var r := NewRecord(hash, rs, a, e);
          var candidate :- Replay(rs + [r]);
          var attached := Attach(env, candidate);
          if !SourcesAvailable(attached, DependentSources(e, a.eventId, attached)) then Err(SourceUnavailable)
          else Ok(Commit(r, attached))
  }

  // ---------------------------------------------------------------- preflight

  datatype ToolClass = ReadOnly | Mutating | Mixed | UnknownClass

  datatype Preflight = Allow | HoldUnclassified | HoldGaps | HoldUnproven | HoldEffects | HoldUnreadable

  /** The decision for an existing ledger, from what `read_state` returned. */
  function PreflightDecision(state: Checked<State>, tool: ToolClass, dependencies: set<Id>): Preflight {
    if state.Err? then if tool.Mutating? then HoldUnreadable else Allow
    else
      var s := state.value;
      if !tool.Mutating? then Allow
      else if s.unclassified != [] then HoldUnclassified
      else if UnresolvedGaps(s) != {} then HoldGaps
      else if CurrentContractSources(s) * s.unproven != {} then HoldUnproven
      else if dependencies * UnknownEffects(s) != {} then HoldEffects
      else Allow
  }

  function ReadState(env: Surroundings, rs: seq<Entry>): Checked<State> {
    var s :- Replay(rs);
    Ok(Attach(env, s))
  }
}
