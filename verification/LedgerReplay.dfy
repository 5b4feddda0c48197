/** Replay: the state machine that every append consults and every read folds. */
module LedgerReplay {
  import opened Common
  import opened LedgerModel
  import opened LedgerContract
  import opened LedgerMethods
  import opened JournalRecord

  type Entry = Record<Event>

  // ---------------------------------------------------------------- sources

  function StepCaptured(s: State, id: Id, source: Source): Checked<State> {
    Ok(s.(sources := s.sources[id := source],
          unclassified := if id in s.unclassified then s.unclassified else s.unclassified + [id]))
  }

  /** `list.remove`: drops the first occurrence. */
  function Without(ids: seq<Id>, id: Id): seq<Id> {
    if ids == [] then [] else if ids[0] == id then ids[1..] else [ids[0]] + Without(ids[1..], id)
  }

  function CheckDisposal(s: State, d: Disposal): Checked<()>
    requires s.current.Some? ==> s.current.value in s.contracts
  {
    if !SafeId(d.sourceId) then Err(UnsafeId)
    else if d.sourceId !in s.unclassified then Err(SourceConsumed)
    else if d.disposition.OtherDisposition? then Err(BadDisposition)
    else if d.ground.None? || Blank(d.ground.value) then Err(NoGround)
    else if !d.disposition.AlreadyIncorporatedDuplicate? then Ok(())
    else if d.contractId.None? || !SafeId(d.contractId.value) then Err(UnsafeId)
    else if d.contractId != s.current then Err(WrongContract)
    else if d.clauseIds == [] then Err(NoClauseAuthority)
    else Need(Elements(d.clauseIds) <= ClauseIds(ClausesOf(s.contracts[s.current.value])), NotBoundToSource)
  }

  function StepDisposed(s: State, d: Disposal): Checked<State>
    requires s.current.Some? ==> s.current.value in s.contracts
  {
    var _ :- CheckDisposal(s, d);
    Ok(s.(disposed := s.disposed[d.sourceId := d], unclassified := Without(s.unclassified, d.sourceId)))
  }

  // ---------------------------------------------------------------- contracts

  function Catalogue(os: seq<Outcome>, catalog: map<Id, string>): Checked<map<Id, string>> {
    if os == [] then Ok(catalog)
    else if os[0].description.None? then Err(NoOutcomeDescription)
    else if os[0].id in catalog && catalog[os[0].id] != os[0].description.value then Err(DescriptionChanged)
    else Catalogue(os[1..], catalog[os[0].id := os[0].description.value])
  }

  /** The state once the normalised classification `q` has become a contract. */
  function Adopt(s: State, q: Classification, d: Disposition, catalog: map<Id, string>): State {
    var id := q.contract.contractId;
    s.(contracts := s.contracts[id := Contract(q.contract, q.sourceId, d, ListOf(q.normative), ListOf(q.supersedes))],
       latestProgress := None,
       current := if d.Withdraw? then None else Some(id),
       open := if d.Withdraw? then map[] else AsMap(ListOf(q.contract.outcomes)),
       catalog := catalog,
       unclassified := Without(s.unclassified, q.sourceId))
  }

  function StepClassified(s: State, p: Classification): Checked<State>
    requires s.current.Some? ==> s.current.value in s.contracts
  {
    var q :- ValidateContractEvent(p, s);
    var d := q.disposition.value;
    var catalog :- if d.Withdraw? then Ok(s.catalog) else Catalogue(ListOf(q.contract.outcomes), s.catalog);
    Ok(Adopt(s, q, d, catalog))
  }

  // ---------------------------------------------------------------- progress

  function CheckProgress(p: Progress): Checked<()> {
    if p.unsupported != {} then Err(UnsupportedFields)
    else if p.updates.NotAList? then Err(NoUpdateList)
    else Need(forall u | u in ListOf(p.updates) :: u.unsupported == {}, UnsupportedFields)
  }

  function ApplyUpdate(o: Outcome, u: OutcomeUpdate): Checked<Outcome> {
    if u.status != Some(Open) && u.status != Some(Satisfied) then Err(BadOutcomeStatus)
    else if o.status != Some(Open) && u.status != o.status then Err(Retired)
    else Ok(o.(status := u.status,
               evidence := if u.evidence.Some? then Dedup(o.evidence + u.evidence.value) else o.evidence,
               rest := o.rest + u.rest))
  }

  function ApplyUpdates(us: seq<OutcomeUpdate>, open: map<Id, Outcome>): Checked<map<Id, Outcome>> {
    if us == [] then Ok(open)
    else if !SafeId(us[0].outcomeId) then Err(UnsafeId)
    else if us[0].outcomeId !in open then Err(UnknownOutcome)
    else
      var o :- ApplyUpdate(open[us[0].outcomeId], us[0]);
      ApplyUpdates(us[1..], open[us[0].outcomeId := o])
  }

  function StepProgress(s: State, p: Progress): Checked<State> {
    var _ :- CheckProgress(p);
    if !SafeId(p.contractId) then Err(UnsafeId)
    else if Some(p.contractId) != s.current then Err(WrongContract)
    else
      var open :- ApplyUpdates(ListOf(p.updates), s.open);
      Ok(s.(open := open, latestProgress := Some(p)))
  }

  // ---------------------------------------------------------------- actions and their effects

  function StepStarted(s: State, eventId: Id, a: ActionStart): Checked<State>
    requires s.current.Some? ==> s.current.value in s.contracts
  {
    if !SafeId(a.actionId) then Err(UnsafeId)
    else if a.actionId in s.actions then Err(ActionExists)
    else if !SafeId(a.contractId) then Err(UnsafeId)
    else if Some(a.contractId) != s.current then Err(WrongContract)
    else if a.outcomeIds == [] || !(Elements(a.outcomeIds) <= s.open.Keys) then Err(UnknownOutcome)
    else if a.clauseIds == [] || !(Elements(a.clauseIds) <= ClauseIds(ClausesOf(s.contracts[a.contractId])))
      then Err(NotBoundToSource)
    else if a.retryOf.Some? && !SafeId(a.retryOf.value) then Err(UnsafeId)
    else if a.retryOf.Some? && a.retryOf.value !in s.actions then Err(RetryUnknown)
    else if a.retryOf.Some? && s.actions[a.retryOf.value].status.Pending? then Err(RetryPending)
    else
      var action := Action(a, eventId, Pending, None, None, a.methodRecord, Absent, [], a.rest);
      Ok(s.(actions := s.actions[a.actionId := action]))
  }

  predicate ExpectedEffect(status: ActionStatus, effect: Option<Effect>) {
    match status
    case Succeeded => effect == Some(ConfirmedSucceeded)
    case Failed => effect == Some(ConfirmedFailed) || effect == Some(ConfirmedPartial)
    case UnknownEffect => effect == Some(EffectUnknown)
    case Cancelled => effect == Some(NoEffectConfirmed) || effect == Some(EffectUnknown)
    case _ => false
  }

  function StepFinished(s: State, eventId: Id, r: ActionResult): Checked<State> {
    if !SafeId(r.actionId) then Err(UnsafeId)
    else if r.actionId !in s.actions then Err(ActionUnknown)
    else if !s.actions[r.actionId].status.Pending? then Err(ActionSettled)
    else if r.status.Pending? || r.status.OtherActionStatus? then Err(BadActionOutcome)
    else if !ExpectedEffect(r.status, r.effect) then Err(EffectMismatch)
    else
      var a := s.actions[r.actionId];
      var a' := a.(status := r.status, effect := r.effect, outcomeEvent := Some(eventId), rest := a.rest + r.rest,
                   effectRecord := if r.effectRecord.Absent? then a.effectRecord else r.effectRecord);
      Ok(s.(actions := s.actions[r.actionId := a']))
  }

  /** The recorded outcome leaves open whether the action had an effect. */
  predicate EffectOpen(a: Action) {
    a.status.UnknownEffect? || (a.status.Cancelled? && a.effect == Some(EffectUnknown))
  }

  function ReconciliationsOf(s: State, id: Id): seq<RecordedReconciliation> {
    if id in s.reconciliations then s.reconciliations[id] else []
  }

  function StepReconciled(s: State, eventId: Id, r: Reconciliation): Checked<State> {
    if !SafeId(r.actionId) then Err(UnsafeId)
    else if r.actionId !in s.actions then Err(ActionUnknown)
    else if !EffectOpen(s.actions[r.actionId]) then Err(NotUnknownEffect)
    else
      var prior := ReconciliationsOf(s, r.actionId);
      if prior != [] && prior[|prior| - 1].body.resolution != RemainsUnknown then Err(ActionSettled)
      else if prior != [] && r.priorEvent != Some(prior[|prior| - 1].eventId) then Err(BrokenReconciliationChain)
      else if prior == [] && r.priorEvent.Some? then Err(BrokenReconciliationChain)
      else if r.resolution.OtherResolution? then Err(BadResolution)
      else if r.evidence == [] then Err(NoEvidence)
      else Ok(s.(reconciliations := s.reconciliations[r.actionId := prior + [RecordedReconciliation(eventId, r)]]))
  }

  function StepSupplemented(s: State, eventId: Id, m: Supplement): Checked<State> {
    if !SafeId(m.actionId) then Err(UnsafeId)
    else if m.actionId !in s.actions then Err(ActionUnknown)
    else if s.actions[m.actionId].methodRecord.Sheet? then Err(MethodExists)
    else
      var a := s.actions[m.actionId];
      var record :- if m.methodRecord.Sheet? then Ok(m.methodRecord) else ValidateMethod(m.methodRecord);
      var a' := a.(methodRecord := record, supplements := a.supplements + [eventId]);
      Ok(s.(actions := s.actions[m.actionId := a']))
  }

  function StepGapResolved(s: State, eventId: Id, g: GapResolution): Checked<State> {
    if !SafeId(g.gapId) then Err(UnsafeId)
    else if g.gapId in s.gapResolutions then Err(GapAlreadyResolved)
    else if g.decision.OtherDecision? then Err(BadResolution)
    else if g.ground.None? || Blank(g.ground.value) then Err(NoGround)
    else if g.decision.SourceRecovered? && (g.sourceId.None? || !SafeId(g.sourceId.value)) then Err(UnsafeId)
    else if g.decision.SourceRecovered? && g.sourceId.value !in s.sources then Err(UnknownSource)
    else Ok(s.(gapResolutions := s.gapResolutions[g.gapId := RecordedGapResolution(eventId, g)]))
  }

  // ---------------------------------------------------------------- the transition oracle

  function StepEvent(s: State, id: Id, e: Event): Checked<State>
    requires s.current.Some? ==> s.current.value in s.contracts
  {
    match e
    case SourceCaptured(_, source) => StepCaptured(s, id, source)
    case SourceClassified(p) => StepClassified(s, p)
    case SourceDisposed(d) => StepDisposed(s, d)
    case ProgressMade(p) => StepProgress(s, p)
    case ActionStarted(a) => StepStarted(s, id, a)
    case ActionFinished(r) => StepFinished(s, id, r)
    case ActionReconciled(r) => StepReconciled(s, id, r)
    case MethodSupplemented(m) => StepSupplemented(s, id, m)
    case GapResolved(g) => StepGapResolved(s, id, g)
    case Lifecycle(note) => Ok(s.(latestLifecycle := Some(note)))
    case UnknownEvent(_) => Err(UnknownEventType)
  }

  predicate WellCurrent(s: State) {
    s.current.Some? ==> s.current.value in s.contracts
  }

  lemma {:induction false} StepEventCurrent(s: State, id: Id, e: Event)
    requires WellCurrent(s) && StepEvent(s, id, e).Ok?
    ensures WellCurrent(StepEvent(s, id, e).value)
  {
    hide ValidateContractEvent, Catalogue, AsMap, Without, ApplyUpdates, CheckProgress, CheckDisposal, SafeId, Blank;
  }

  function Step(s: State, r: Entry): (t: Checked<State>)
    requires WellCurrent(s)
    ensures t.Ok? ==> WellCurrent(t.value)
  {
    var next :- StepEvent(s, r.eventId, r.event);
    StepEventCurrent(s, r.eventId, r.event);
    Ok(next.(revision := r.seqNo, head := r.eventHash))
  }

  function Replay(rs: seq<Entry>): (t: Checked<State>)
    ensures t.Ok? ==> WellCurrent(t.value)
  {
    if rs == [] then Ok(EmptyState()) else
      var s :- Replay(rs[..|rs| - 1]);
      Step(s, rs[|rs| - 1])
  }

  lemma {:induction false} ReplayCurrent(rs: seq<Entry>, s: State)
    requires Replay(rs) == Ok(s)
    ensures WellCurrent(s)
  {
  }

  lemma {:induction false} ReplayLast(rs: seq<Entry>, t: State) returns (s: State)
    requires rs != [] && Replay(rs) == Ok(t)
    ensures Replay(rs[..|rs| - 1]) == Ok(s) && WellCurrent(s) && Step(s, rs[|rs| - 1]) == Ok(t)
  {
    s := Replay(rs[..|rs| - 1]).value;
    hide Step;
  }

  /** Replay as the program runs it: one state updated record by record. */
  method ReplayLoop(rs: seq<Entry>) returns (t: Checked<State>)
    ensures t == Replay(rs)
  {
    hide Step;
    var state := EmptyState();
    var i := 0;
    while i < |rs|
      invariant 0 <= i <= |rs|
      invariant Replay(rs[..i]) == Ok(state)
    {
      assert rs[..i + 1][..i] == rs[..i];
      var next := Step(state, rs[i]);
      if next.Err? {
        ReplayFails(rs, i + 1);
        return Err(next.error);
      }
      state := next.value;
      i := i + 1;
    }
    assert rs[..i] == rs;
    t := Ok(state);
  }

  lemma {:induction false} ReplayFails(rs: seq<Entry>, i: nat)
    requires i <= |rs| && Replay(rs[..i]).Err?
    ensures Replay(rs) == Err(Replay(rs[..i]).error)
  {
    if i < |rs| {
      var front := rs[..|rs| - 1];
      assert front[..i] == rs[..i];
      ReplayFails(front, i);
    } else {
      assert rs[..i] == rs;
    }
  }

  // ---------------------------------------------------------------- the effect frontier

  predicate EffectUnsettled(s: State, id: Id) {
    && id in s.actions
    && (s.actions[id].status.Pending? || EffectOpen(s.actions[id]))
    && var rec := ReconciliationsOf(s, id);
      rec == [] || !rec[|rec| - 1].body.resolution.Terminal()
  }

  /** `unknown_effect_action_ids` */
  function UnknownEffects(s: State): set<Id> {
    set id | id in s.actions && EffectUnsettled(s, id)
  }
}
