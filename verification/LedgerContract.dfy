/** Validation and normalisation of a classification: how a user source becomes the next contract. */
module LedgerContract {
  import opened Common
  import opened LedgerModel

  // ---------------------------------------------------------------- clauses

  predicate ClauseBinds(c: Clause, sources: map<Id, Source>) {
    c.sourceId in sources && c.sourceRef == sources[c.sourceId].ref && Upper(c.sourceSha) == sources[c.sourceId].sha
  }

  function ValidateClause(c: Clause, sources: map<Id, Source>, seen: set<Id>): Checked<Clause> {
    if !SafeId(c.id) then Err(UnsafeId)
    else if c.id in seen then Err(DuplicateClause)
    else if !SafeId(c.sourceId) then Err(UnsafeId)
    else if c.sourceId !in sources then Err(UnknownSource)
    else if !ClauseBinds(c, sources) then Err(ClauseUnbound)
    else Ok(c.(sourceSha := Upper(c.sourceSha)))
  }

  function ValidateClauses(cs: seq<Clause>, sources: map<Id, Source>, seen: set<Id>): Checked<seq<Clause>> {
    if cs == [] then Ok([]) else
      var c :- ValidateClause(cs[0], sources, seen);
      var rest :- ValidateClauses(cs[1..], sources, seen + {c.id});
      Ok([c] + rest)
  }

  function ValidateClauseRefs(clauses: ListField<Clause>, sources: map<Id, Source>): Checked<seq<Clause>> {
    if !clauses.Items? || clauses.items == [] then Err(BadClauseList)
    else ValidateClauses(clauses.items, sources, {})
  }

  // ---------------------------------------------------------------- supplied outcomes

  predicate KnownStatus(s: Status) { !s.OtherStatus? }

  function ValidateOutcome(o: Outcome, catalog: map<Id, string>, seen: set<Id>): Checked<Outcome> {
    if !SafeId(o.id) then Err(UnsafeId)
    else if o.id in seen then Err(DuplicateOutcome)
    else
      var status := if o.status.Some? then o.status.value else Open;
      if !KnownStatus(status) then Err(BadOutcomeStatus)
      else if o.description.None? || Blank(o.description.value) then Err(NoOutcomeDescription)
      else if o.id in catalog && catalog[o.id] != o.description.value then Err(DescriptionChanged)
      else Ok(o.(status := Some(status)))
  }

  function ValidateOutcomes(os: seq<Outcome>, catalog: map<Id, string>, seen: set<Id>): Checked<seq<Outcome>> {
    if os == [] then Ok([]) else
      var o :- ValidateOutcome(os[0], catalog, seen);
      var rest :- ValidateOutcomes(os[1..], catalog, seen + {o.id});
      Ok([o] + rest)
  }

  function OutcomeIds(os: seq<Outcome>): set<Id> {
    set o | o in os :: o.id
  }

  function AsMap(os: seq<Outcome>): (m: map<Id, Outcome>)
    ensures m.Keys == OutcomeIds(os)
    ensures forall k | k in m :: m[k] in os && m[k].id == k
  {
    if os == [] then map[] else
      var front, last := os[..|os| - 1], os[|os| - 1];
      assert os == front + [last];
      AsMap(front)[last.id := last]
  }

  /** The outcomes of these keys, in the order of the keys. */
  function Pick(keys: seq<Id>, m: map<Id, Outcome>): (os: seq<Outcome>)
    requires forall i | 0 <= i < |keys| :: keys[i] in m
    ensures |os| == |keys| && forall i | 0 <= i < |os| :: os[i] == m[keys[i]]
  {
    if keys == [] then [] else [m[keys[0]]] + Pick(keys[1..], m)
  }

  /** The outcomes of `m` in key order. */
  function InKeyOrder(m: map<Id, Outcome>): seq<Outcome> {
    var keys := Sorted(m.Keys);
    assert forall i | 0 <= i < |keys| :: keys[i] in Elements(keys);
    Pick(keys, m)
  }

  // ---------------------------------------------------------------- normative fields

  /** Fields the incremental contract does not mention are inherited from its parent. */
  function Inherit(own: map<Field, Value>, parent: map<Field, Value>): map<Field, Value> {
    map f | f in own.Keys + parent.Keys :: if f in own then own[f] else parent[f]
  }

  function ChangedFields(provided: set<Field>, own: map<Field, Value>, parent: map<Field, Value>): set<Field> {
    set f | f in provided && Lookup(own, f) != Lookup(parent, f)
  }

  function TransitionedFields(
    ts: seq<NormativeTransition>, d: Disposition, authority: set<Id>, seen: set<Field>): Checked<set<Field>>
  {
    if ts == [] then Ok(seen) else
      var t := ts[0];
      if t.unsupported != {} then Err(UnsupportedFields)
      else if t.field.None? || t.field.value in seen then Err(BadNormativeField)
      else if t.operation != Some(d) then Err(WrongNormativeOperation)
      else if t.clauseIds == [] then Err(NoClauseAuthority)
      else if exists id | id in t.clauseIds :: !SafeId(id) then Err(UnsafeId)
      else if !(Elements(t.clauseIds) <= authority) then Err(NotBoundToSource)
      else TransitionedFields(ts[1..], d, authority, seen + {t.field.value})
  }

  // ---------------------------------------------------------------- outcome transitions

  function CheckTransition(
    t: OutcomeTransition, current: map<Id, Outcome>, authority: set<Id>, done: set<Id>): Checked<Outcome>
  {
    if t.unsupported != {} then Err(UnsupportedFields)
    else if !SafeId(t.outcomeId) then Err(UnsafeId)
    else if t.outcomeId in done || t.outcomeId !in current then Err(BadOutcomeTransition)
    else if t.operation.OtherOperation? then Err(BadTransitionOperation)
    else if t.fromStatus != current[t.outcomeId].status then Err(StaleFromStatus)
    else if t.clauseIds == [] then Err(NoClauseAuthority)
    else if exists id | id in t.clauseIds :: !SafeId(id) then Err(UnsafeId)
    else if !Distinct(t.clauseIds) then Err(DuplicateAuthority)
    else if !(Elements(t.clauseIds) <= authority) then Err(NotBoundToSource)
    else Ok(current[t.outcomeId].(status := Some(t.operation.Target()), transition := Some(t)))
  }

  /** The outcomes that transitions touch, with their new status, keyed by outcome. */
  function ApplyTransitions(
    ts: seq<OutcomeTransition>, current: map<Id, Outcome>, authority: set<Id>, done: set<Id>)
    : Checked<map<Id, Outcome>>
  {
    if ts == [] then Ok(map[]) else
      var o :- CheckTransition(ts[0], current, authority, done);
      var rest :- ApplyTransitions(ts[1..], current, authority, done + {ts[0].outcomeId});
      Ok(rest[ts[0].outcomeId := o])
  }

  function FirstTransition(ts: seq<OutcomeTransition>, id: Id): Option<OutcomeTransition> {
    if ts == [] then None
    else if ts[0].outcomeId == id then Some(ts[0])
    else FirstTransition(ts[1..], id)
  }

  function CheckCorrections(
    os: seq<Outcome>, d: Disposition, prior: set<Id>, ts: seq<OutcomeTransition>): Checked<()>
  {
    if os == [] then Ok(()) else
      var o := os[0];
      if o.corrects.None? || o.id in prior then CheckCorrections(os[1..], d, prior, ts)
      else if !SafeId(o.corrects.value) then Err(UnsafeId)
      else if !d.Correct? || o.corrects.value !in prior || o.id == o.corrects.value then Err(BadCorrectedOutcome)
      else
        var t := FirstTransition(ts, o.corrects.value);
        if t.None? || !t.value.operation.Supersede? then Err(CorrectionNotSuperseding)
        else CheckCorrections(os[1..], d, prior, ts)
  }

  // ---------------------------------------------------------------- the validator

  function CheckLineage(d: Disposition, b: ContractBody, current: Option<Id>): Checked<()> {
    match d
    case Initial => Need(current.None?, InitialNotFirst)
    case Replace => Need(current.Some? && b.replacesId == current, LineageBroken)
    case Withdraw => Need(current.Some? && b.withdrawsId == current, LineageBroken)
    case _ => Need(current.Some? && b.parentId == current, LineageBroken)
  }

  function CheckObjective(d: Disposition, normative: map<Field, Value>): Checked<()> {
    var primary := Lookup(normative, PrimaryObjective);
    Need(d.Withdraw? || (primary.Text? && !Blank(primary.text)), NoPrimaryObjective)
  }

  /** Clauses of the new contract that are bound to the source being classified. */
  function BoundClauseIds(cs: seq<Clause>, sourceId: Id, source: Source): set<Id> {
    set c | c in cs && c.sourceId == sourceId && c.sourceRef == source.ref && c.sourceSha == source.sha :: c.id
  }

  function MergeNew(open: map<Id, Outcome>, supplied: map<Id, Outcome>): map<Id, Outcome> {
    map k | k in open.Keys + supplied.Keys :: if k in open then open[k] else supplied[k]
  }

  function CheckClauseLineage(
    p: Classification, d: Disposition, parent: seq<Clause>, new_: seq<Clause>): Checked<set<Id>>
  {
    if p.supersedes.NotAList? then Err(BadSupersededList)
    else
      var superseded := Elements(ListOf(p.supersedes));
      if exists id | id in superseded :: !SafeId(id) then Err(UnsafeId)
      else if !d.Correct? && superseded != {} then Err(OnlyCorrectSupersedes)
      else if !(superseded <= ClauseIds(parent)) then Err(UnknownSuperseded)
      else if ClauseIds(parent) - ClauseIds(new_) - superseded != {} then Err(ClausesDropped)
      else if exists c, c' | c in parent && c' in new_ :: c.id == c'.id && c != c' then Err(ClauseChanged)
      else Ok(superseded)
  }

  /** What the incremental branch adds to the normalised payload. */
  datatype Increment = Increment(
    outcomes: seq<Outcome>, transitions: seq<OutcomeTransition>, superseded: seq<Id>,
    normative: seq<NormativeTransition>)

  /** The transitions the given outcomes carry, in order. */
  function TransitionsIn(os: seq<Outcome>): seq<OutcomeTransition> {
    if os == [] then []
    else (if os[0].transition.Some? then [os[0].transition.value] else []) + TransitionsIn(os[1..])
  }

  function ValidateIncrement(
    p: Classification, d: Disposition, s: State, parent: Contract, normative: map<Field, Value>,
    clauses: seq<Clause>, supplied: seq<Outcome>): Checked<Increment>
    requires p.sourceId in s.sources
  {
    if !(s.open.Keys <= OutcomeIds(supplied)) then Err(OutcomesDropped)
    else
      var superseded :- CheckClauseLineage(p, d, ClausesOf(parent), clauses);
      if !d.Correct? && Lookup(normative, PrimaryObjective) != Lookup(parent.body.normative, PrimaryObjective)
      then Err(ObjectiveRewritten)
      else if exists o | o in supplied :: o.id !in s.open && o.status != Some(Open) then Err(NewOutcomeNotOpen)
      else if p.contract.transitions.NotAList? then Err(BadTransitionList)
      else
        var authority := BoundClauseIds(clauses, p.sourceId, s.sources[p.sourceId]);
        if superseded != {} && authority == {} then Err(UnboundCorrection)
        else if p.normative.NotAList? then Err(BadTransitionList)
        else
          var fields :- TransitionedFields(ListOf(p.normative), d, authority, {});
          if ChangedFields(p.contract.normative.Keys, normative, parent.body.normative) != fields
          then Err(NormativeMismatch)
          else
            var ts := ListOf(p.contract.transitions);
            var touched :- ApplyTransitions(ts, s.open, authority, {});
            var _ :- CheckCorrections(supplied, d, s.open.Keys, ts);
            Ok(Increment(
              InKeyOrder(MergeNew(s.open, AsMap(supplied)) + touched), TransitionsIn(InKeyOrder(touched)),
              Sorted(superseded), ListOf(p.normative)))
  }

  function CheckClassifiedSource(p: Classification, s: State): Checked<Disposition> {
    if p.unsupported != {} then Err(UnsupportedFields)
    else if !SafeId(p.sourceId) then Err(UnsafeId)
    else if p.sourceId !in s.sources then Err(UnknownSource)
    else if p.sourceId !in s.unclassified then Err(SourceConsumed)
    else if s.integrity != map[] && !SourcesAvailable(s, {p.sourceId}) then Err(SourceUnavailable)
    else if p.disposition.None? then Err(BadDisposition)
    else if p.contract.unsupported != {} then Err(UnsupportedFields)
    else if !SafeId(p.contract.contractId) then Err(UnsafeId)
    else if p.contract.contractId in s.contracts then Err(ContractExists)
    else Ok(p.disposition.value)
  }

  /** What the checks shared by every disposition leave: the contract's validated parts. */
  datatype Draft = Draft(
    disposition: Disposition, normative: map<Field, Value>, clauses: seq<Clause>, supplied: seq<Outcome>)

  function DraftContract(p: Classification, s: State): Checked<Draft>
    requires s.current.Some? ==> s.current.value in s.contracts
  {
    var d :- CheckClassifiedSource(p, s);
    var b := p.contract;
    var _ :- CheckLineage(d, b, s.current);
    var _ :- Need(
      d.Initial? || s.integrity == map[] || SourcesAvailable(s, CurrentContractSources(s)), SourceUnavailable);
    var normative :=
      if d.Incremental() then Inherit(b.normative, s.contracts[s.current.value].body.normative) else b.normative;
    var _ :- CheckObjective(d, normative);
    var clauses :- ValidateClauseRefs(b.clauses, s.sources);
    if b.outcomes.NotAList? then Err(BadOutcomeList)
    else if d.Withdraw? && ListOf(b.outcomes) != [] then Err(WithdrawPublishes)
    else
      var supplied :- ValidateOutcomes(ListOf(b.outcomes), s.catalog, {});
      Ok(Draft(d, normative, clauses, supplied))
  }

  predicate TruthyList<T>(f: ListField<T>) {
    match f
    case Missing => false
    case NotAList(truthy) => truthy
    case Items(items) => items != []
  }

  /** The normalised payload, once the outcomes and transitions are settled. */
  function Publish(p: Classification, draft: Draft, inc: Increment): Classification {
    var b := p.contract.(normative := draft.normative, clauses := Items(draft.clauses),
      outcomes := Items(inc.outcomes));
    p.(contract := if draft.disposition.Incremental() then b.(transitions := Items(inc.transitions)) else b,
       supersedes := Items(inc.superseded), normative := Items(inc.normative))
  }

  function SettleOutcomes(p: Classification, draft: Draft, s: State): Checked<Increment>
    requires p.sourceId in s.sources
    requires draft.disposition.Incremental() ==> s.current.Some? && s.current.value in s.contracts
  {
    if draft.disposition.Incremental() then
      ValidateIncrement(p, draft.disposition, s, s.contracts[s.current.value], draft.normative, draft.clauses,
        draft.supplied)
    else if TruthyList(p.normative) then Err(NotIncremental)
    else Ok(Increment(InKeyOrder(AsMap(draft.supplied)), [], [], []))
  }

  function ValidateContractEvent(p: Classification, s: State): Checked<Classification>
    requires s.current.Some? ==> s.current.value in s.contracts
  {
    var draft :- DraftContract(p, s);
    var inc :- SettleOutcomes(p, draft, s);
    Ok(Publish(p, draft, inc))
  }
}
