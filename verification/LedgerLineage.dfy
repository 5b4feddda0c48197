/** Nothing a user said is lost silently: what successive contracts and progress reports may change. */
module LedgerLineage {
  import opened Common
  import opened LedgerModel
  import opened LedgerContract
  import opened LedgerFixpoint
  import opened LedgerReplay
  import opened LedgerInvariant
  import opened JournalRecord

  // ---------------------------------------------------------------- declarations a contract can make

  /** Some clause is named, and every named clause is one this contract binds to the source it classifies. */
  ghost predicate BoundToOwnSource(n: Contract, ids: set<Id>) {
    ids != {} && forall id | id in ids :: exists c :: c in ClausesOf(n) && c.id == id && c.sourceId == n.sourceId
  }

  ghost predicate SupersedesClause(n: Contract, id: Id) {
    && n.disposition.Correct? && id in n.supersedes
    && exists c :: c in ClausesOf(n) && c.sourceId == n.sourceId
  }

  ghost predicate DeclaresField(n: Contract, f: Field) {
    exists t :: t in n.normative && t.field == Some(f) && t.operation == Some(n.disposition)
                && BoundToOwnSource(n, Elements(t.clauseIds))
  }

  ghost predicate DeclaresTransition(n: Contract, id: Id, from: Option<Status>) {
    exists t :: t in ListOf(n.body.transitions) && t.outcomeId == id && t.fromStatus == from
                && BoundToOwnSource(n, Elements(t.clauseIds))
  }

  /** The contract moves the outcome to this status by a transition under its own source's authority. */
  ghost predicate DeclaresChange(n: Contract, id: Id, to: Option<Status>) {
    exists t :: t in ListOf(n.body.transitions) && t.outcomeId == id && !t.operation.OtherOperation?
                && to == Some(t.operation.Target()) && BoundToOwnSource(n, Elements(t.clauseIds))
  }

  /** A status that progress reports cannot give. */
  predicate GivenUp(status: Option<Status>) {
    status != Some(Open) && status != Some(Satisfied)
  }

  function CurrentContract(s: State): Contract
    requires s.current.Some? && WellCurrent(s)
  {
    s.contracts[s.current.value]
  }

  function NewContracts(s: State, t: State): set<Id> {
    t.contracts.Keys - s.contracts.Keys
  }

  ghost predicate ClauseCarried(s: State, t: State, c: Clause)
    requires t.current.Some? && WellCurrent(t)
  {
    c in ClausesOf(CurrentContract(t)) || exists k :: k in NewContracts(s, t) && SupersedesClause(t.contracts[k], c.id)
  }

  ghost predicate FieldCarried(s: State, t: State, f: Field)
    requires s.current.Some? && WellCurrent(s) && t.current.Some? && WellCurrent(t)
  {
    || Lookup(CurrentContract(t).body.normative, f) == Lookup(CurrentContract(s).body.normative, f)
    || exists k :: k in NewContracts(s, t) && DeclaresField(t.contracts[k], f)
  }

  ghost predicate OutcomeCarried(s: State, t: State, id: Id)
    requires id in s.open
  {
    && id in t.open
    && t.open[id].description == s.open[id].description
    && Elements(s.open[id].evidence) <= Elements(t.open[id].evidence)
    && (s.open[id].status != Some(Open) && t.open[id].status != s.open[id].status ==>
          exists k :: k in NewContracts(s, t) && DeclaresTransition(t.contracts[k], id, s.open[id].status))
    && (GivenUp(t.open[id].status) && t.open[id].status != s.open[id].status ==>
          exists k :: k in NewContracts(s, t) && DeclaresChange(t.contracts[k], id, t.open[id].status))
  }

  ghost predicate ContractsGrow(s: State, t: State) {
    s.contracts.Keys <= t.contracts.Keys && forall k | k in s.contracts :: t.contracts[k] == s.contracts[k]
  }

  /** Everything the earlier state holds the user to is still there, or was given up explicitly. */
  ghost predicate Carried(s: State, t: State) {
    && s.current.Some? && WellCurrent(s) && t.current.Some? && WellCurrent(t)
    && ContractsGrow(s, t)
    && (forall c | c in ClausesOf(CurrentContract(s)) :: ClauseCarried(s, t, c))
    && (forall f: Field :: FieldCarried(s, t, f))
    && (forall id | id in s.open :: OutcomeCarried(s, t, id))
  }

  // ---------------------------------------------------------------- one incremental contract

  /** The validated parts of an incremental classification. */
  ghost predicate Incremented(
    s: State, p: Classification, q: Classification, d: Disposition, supplied: seq<Outcome>,
    superseded: set<Id>, touched: map<Id, Outcome>)
  {
    && d.Incremental() && s.current.Some? && WellCurrent(s)
    && q.disposition == Some(d) && q.sourceId == p.sourceId && q.contract.clauses.Items?
    && q.contract.normative == Inherit(p.contract.normative, CurrentContract(s).body.normative)
    && IncrementChecks(p, d, s, CurrentContract(s), q.contract.normative, q.contract.clauses.items, supplied,
      superseded, touched)
    && q.contract.outcomes == Items(InKeyOrder(Merged(s.open, supplied, touched)))
    && q.contract.transitions == Items(TransitionsIn(InKeyOrder(touched)))
    && q.supersedes == Items(Sorted(superseded)) && q.normative == Items(ListOf(p.normative))
    && DistinctIds(supplied) && (forall o | o in supplied :: Passes(o, s.catalog))
  }

  lemma {:induction false} IncrementalOpened(s: State, p: Classification, q: Classification)
    returns (d: Disposition, supplied: seq<Outcome>, superseded: set<Id>, touched: map<Id, Outcome>)
    requires WellCurrent(s) && ValidateContractEvent(p, s) == Ok(q)
    requires p.disposition.Some? && p.disposition.value.Incremental()
    ensures Incremented(s, p, q, d, supplied, superseded, touched)
  {
    DraftFacts(p, s);
    var draft := DraftContract(p, s).value;
    d, supplied := draft.disposition, draft.supplied;
    hide DraftContract, ValidateIncrement, IncrementChecks, InKeyOrder, TransitionsIn, Sorted, Merged, Inherit, Passes,
      DistinctIds;
    var inc := SettleOutcomes(p, draft, s).value;
    superseded, touched := IncrementOpened(p, d, s, CurrentContract(s), draft.normative, draft.clauses, supplied, inc);
  }

  lemma {:induction false} AuthorityBinds(n: Contract, s: State, cs: seq<Clause>, ids: set<Id>)
    requires n.body.clauses == Items(cs) && n.sourceId in s.sources
    requires ids != {} && ids <= BoundClauseIds(cs, n.sourceId, s.sources[n.sourceId])
    ensures BoundToOwnSource(n, ids)
  {
    forall id | id in ids ensures exists c :: c in ClausesOf(n) && c.id == id && c.sourceId == n.sourceId {
      var c :| c in cs && c.sourceId == n.sourceId && c.id == id;
      assert c in ClausesOf(n);
    }
  }

  lemma {:induction false} ClausesCarried(
    s: State, p: Classification, q: Classification, t: State, d: Disposition, supplied: seq<Outcome>,
    superseded: set<Id>, touched: map<Id, Outcome>, c: Clause)
    requires Incremented(s, p, q, d, supplied, superseded, touched)
    requires t == Adopt(s, q, d, t.catalog) && q.contract.contractId !in s.contracts
    requires c in ClausesOf(CurrentContract(s))
    ensures ClauseCarried(s, t, c)
  {
    hide AsMap, InKeyOrder, TransitionsIn, Merged, Inherit, ApplyTransitions, CheckCorrections, TransitionedFields,
      Lookup, ChangedFields, Sorted, Without, Passes, DistinctIds;
    var n := t.contracts[q.contract.contractId];
    var cs := q.contract.clauses.items;
    assert CurrentContract(t) == n && ClausesOf(n) == cs;
    if c.id in superseded {
      assert c.id in n.supersedes by { assert c.id in Elements(Sorted(superseded)); }
      var authority := BoundClauseIds(cs, p.sourceId, s.sources[p.sourceId]);
      var a :| a in authority;
      var b :| b in cs && b.sourceId == p.sourceId && b.id == a;
      assert SupersedesClause(n, c.id);
    } else {
      assert c.id in ClauseIds(ClausesOf(CurrentContract(s)));
      assert c.id !in ClauseIds(ClausesOf(CurrentContract(s))) - ClauseIds(cs) - superseded;
      var c' :| c' in cs && c'.id == c.id;
    }
  }

  lemma {:induction false} FieldsDeclared(
    ts: seq<NormativeTransition>, d: Disposition, authority: set<Id>, seen: set<Field>, f: Field)
    requires TransitionedFields(ts, d, authority, seen).Ok? && f in TransitionedFields(ts, d, authority, seen).value
    requires f !in seen
    ensures exists t :: t in ts && t.field == Some(f) && t.operation == Some(d)
              && Elements(t.clauseIds) != {} && Elements(t.clauseIds) <= authority
  {
    if ts == [] {
    } else {
      if ts[0].field == Some(f) {
        assert ts[0].clauseIds[0] in Elements(ts[0].clauseIds);
        assert ts[0] in ts;
      } else {
        FieldsDeclared(ts[1..], d, authority, seen + {ts[0].field.value}, f);
        var t :| t in ts[1..] && t.field == Some(f) && t.operation == Some(d)
              && Elements(t.clauseIds) != {} && Elements(t.clauseIds) <= authority;
        assert t in ts;
      }
    }
  }

  lemma {:induction false} FieldsCarried(
    s: State, p: Classification, q: Classification, t: State, d: Disposition, supplied: seq<Outcome>,
    superseded: set<Id>, touched: map<Id, Outcome>, f: Field)
    requires Incremented(s, p, q, d, supplied, superseded, touched)
    requires t == Adopt(s, q, d, t.catalog) && q.contract.contractId !in s.contracts
    ensures FieldCarried(s, t, f)
  {
    hide AsMap, InKeyOrder, TransitionsIn, Merged, ApplyTransitions, CheckCorrections, TransitionedFields, Sorted,
      Without, Passes, DistinctIds, BoundClauseIds, CheckClauseLineage;
    var n := t.contracts[q.contract.contractId];
    var parent := CurrentContract(s).body.normative;
    if Lookup(q.contract.normative, f) != Lookup(parent, f) {
      assert f in p.contract.normative.Keys;
      assert f in ChangedFields(p.contract.normative.Keys, q.contract.normative, parent);
      var authority := BoundClauseIds(q.contract.clauses.items, p.sourceId, s.sources[p.sourceId]);
      FieldsDeclared(ListOf(p.normative), d, authority, {}, f);
      var nt :| nt in ListOf(p.normative) && nt.field == Some(f) && nt.operation == Some(d)
              && Elements(nt.clauseIds) != {} && Elements(nt.clauseIds) <= authority;
      AuthorityBinds(n, s, q.contract.clauses.items, Elements(nt.clauseIds));
      assert nt in n.normative;
      assert DeclaresField(n, f);
    }
  }

  /** The outcomes an adopted increment leaves open. */
  lemma {:induction false} IncrementOpens(
    s: State, p: Classification, q: Classification, t: State, d: Disposition, supplied: seq<Outcome>,
    superseded: set<Id>, touched: map<Id, Outcome>)
    requires OpenOutcomesKept(s) && Incremented(s, p, q, d, supplied, superseded, touched)
    requires t == Adopt(s, q, d, t.catalog)
    ensures t.open == Merged(s.open, supplied, touched)
    ensures touched.Keys <= s.open.Keys <= t.open.Keys
    ensures forall id | id in s.open :: t.open[id] == if id in touched then touched[id] else s.open[id]
    ensures AllTouched(touched, s.open, BoundClauseIds(q.contract.clauses.items, p.sourceId, s.sources[p.sourceId]))
    ensures Matches(TransitionsIn(InKeyOrder(touched)), touched)
  {
    var authority := BoundClauseIds(q.contract.clauses.items, p.sourceId, s.sources[p.sourceId]);
    var ts := ListOf(p.contract.transitions);
    assert SelfKeyed(s.open) by { forall k | k in s.open ensures s.open[k].id == k { KeptPasses(s, k); } }
    hide AsMap, InKeyOrder, TransitionsIn, Inherit, CheckCorrections, TransitionedFields, Lookup, ChangedFields, Sorted,
      Without, Passes, CheckClauseLineage, BoundClauseIds, OpenOutcomesKept, Matches, AllTouched, ApplyTransitions,
      DistinctIds;
    TransitionsTouch(ts, s.open, authority, {});
    TransitionsFixpoint(ts, s.open, authority, touched);
    TouchedPasses(s, authority, ts, touched);
    MergedPasses(s, supplied, touched);
    MergedValue(s.open, supplied, touched);
    KeyOrderRoundTrip(Merged(s.open, supplied, touched));
  }

  lemma {:induction false} TouchedDeclared(
    s: State, n: Contract, touched: map<Id, Outcome>, cs: seq<Clause>, id: Id)
    requires n.sourceId in s.sources && n.body.clauses == Items(cs) && id in touched && id in s.open
    requires AllTouched(touched, s.open, BoundClauseIds(cs, n.sourceId, s.sources[n.sourceId]))
    requires n.body.transitions.Items? && Matches(n.body.transitions.items, touched)
    ensures DeclaresTransition(n, id, s.open[id].status) && DeclaresChange(n, id, touched[id].status)
    ensures touched[id].description == s.open[id].description && touched[id].evidence == s.open[id].evidence
  {
    var authority := BoundClauseIds(cs, n.sourceId, s.sources[n.sourceId]);
    var tr := touched[id].transition.value;
    assert Touched(tr, touched[id], s.open, authority);
    assert tr.outcomeId == id && tr in ListOf(n.body.transitions);
    assert tr.clauseIds[0] in Elements(tr.clauseIds);
    AuthorityBinds(n, s, cs, Elements(tr.clauseIds));
  }

  lemma {:induction false} AdoptedContract(
    s: State, p: Classification, q: Classification, t: State, d: Disposition, supplied: seq<Outcome>,
    superseded: set<Id>, touched: map<Id, Outcome>)
    returns (n: Contract)
    requires Incremented(s, p, q, d, supplied, superseded, touched)
    requires t == Adopt(s, q, d, t.catalog) && q.contract.contractId !in s.contracts
    ensures q.contract.contractId in t.contracts && n == t.contracts[q.contract.contractId]
    ensures q.contract.contractId in NewContracts(s, t)
    ensures q.contract.clauses.Items? && n.body.clauses == q.contract.clauses
    ensures n.sourceId == p.sourceId && p.sourceId in s.sources
    ensures n.body.transitions == Items(TransitionsIn(InKeyOrder(touched)))
  {
    n := t.contracts[q.contract.contractId];
    hide InKeyOrder, TransitionsIn, Merged, Inherit, Sorted, DistinctIds, Passes, AsMap, Without;
  }

  lemma {:induction false} OutcomesCarried(
    s: State, p: Classification, q: Classification, t: State, d: Disposition, supplied: seq<Outcome>,
    superseded: set<Id>, touched: map<Id, Outcome>, id: Id)
    requires OpenOutcomesKept(s) && Incremented(s, p, q, d, supplied, superseded, touched)
    requires t == Adopt(s, q, d, t.catalog) && q.contract.contractId !in s.contracts
    requires id in s.open
    ensures OutcomeCarried(s, t, id)
  {
    hide *;
    IncrementOpens(s, p, q, t, d, supplied, superseded, touched);
    var n := AdoptedContract(s, p, q, t, d, supplied, superseded, touched);
    if id in touched {
      TouchedDeclared(s, n, touched, q.contract.clauses.items, id);
    }
    OutcomeCarriedBy(s, t, id, q.contract.contractId);
  }

  lemma {:induction false} OutcomeCarriedBy(s: State, t: State, id: Id, k: Id)
    requires id in s.open && id in t.open && k in NewContracts(s, t)
    requires t.open[id].description == s.open[id].description && t.open[id].evidence == s.open[id].evidence
    requires t.open[id] != s.open[id] ==>
               DeclaresTransition(t.contracts[k], id, s.open[id].status) &&
                 DeclaresChange(t.contracts[k], id, t.open[id].status)
    ensures OutcomeCarried(s, t, id)
  {
  }

  lemma {:induction false} IncrementalCarries(s: State, p: Classification, t: State)
    requires CurrentWork(s) && StepClassified(s, p) == Ok(t)
    requires p.disposition.Some? && p.disposition.value.Incremental()
    ensures Carried(s, t)
  {
    var q := ClassifiedOpened(s, p, t);
    hide StepClassified, ValidateContractEvent, Incremented, Catalogue, AsMap, Without, OpenOutcomesKept,
      DistinctClauses, ClauseExact, DistinctIds, Passes, ClauseCarried, FieldCarried, OutcomeCarried;
    var d, supplied, superseded, touched := IncrementalOpened(s, p, q);
    IncrementedCurrent(s, p, q, d, supplied, superseded, touched);
    hide CurrentWork, ClausesOf, CurrentContract;
    forall c | c in ClausesOf(CurrentContract(s)) ensures ClauseCarried(s, t, c) {
      ClausesCarried(s, p, q, t, d, supplied, superseded, touched, c);
    }
    forall f: Field ensures FieldCarried(s, t, f) {
      FieldsCarried(s, p, q, t, d, supplied, superseded, touched, f);
    }
    forall id | id in s.open ensures OutcomeCarried(s, t, id) {
      OutcomesCarried(s, p, q, t, d, supplied, superseded, touched, id);
    }
  }

  lemma {:induction false} IncrementedCurrent(
    s: State, p: Classification, q: Classification, d: Disposition, supplied: seq<Outcome>,
    superseded: set<Id>, touched: map<Id, Outcome>)
    requires Incremented(s, p, q, d, supplied, superseded, touched)
    ensures s.current.Some? && q.disposition == Some(d) && d.Incremental()
  {
    hide IncrementChecks, InKeyOrder, TransitionsIn, Merged, Inherit, Sorted, DistinctIds, Passes;
  }

  // ---------------------------------------------------------------- one other step

  lemma {:induction false} UpdatesCarry(us: seq<OutcomeUpdate>, open: map<Id, Outcome>)
    requires ApplyUpdates(us, open).Ok?
    ensures var open' := ApplyUpdates(us, open).value;
      && open'.Keys == open.Keys
      && forall id | id in open ::
           && open'[id].description == open[id].description
           && Elements(open[id].evidence) <= Elements(open'[id].evidence)
           && (open[id].status != Some(Open) || GivenUp(open'[id].status) ==> open'[id].status == open[id].status)
  {
    if us == [] {
    } else {
      var old_ := open[us[0].outcomeId];
      var o := ApplyUpdate(old_, us[0]).value;
      if us[0].evidence.Some? {
        assert Elements(Dedup(old_.evidence + us[0].evidence.value)) == Elements(old_.evidence + us[0].evidence.value);
        assert forall x | x in old_.evidence :: x in old_.evidence + us[0].evidence.value;
      }
      UpdatesCarry(us[1..], open[us[0].outcomeId := o]);
    }
  }

  /** Such an event keeps the contracts, and each open outcome's description, while evidence only grows. */
  ghost predicate KeepsContracts(s: State, t: State) {
    && t.contracts == s.contracts && t.current == s.current
    && forall id | id in s.open ::
         && id in t.open && t.open[id].description == s.open[id].description
         && Elements(s.open[id].evidence) <= Elements(t.open[id].evidence)
         && (s.open[id].status != Some(Open) || GivenUp(t.open[id].status) ==> t.open[id].status == s.open[id].status)
  }

  lemma {:induction false} OtherStepKeeps(s: State, id: Id, e: Event, t: State)
    requires WellCurrent(s) && StepEvent(s, id, e) == Ok(t) && !e.SourceClassified?
    ensures KeepsContracts(s, t)
  {
    if e.ProgressMade? {
      hide CheckProgress, SafeId;
      UpdatesCarry(ListOf(e.progress.updates), s.open);
    }
    hide ApplyUpdates, CheckProgress, CheckDisposal, SafeId, Blank, EffectOpen, Without, ExpectedEffect, ClauseIds,
      StepClassified;
  }

  lemma {:induction false} KeepingCarries(s: State, t: State)
    requires WellCurrent(s) && s.current.Some? && KeepsContracts(s, t)
    ensures Carried(s, t)
  {
    hide Elements, Lookup, ListOf;
    forall f: Field ensures FieldCarried(s, t, f) {}
  }

  lemma {:induction false} OtherStepCarries(s: State, id: Id, e: Event, t: State)
    requires CurrentWork(s) && s.current.Some? && StepEvent(s, id, e) == Ok(t) && !e.SourceClassified?
    ensures Carried(s, t)
  {
    hide StepEvent, KeepsContracts, Carried, OpenOutcomesKept;
    OtherStepKeeps(s, id, e, t);
    KeepingCarries(s, t);
  }

  lemma {:induction false} CarriedComposes(s: State, u: State, t: State)
    requires Carried(s, u) && Carried(u, t)
    ensures Carried(s, t)
  {
    hide SupersedesClause, DeclaresField, DeclaresTransition, DeclaresChange;
    forall c | c in ClausesOf(CurrentContract(s)) ensures ClauseCarried(s, t, c) {
      if c in ClausesOf(CurrentContract(u)) {
        assert ClauseCarried(u, t, c);
      } else {
        assert ClauseCarried(s, u, c);
        var k :| k in NewContracts(s, u) && SupersedesClause(u.contracts[k], c.id);
        assert k in NewContracts(s, t) && t.contracts[k] == u.contracts[k];
      }
    }
    forall f: Field ensures FieldCarried(s, t, f) {
      assert FieldCarried(s, u, f) && FieldCarried(u, t, f);
      if k :| k in NewContracts(s, u) && DeclaresField(u.contracts[k], f) {
        assert k in NewContracts(s, t) && t.contracts[k] == u.contracts[k];
      } else if k :| k in NewContracts(u, t) && DeclaresField(t.contracts[k], f) {
        assert k in NewContracts(s, t);
      }
    }
    forall id | id in s.open ensures OutcomeCarried(s, t, id) {
      assert OutcomeCarried(s, u, id) && OutcomeCarried(u, t, id);
      if s.open[id].status != Some(Open) && t.open[id].status != s.open[id].status {
        if u.open[id].status == s.open[id].status {
          var k :| k in NewContracts(u, t) && DeclaresTransition(t.contracts[k], id, u.open[id].status);
          assert k in NewContracts(s, t);
        } else {
          var k :| k in NewContracts(s, u) && DeclaresTransition(u.contracts[k], id, s.open[id].status);
          assert k in NewContracts(s, t) && t.contracts[k] == u.contracts[k];
        }
      }
      if GivenUp(t.open[id].status) && t.open[id].status != s.open[id].status {
        if t.open[id].status == u.open[id].status {
          var k :| k in NewContracts(s, u) && DeclaresChange(u.contracts[k], id, u.open[id].status);
          assert k in NewContracts(s, t) && t.contracts[k] == u.contracts[k];
        } else {
          var k :| k in NewContracts(u, t) && DeclaresChange(t.contracts[k], id, t.open[id].status);
          assert k in NewContracts(s, t);
        }
      }
    }
  }

  lemma {:induction false} CarriedReflexive(s: State)
    requires WellCurrent(s) && s.current.Some?
    ensures Carried(s, s)
  {
    forall f: Field ensures FieldCarried(s, s, f) {}
  }

  /** No record of the run founds, replaces or withdraws a contract. */
  predicate SameLineage(rs: seq<Entry>) {
    forall r | r in rs :: r.event.SourceClassified? ==>
      r.event.classification.disposition.Some? && r.event.classification.disposition.value.Incremental()
  }

  /**
   * Through any run of ADD, CLARIFY and CORRECT, mixed with any other events, every outcome persists,
   * every clause persists until it is superseded under the new source's authority, every normative field
   * keeps its value unless declared, evidence only grows, and an outcome is retired, or leaves a status
   * other than open, only by a transition bound to the source being classified.
   */
  lemma {:induction false} NoSilentLoss(rs: seq<Entry>, more: seq<Entry>, s: State, t: State)
    requires UniqueIds(rs + more) && SameLineage(more)
    requires Replay(rs) == Ok(s) && s.current.Some? && Replay(rs + more) == Ok(t)
    ensures Carried(s, t)
  {
    hide Carried, Step, LedgerInv, Replay;
    if more == [] {
      assert rs + more == rs;
      ReplayCurrent(rs, s);
      CarriedReflexive(s);
    } else {
      var front, last := more[..|more| - 1], more[|more| - 1];
      assert (rs + more)[..|rs + more| - 1] == rs + front;
      assert UniqueIds(rs + front) by { assert forall i | 0 <= i < |rs + front| :: (rs + front)[i] == (rs + more)[i]; }
      var u := ReplayLast(rs + more, t);
      NoSilentLoss(rs, front, s, u);
      ReplayKeepsInv(rs + front);
      InvCurrentWork(u);
      CarriedCurrent(s, u);
      assert last in more;
      StepCarries(u, last, t);
      CarriedComposes(s, u, t);
    }
  }

  lemma {:induction false} InvCurrentWork(s: State)
    requires LedgerInv(s)
    ensures CurrentWork(s)
  {
  }

  lemma {:induction false} CarriedCurrent(s: State, t: State)
    requires Carried(s, t)
    ensures t.current.Some?
  {
    hide ClauseCarried, FieldCarried, OutcomeCarried;
  }

  lemma {:induction false} StepCarries(u: State, r: Entry, t: State)
    requires CurrentWork(u) && u.current.Some? && Step(u, r) == Ok(t) && SameLineage([r])
    ensures Carried(u, t)
  {
    var mid := StepEvent(u, r.eventId, r.event).value;
    if r.event.SourceClassified? {
      assert r in [r];
      hide StepClassified, Carried, OpenOutcomesKept;
      IncrementalCarries(u, r.event.classification, mid);
    } else {
      hide StepEvent, Carried, OpenOutcomesKept;
      OtherStepCarries(u, r.eventId, r.event, mid);
    }
    CarriedIgnoresHead(u, mid, t);
  }

  lemma {:induction false} CarriedIgnoresHead(s: State, mid: State, t: State)
    requires Carried(s, mid) && t == mid.(revision := t.revision, head := t.head)
    ensures Carried(s, t)
  {
    hide SupersedesClause, DeclaresField, DeclaresTransition, DeclaresChange;
    forall c | c in ClausesOf(CurrentContract(s)) ensures ClauseCarried(s, t, c) { assert ClauseCarried(s, mid, c); }
    forall f: Field ensures FieldCarried(s, t, f) { assert FieldCarried(s, mid, f); }
    forall id | id in s.open ensures OutcomeCarried(s, t, id) { assert OutcomeCarried(s, mid, id); }
  }
}
