/** What a replayed state says of its journal: every part of the state is read off the records. */
module LedgerHistory {
  import opened Common
  import opened LedgerModel
  import opened LedgerContract
  import opened LedgerFixpoint
  import opened LedgerMethods
  import opened LedgerReplay
  import opened LedgerInvariant
  import opened LedgerEffects
  import opened LedgerAppendProofs
  import opened LedgerClassified
  import opened LedgerRules
  import opened JournalRecord

  // ---------------------------------------------------------------- one transition

  predicate Supplements(r: Entry, id: Id) {
    r.event.MethodSupplemented? && r.event.supplement.actionId == id
  }

  predicate Began(id: Id, a: ActionStart, n: Action) {
    && n.start == a && n.eventId == id && n.status == Pending && n.effect == None && n.outcomeEvent == None
    && n.methodRecord == a.methodRecord && n.effectRecord == Absent && n.supplements == [] && n.rest == a.rest
  }

  predicate Ended(id: Id, r: ActionResult, o: Action, n: Action) {
    && o.status == Pending && r.status != Pending
    && n == o.(status := r.status, effect := r.effect, outcomeEvent := Some(id), effectRecord := n.effectRecord,
               rest := n.rest)
    && n.effectRecord == (if r.effectRecord.Absent? then o.effectRecord else r.effectRecord)
    && n.rest == o.rest + r.rest
  }

  ghost predicate Supplied(id: Id, m: Supplement, o: Action, n: Action) {
    && !o.methodRecord.Sheet? && n.methodRecord.Sheet?
    && n == o.(methodRecord := n.methodRecord, supplements := o.supplements + [id])
    && if m.methodRecord.Sheet? then n.methodRecord == m.methodRecord else KeptAs(m.methodRecord, n.methodRecord)
  }

  /** What has been consumed, by a disposal or a classification. */
  function Gone(s: State): set<Id> {
    s.disposed.Keys + ClassifiedSources(s)
  }

  predicate SourcesMove(s: State, r: Entry, t: State) {
    && t.sources == (if r.event.SourceCaptured? then s.sources[r.eventId := r.event.source] else s.sources)
    && (r.event.SourceDisposed? ==> r.event.disposal.sourceId in s.unclassified)
    && t.disposed == if r.event.SourceDisposed?
         then s.disposed[r.event.disposal.sourceId := r.event.disposal] else s.disposed
  }

  /** The source a record consumes. */
  function Consumed(e: Event): Option<Id> {
    if e.SourceDisposed? then Some(e.disposal.sourceId)
    else if e.SourceClassified? then Some(e.classification.sourceId)
    else None
  }

  predicate WaitingMoves(s: State, r: Entry, t: State) {
    var consumed := Consumed(r.event);
    && Gone(t) == Gone(s) + (if consumed.Some? then {consumed.value} else {})
    && if consumed.Some? then Removed(s.unclassified, consumed.value, t.unclassified)
       else if r.event.SourceCaptured? && r.eventId !in s.unclassified
       then t.unclassified == s.unclassified + [r.eventId]
       else t.unclassified == s.unclassified
  }

  ghost predicate ContractsMove(s: State, e: Event, t: State)
    requires WellCurrent(s)
  {
    if e.SourceClassified? then
      var p := e.classification;
      && p.disposition.Some? && p.contract.contractId !in s.contracts && p.contract.contractId in t.contracts
      && t.contracts == s.contracts[p.contract.contractId := t.contracts[p.contract.contractId]]
      && RecordsAs(p, p.disposition.value, s, t.contracts[p.contract.contractId])
    else t.contracts == s.contracts
  }

  predicate LatestMoves(s: State, e: Event, t: State) {
    && t.current == (if !e.SourceClassified? then s.current
         else if e.classification.disposition == Some(Withdraw) then None
         else Some(e.classification.contract.contractId))
    && t.latestProgress == (if e.ProgressMade? then Some(e.progress)
         else if e.SourceClassified? then None else s.latestProgress)
    && t.latestLifecycle == if e.Lifecycle? then Some(e.note) else s.latestLifecycle
  }

  /** What one event does to one action. */
  ghost predicate ActionMoves(s: State, r: Entry, t: State, id: Id) {
    if Starts(r, id) then id !in s.actions && id in t.actions && Began(r.eventId, r.event.start, t.actions[id])
    else if Finishes(r, id) then
      id in s.actions && id in t.actions && Ended(r.eventId, r.event.result, s.actions[id], t.actions[id])
    else if Supplements(r, id) then
      id in s.actions && id in t.actions && Supplied(r.eventId, r.event.supplement, s.actions[id], t.actions[id])
    else (id in t.actions <==> id in s.actions) && (id in s.actions ==> t.actions[id] == s.actions[id])
  }

  predicate EffectsMove(s: State, r: Entry, t: State) {
    && t.reconciliations == (if r.event.ActionReconciled?
         then
           var body := r.event.reconciliation;
           s.reconciliations[body.actionId :=
             ReconciliationsOf(s, body.actionId) + [RecordedReconciliation(r.eventId, body)]]
         else s.reconciliations)
    && (r.event.GapResolved? ==> r.event.gap.gapId !in s.gapResolutions)
    && t.gapResolutions == if r.event.GapResolved?
         then s.gapResolutions[r.event.gap.gapId := RecordedGapResolution(r.eventId, r.event.gap)]
         else s.gapResolutions
  }

  /** What one record changes, part by part. */
  ghost predicate Leads(s: State, r: Entry, t: State)
    requires WellCurrent(s)
  {
    && SourcesMove(s, r, t) && WaitingMoves(s, r, t) && ContractsMove(s, r.event, t) && LatestMoves(s, r.event, t)
    && (forall id :: ActionMoves(s, r, t, id)) && EffectsMove(s, r, t)
  }

  lemma {:induction false} CapturedLeads(s: State, r: Entry, t: State)
    requires WellCurrent(s) && r.event.SourceCaptured? && StepCaptured(s, r.eventId, r.event.source) == Ok(t)
    ensures Leads(s, r, t)
  {
    hide Removed;
  }

  lemma {:induction false} ClassifiedGone(s: State, p: Classification, t: State)
    requires WellCurrent(s) && p.disposition.Some? && ClassifiedTo(s, p, p.disposition.value, t)
    ensures Gone(t) == Gone(s) + {p.sourceId} && Removed(s.unclassified, p.sourceId, t.unclassified)
  {
    var id := p.contract.contractId;
    assert t.contracts[id].sourceId == p.sourceId && t.contracts == s.contracts[id := t.contracts[id]];
    hide OpensAs, RecordsAs, Lists, Removed;
    forall k | k in s.contracts ensures k in t.contracts && t.contracts[k] == s.contracts[k] {}
  }

  /** What a classification leaves alone. */
  lemma {:induction false} ClassifiedElsewhere(s: State, p: Classification, t: State)
    requires WellCurrent(s) && p.disposition.Some? && ClassifiedTo(s, p, p.disposition.value, t)
    ensures t.sources == s.sources && t.disposed == s.disposed && t.actions == s.actions
    ensures t.reconciliations == s.reconciliations && t.gapResolutions == s.gapResolutions
    ensures t.latestLifecycle == s.latestLifecycle && t.latestProgress == None
    ensures LatestMoves(s, SourceClassified(p), t) && ContractsMove(s, SourceClassified(p), t)
  {
    hide OpensAs, RecordsAs, Lists, Removed;
  }

  lemma {:induction false} ClassifiedLeads(s: State, r: Entry, t: State)
    requires WellCurrent(s) && OpenOutcomesKept(s) && r.event.SourceClassified?
    requires StepClassified(s, r.event.classification) == Ok(t)
    ensures Leads(s, r, t)
  {
    hide StepClassified, OpenOutcomesKept, Acceptable, SourcesStand, Gone, Removed, ClassifiedTo, ContractsMove,
      LatestMoves;
    var p := r.event.classification;
    assert r.event == SourceClassified(p);
    ClassifiedExactly(s, p);
    ClassifiedGone(s, p, t);
    ClassifiedElsewhere(s, p, t);
  }

  lemma {:induction false} DisposedLeads(s: State, r: Entry, t: State)
    requires WellCurrent(s) && r.event.SourceDisposed? && StepDisposed(s, r.event.disposal) == Ok(t)
    ensures Leads(s, r, t)
  {
    var d := r.event.disposal;
    assert d.sourceId in s.unclassified by { hide SafeId, Blank; }
    WithoutRemoves(s.unclassified, d.sourceId);
    hide CheckDisposal, Without, Removed;
  }

  lemma {:induction false} ProgressLeads(s: State, r: Entry, t: State)
    requires WellCurrent(s) && r.event.ProgressMade? && StepProgress(s, r.event.progress) == Ok(t)
    ensures Leads(s, r, t)
  {
    ProgressExactly(s, r.event.progress);
    hide StepProgress, Progresses, UpdatedAs;
  }

  lemma {:induction false} StartedLeads(s: State, r: Entry, t: State)
    requires WellCurrent(s) && r.event.ActionStarted? && StepStarted(s, r.eventId, r.event.start) == Ok(t)
    ensures Leads(s, r, t)
  {
    hide SafeId, ClauseIds, Elements;
  }

  lemma {:induction false} FinishedLeads(s: State, r: Entry, t: State)
    requires WellCurrent(s) && r.event.ActionFinished? && StepFinished(s, r.eventId, r.event.result) == Ok(t)
    ensures Leads(s, r, t)
  {
    hide SafeId, ExpectedEffect;
  }

  lemma {:induction false} ReconciledLeads(s: State, r: Entry, t: State)
    requires WellCurrent(s) && r.event.ActionReconciled?
    requires StepReconciled(s, r.eventId, r.event.reconciliation) == Ok(t)
    ensures Leads(s, r, t)
  {
    hide SafeId, EffectOpen;
  }

  lemma {:induction false} SuppliedBy(s: State, id: Id, m: Supplement, t: State)
    requires StepSupplemented(s, id, m) == Ok(t)
    ensures m.actionId in s.actions && m.actionId in t.actions
    ensures Supplied(id, m, s.actions[m.actionId], t.actions[m.actionId])
    ensures t == s.(actions := s.actions[m.actionId := t.actions[m.actionId]])
  {
    MethodExactly(m.methodRecord);
    hide SafeId, ValidateMethod, MethodFits;
  }

  lemma {:induction false} SupplementedLeads(s: State, r: Entry, t: State)
    requires WellCurrent(s) && r.event.MethodSupplemented?
    requires StepSupplemented(s, r.eventId, r.event.supplement) == Ok(t)
    ensures Leads(s, r, t)
  {
    hide StepSupplemented, Supplied;
    SuppliedBy(s, r.eventId, r.event.supplement, t);
  }

  lemma {:induction false} GapLeads(s: State, r: Entry, t: State)
    requires WellCurrent(s) && r.event.GapResolved? && StepGapResolved(s, r.eventId, r.event.gap) == Ok(t)
    ensures Leads(s, r, t)
  {
    hide SafeId, Blank;
  }

  lemma {:induction false} StepLeads(s: State, r: Entry, t: State)
    requires WellCurrent(s) && OpenOutcomesKept(s) && StepEvent(s, r.eventId, r.event) == Ok(t)
    ensures Leads(s, r, t)
  {
    if r.event.Lifecycle? {
      hide OpenOutcomesKept, Removed;
    } else {
      hide StepCaptured, StepClassified, StepDisposed, StepProgress, StepStarted, StepFinished, StepReconciled,
        StepSupplemented, StepGapResolved, OpenOutcomesKept, Leads;
      match r.event
      case SourceCaptured(_, _) => CapturedLeads(s, r, t);
      case SourceClassified(_) => ClassifiedLeads(s, r, t);
      case SourceDisposed(_) => DisposedLeads(s, r, t);
      case ProgressMade(_) => ProgressLeads(s, r, t);
      case ActionStarted(_) => StartedLeads(s, r, t);
      case ActionFinished(_) => FinishedLeads(s, r, t);
      case ActionReconciled(_) => ReconciledLeads(s, r, t);
      case MethodSupplemented(_) => SupplementedLeads(s, r, t);
      case GapResolved(_) => GapLeads(s, r, t);
      case _ =>
    }
  }

  /** The last transition of a replay. */
  lemma {:induction false} LastLeads(rs: seq<Entry>, s: State) returns (u: State, t: State)
    requires UniqueIds(rs) && rs != [] && Replay(rs) == Ok(s)
    ensures var front, last := rs[..|rs| - 1], rs[|rs| - 1];
      && UniqueIds(front) && Replay(front) == Ok(u) && LedgerInv(u) && WellCurrent(u)
      && Leads(u, last, t) && s == t.(revision := last.seqNo, head := last.eventHash)
      && (forall r | r in front :: r.eventId != last.eventId)
      && rs == front + [last]
  {
    var front, last := rs[..|rs| - 1], rs[|rs| - 1];
    assert rs == front + [last];
    u := ReplayLast(rs, s);
    t := StepEvent(u, last.eventId, last.event).value;
    hide Replay, StepEvent, LedgerInv, Leads, OpenOutcomesKept;
    PrefixUnique(front, [last]);
    ReplayKeepsInv(front);
    InvWork(u);
    StepLeads(u, last, t);
    forall r | r in front ensures r.eventId != last.eventId {
      var i :| 0 <= i < |front| && front[i] == r;
      assert rs[i] == r;
    }
  }

  // ---------------------------------------------------------------- sources

  /** The sources are those captured, and each waits, in the order of capture, until a record consumes it. */
  ghost predicate SourcesOf(rs: seq<Entry>, s: State) {
    && (forall r | r in rs && r.event.SourceCaptured? ::
          r.eventId in s.sources && s.sources[r.eventId] == r.event.source)
    && (forall id | id in s.sources :: exists r :: r in rs && r.eventId == id && r.event.SourceCaptured?)
  }

  ghost predicate DisposedOf(rs: seq<Entry>, s: State) {
    && (forall r | r in rs && r.event.SourceDisposed? ::
          r.event.disposal.sourceId in s.disposed && s.disposed[r.event.disposal.sourceId] == r.event.disposal)
    && (forall id | id in s.disposed ::
          exists r :: r in rs && r.event.SourceDisposed? && r.event.disposal.sourceId == id)
  }

  lemma {:induction false} SourcesNext(front: seq<Entry>, r: Entry, u: State, s: State)
    requires SourcesOf(front, u) && forall q | q in front :: q.eventId != r.eventId
    requires s.sources == if r.event.SourceCaptured? then u.sources[r.eventId := r.event.source] else u.sources
    ensures SourcesOf(front + [r], s)
  {
    forall id | id in s.sources ensures exists q :: q in front + [r] && q.eventId == id && q.event.SourceCaptured? {
      if id in u.sources {
        var q :| q in front && q.eventId == id && q.event.SourceCaptured?;
        assert q in front + [r];
      } else {
        assert r in front + [r];
      }
    }
  }

  lemma {:induction false} DisposedNext(front: seq<Entry>, r: Entry, u: State, s: State)
    requires DisposedOf(front, u) && (r.event.SourceDisposed? ==> r.event.disposal.sourceId !in u.disposed)
    requires s.disposed == if r.event.SourceDisposed?
      then u.disposed[r.event.disposal.sourceId := r.event.disposal] else u.disposed
    ensures DisposedOf(front + [r], s)
  {
    forall id | id in s.disposed
      ensures exists q :: q in front + [r] && q.event.SourceDisposed? && q.event.disposal.sourceId == id
    {
      if id in u.disposed {
        var q :| q in front && q.event.SourceDisposed? && q.event.disposal.sourceId == id;
        assert q in front + [r];
      } else {
        assert r in front + [r];
      }
    }
  }

  lemma {:induction false} WaitingIsNotDisposed(s: State, id: Id)
    requires SourcesConserved(s) && id in s.unclassified
    ensures id !in s.disposed
  {
    assert id in Elements(s.unclassified);
    hide ClassifiedSources;
  }

  lemma {:induction false} SourcesHistory(rs: seq<Entry>, s: State)
    requires UniqueIds(rs) && Replay(rs) == Ok(s)
    ensures SourcesOf(rs, s) && DisposedOf(rs, s)
  {
    if rs == [] {
      ReplayEmpty(s);
    } else {
      var front, last := rs[..|rs| - 1], rs[|rs| - 1];
      hide Replay, SourcesOf, DisposedOf, ClausesExact, CurrentWork, EffectsRecorded, SourcesConserved,
        WaitingMoves, ContractsMove, LatestMoves, ActionMoves, EffectsMove;
      var u, t := LastLeads(rs, s);
      SourcesHistory(front, u);
      SourcesNext(front, last, u, s);
      if last.event.SourceDisposed? { WaitingIsNotDisposed(u, last.event.disposal.sourceId); }
      DisposedNext(front, last, u, s);
    }
  }

  // ---------------------------------------------------------------- actions

  /** The events that supplement this action, in order. */
  function SupplementIds(rs: seq<Entry>, id: Id): seq<Id> {
    if rs == [] then []
    else
      var last := rs[|rs| - 1];
      SupplementIds(rs[..|rs| - 1], id) + if Supplements(last, id) then [last.eventId] else []
  }

  /** The action ended as this record says, and keeps what it says. */
  predicate EndedBy(a: Action, r: Entry)
    requires r.event.ActionFinished?
  {
    var result := r.event.result;
    && result.status != Pending && a.status == result.status && a.effect == result.effect
    && a.outcomeEvent == Some(r.eventId) && a.effectRecord == result.effectRecord
    && a.rest == a.start.rest + result.rest
  }

  predicate StillPending(a: Action) {
    && a.status == Pending && a.effect == None && a.outcomeEvent == None && a.effectRecord == Absent
    && a.rest == a.start.rest
  }

  /** The action as its records have it: started once, ended at most once, with its method or a supplied one. */
  ghost predicate ActionOf(rs: seq<Entry>, id: Id, a: Action) {
    && (forall r | r in rs && Starts(r, id) :: a.start == r.event.start && a.eventId == r.eventId)
    && (forall r | r in rs && Finishes(r, id) :: EndedBy(a, r))
    && ((forall r | r in rs :: !Finishes(r, id)) ==> StillPending(a))
    && a.supplements == SupplementIds(rs, id)
    && (forall r | r in rs && Supplements(r, id) ::
          a.methodRecord.Sheet?
          && if r.event.supplement.methodRecord.Sheet? then a.methodRecord == r.event.supplement.methodRecord
             else KeptAs(r.event.supplement.methodRecord, a.methodRecord))
    && ((forall r | r in rs :: !Supplements(r, id)) ==> a.methodRecord == a.start.methodRecord)
  }

  predicate Concerns(r: Entry, id: Id) {
    Starts(r, id) || Finishes(r, id) || Supplements(r, id)
  }

  ghost predicate ActionsOf(rs: seq<Entry>, s: State) {
    && (forall r, id | r in rs && Concerns(r, id) :: id in s.actions)
    && (forall id | id in s.actions :: (exists r :: r in rs && Starts(r, id)) && ActionOf(rs, id, s.actions[id]))
  }

  lemma {:induction false} OtherLeavesAction(front: seq<Entry>, r: Entry, id: Id, a: Action)
    requires ActionOf(front, id, a) && !Concerns(r, id)
    ensures ActionOf(front + [r], id, a)
  {
    assert (front + [r])[..|front|] == front && r in front + [r];
    forall q | q in front ensures q in front + [r] {}
    hide EndedBy, StillPending, KeptAs, Starts, Finishes, Supplements;
    assert Concerns(r, id) <==> Starts(r, id) || Finishes(r, id) || Supplements(r, id);
    assert forall q :: q in front + [r] <==> q in front || q == r;
  }

  lemma {:induction false} NoSupplements(rs: seq<Entry>, id: Id)
    requires forall r | r in rs :: !Concerns(r, id)
    ensures SupplementIds(rs, id) == []
  {
    if rs == [] {
    } else {
      assert rs[|rs| - 1] in rs;
      NoSupplements(rs[..|rs| - 1], id);
    }
  }

  lemma {:induction false} StartedAction(front: seq<Entry>, r: Entry, id: Id, n: Action)
    requires (forall q | q in front :: !Concerns(q, id)) && Starts(r, id) && Began(r.eventId, r.event.start, n)
    ensures ActionOf(front + [r], id, n)
  {
    var rs := front + [r];
    NoSupplements(front, id);
    assert rs[..|front|] == front && SupplementIds(rs, id) == [];
    assert StillPending(n) && n.start == r.event.start && n.eventId == r.eventId && n.supplements == [];
    hide SupplementIds, EndedBy, KeptAs, StillPending, Began;
    assert !Finishes(r, id) && !Supplements(r, id);
    forall q | q in rs ensures !Finishes(q, id) && !Supplements(q, id) && (Starts(q, id) ==> q == r) {
      if q in front { assert !Concerns(q, id); }
    }
    hide Finishes, Supplements, Concerns;
  }

  lemma {:induction false} EndedAction(front: seq<Entry>, r: Entry, id: Id, o: Action, n: Action)
    requires ActionOf(front, id, o) && Finishes(r, id) && Ended(r.eventId, r.event.result, o, n)
    ensures ActionOf(front + [r], id, n)
  {
    assert forall q | q in front && Finishes(q, id) :: EndedBy(o, q);
    assert forall q | q in front :: !Finishes(q, id);
    assert (front + [r])[..|front|] == front;
    assert forall q :: q in front + [r] <==> q in front || q == r;
    hide KeptAs;
    assert EndedBy(n, r);
    hide EndedBy;
    assert r in front + [r];
  }

  lemma {:induction false} SuppliedAction(front: seq<Entry>, r: Entry, id: Id, o: Action, n: Action)
    requires ActionOf(front, id, o) && Supplements(r, id) && Supplied(r.eventId, r.event.supplement, o, n)
    ensures ActionOf(front + [r], id, n)
  {
    assert forall q | q in front :: !Supplements(q, id);
    forall q | q in front && Finishes(q, id) ensures EndedBy(n, q) { assert EndedBy(o, q); }
    assert (front + [r])[..|front|] == front;
    assert forall q :: q in front + [r] <==> q in front || q == r;
    hide KeptAs, EndedBy;
    assert r in front + [r];
  }

  lemma {:induction false} ActionsNext(front: seq<Entry>, r: Entry, u: State, s: State)
    requires ActionsOf(front, u) && forall id :: ActionMoves(u, r, s, id)
    ensures ActionsOf(front + [r], s)
  {
    var rs := front + [r];
    hide ActionOf, Began, Ended, Supplied, Starts, Finishes, Supplements;
    forall q, id | q in rs && Concerns(q, id) ensures id in s.actions {
      assert ActionMoves(u, r, s, id);
      if q in front { assert id in u.actions; }
    }
    forall id | id in s.actions ensures (exists q :: q in rs && Starts(q, id)) && ActionOf(rs, id, s.actions[id]) {
      assert ActionMoves(u, r, s, id);
      if Starts(r, id) {
        assert r in rs;
        assert id !in u.actions;
        assert forall q | q in front && Concerns(q, id) :: id in u.actions;
        StartedAction(front, r, id, s.actions[id]);
      } else {
        var q :| q in front && Starts(q, id);
        assert q in rs;
        if Finishes(r, id) {
          EndedAction(front, r, id, u.actions[id], s.actions[id]);
        } else if Supplements(r, id) {
          SuppliedAction(front, r, id, u.actions[id], s.actions[id]);
        } else {
          OtherLeavesAction(front, r, id, u.actions[id]);
        }
      }
    }
  }

  lemma {:induction false} SameMoves(s: State, r: Entry, t: State, t': State, id: Id)
    requires ActionMoves(s, r, t, id) && t'.actions == t.actions
    ensures ActionMoves(s, r, t', id)
  {
    hide Began, Ended, Supplied;
  }

  /** Every action of the state is what its start, its end and its supplement in the journal say. */
  lemma {:induction false} ActionsHistory(rs: seq<Entry>, s: State)
    requires UniqueIds(rs) && Replay(rs) == Ok(s)
    ensures ActionsOf(rs, s)
  {
    if rs == [] {
      ReplayEmpty(s);
    } else {
      var front, last := rs[..|rs| - 1], rs[|rs| - 1];
      hide Replay, ActionsOf, LedgerInv, ActionMoves, SourcesMove,
        WaitingMoves, ContractsMove, LatestMoves, EffectsMove;
      var u, t := LastLeads(rs, s);
      ActionsHistory(front, u);
      forall id ensures ActionMoves(u, last, s, id) {
        assert ActionMoves(u, last, t, id);
        SameMoves(u, last, t, s, id);
      }
      ActionsNext(front, last, u, s);
    }
  }

  // ---------------------------------------------------------------- reconciliations and gaps

  /** The reconciliations of this action, in order, each with the event it came with. */
  function LookedAt(rs: seq<Entry>, id: Id): seq<RecordedReconciliation> {
    if rs == [] then []
    else
      var last := rs[|rs| - 1];
      LookedAt(rs[..|rs| - 1], id)
        + if last.event.ActionReconciled? && last.event.reconciliation.actionId == id
          then [RecordedReconciliation(last.eventId, last.event.reconciliation)] else []
  }

  ghost predicate GapsOf(rs: seq<Entry>, s: State) {
    && (forall r | r in rs && r.event.GapResolved? ::
          && r.event.gap.gapId in s.gapResolutions
          && s.gapResolutions[r.event.gap.gapId] == RecordedGapResolution(r.eventId, r.event.gap))
    && (forall id | id in s.gapResolutions :: exists r :: r in rs && r.event.GapResolved? && r.event.gap.gapId == id)
  }

  lemma {:induction false} ReconciliationsNext(s: State, r: Entry, t: State, id: Id)
    requires EffectsMove(s, r, t)
    ensures ReconciliationsOf(t, id) == ReconciliationsOf(s, id)
      + if r.event.ActionReconciled? && r.event.reconciliation.actionId == id
        then [RecordedReconciliation(r.eventId, r.event.reconciliation)] else []
  {
  }

  lemma {:induction false} GapsNext(front: seq<Entry>, r: Entry, u: State, s: State)
    requires GapsOf(front, u) && (r.event.GapResolved? ==> r.event.gap.gapId !in u.gapResolutions)
    requires s.gapResolutions == if r.event.GapResolved?
      then u.gapResolutions[r.event.gap.gapId := RecordedGapResolution(r.eventId, r.event.gap)] else u.gapResolutions
    ensures GapsOf(front + [r], s)
  {
    forall id | id in s.gapResolutions
      ensures exists q :: q in front + [r] && q.event.GapResolved? && q.event.gap.gapId == id
    {
      if id in u.gapResolutions {
        var q :| q in front && q.event.GapResolved? && q.event.gap.gapId == id;
        assert q in front + [r];
      } else {
        assert r in front + [r];
      }
    }
  }

  lemma {:induction false} ReconciliationsHistory(rs: seq<Entry>, s: State)
    requires UniqueIds(rs) && Replay(rs) == Ok(s)
    ensures (forall id :: ReconciliationsOf(s, id) == LookedAt(rs, id)) && GapsOf(rs, s)
  {
    if rs == [] {
      ReplayEmpty(s);
    } else {
      var front, last := rs[..|rs| - 1], rs[|rs| - 1];
      hide Replay, LedgerInv, GapsOf, ReconciliationsOf, SourcesMove,
        WaitingMoves, ContractsMove, LatestMoves, ActionMoves;
      var u, t := LastLeads(rs, s);
      ReconciliationsHistory(front, u);
      GapsNext(front, last, u, s);
      forall id ensures ReconciliationsOf(s, id) == LookedAt(rs, id) {
        ReconciliationsNext(u, last, t, id);
        SameReconciliations(s, t, id);
      }
    }
  }

  lemma {:induction false} SameReconciliations(s: State, t: State, id: Id)
    requires s.reconciliations == t.reconciliations
    ensures ReconciliationsOf(s, id) == ReconciliationsOf(t, id)
  {
  }

  // ---------------------------------------------------------------- contracts and what is latest

  /** The record at `i` is the last of those that `kind` picks. */
  predicate LastOf(rs: seq<Entry>, i: int, kind: Event -> bool) {
    0 <= i < |rs| && kind(rs[i].event) && forall j | i < j < |rs| :: !kind(rs[j].event)
  }

  predicate OfContract(e: Event) { e.SourceClassified? }

  predicate OfWork(e: Event) { e.SourceClassified? || e.ProgressMade? }

  predicate OfLife(e: Event) { e.Lifecycle? }

  /** The current contract is the one classified last, and none once it is withdrawn. */
  ghost predicate CurrentOf(rs: seq<Entry>, s: State) {
    && ((forall r | r in rs :: !OfContract(r.event)) ==> s.current == None)
    && forall i | LastOf(rs, i, OfContract) ::
         var p := rs[i].event.classification;
         s.current == if p.disposition == Some(Withdraw) then None else Some(p.contract.contractId)
  }

  /** Advice is that of the last progress since the last classification. */
  ghost predicate ProgressOf(rs: seq<Entry>, s: State) {
    && ((forall r | r in rs :: !OfWork(r.event)) ==> s.latestProgress == None)
    && forall i | LastOf(rs, i, OfWork) ::
         s.latestProgress == if rs[i].event.ProgressMade? then Some(rs[i].event.progress) else None
  }

  ghost predicate LifecycleOf(rs: seq<Entry>, s: State) {
    && ((forall r | r in rs :: !OfLife(r.event)) ==> s.latestLifecycle == None)
    && forall i | LastOf(rs, i, OfLife) :: s.latestLifecycle == Some(rs[i].event.note)
  }

  predicate HeadOf(rs: seq<Entry>, s: State) {
    if rs == [] then s.revision == 0 && s.head == ZERO_HASH
    else s.revision == rs[|rs| - 1].seqNo && s.head == rs[|rs| - 1].eventHash
  }

  lemma {:induction false} LastOfNext(front: seq<Entry>, r: Entry, i: int, kind: Event -> bool)
    requires LastOf(front + [r], i, kind)
    ensures if kind(r.event) then i == |front| else LastOf(front, i, kind) && (front + [r])[i] == front[i]
  {
    var rs := front + [r];
    assert rs[|front|] == r;
    if !kind(r.event) {
      forall j | i < j < |front| ensures !kind(front[j].event) { assert rs[j] == front[j]; }
    }
  }

  lemma {:induction false} NoneOfNext(front: seq<Entry>, r: Entry, kind: Event -> bool)
    requires forall q | q in front + [r] :: !kind(q.event)
    ensures !kind(r.event) && forall q | q in front :: !kind(q.event)
  {
    assert r in front + [r];
    forall q | q in front ensures !kind(q.event) { assert q in front + [r]; }
  }

  lemma {:induction false} LatestHistory(rs: seq<Entry>, s: State)
    requires UniqueIds(rs) && Replay(rs) == Ok(s)
    ensures CurrentOf(rs, s) && ProgressOf(rs, s) && LifecycleOf(rs, s) && HeadOf(rs, s)
  {
    if rs == [] {
      ReplayEmpty(s);
    } else {
      var front, last := rs[..|rs| - 1], rs[|rs| - 1];
      hide Replay, LedgerInv, CurrentOf, ProgressOf, LifecycleOf,
        SourcesMove, WaitingMoves, ContractsMove, ActionMoves, EffectsMove;
      var u, t := LastLeads(rs, s);
      LatestHistory(front, u);
      CurrentNext(front, last, u, s);
      ProgressNext(front, last, u, s);
      LifecycleNext(front, last, u, s);
    }
  }

  lemma {:induction false} CurrentNext(front: seq<Entry>, r: Entry, u: State, s: State)
    requires CurrentOf(front, u)
    requires s.current == if !r.event.SourceClassified? then u.current
      else if r.event.classification.disposition == Some(Withdraw) then None
      else Some(r.event.classification.contract.contractId)
    ensures CurrentOf(front + [r], s)
  {
    var rs := front + [r];
    if forall q | q in rs :: !OfContract(q.event) { NoneOfNext(front, r, OfContract); }
    forall i | LastOf(rs, i, OfContract)
      ensures var p := rs[i].event.classification;
        s.current == if p.disposition == Some(Withdraw) then None else Some(p.contract.contractId)
    {
      LastOfNext(front, r, i, OfContract);
    }
    hide LastOf;
  }

  lemma {:induction false} ProgressNext(front: seq<Entry>, r: Entry, u: State, s: State)
    requires ProgressOf(front, u)
    requires s.latestProgress == if r.event.ProgressMade? then Some(r.event.progress)
      else if r.event.SourceClassified? then None else u.latestProgress
    ensures ProgressOf(front + [r], s)
  {
    var rs := front + [r];
    if forall q | q in rs :: !OfWork(q.event) { NoneOfNext(front, r, OfWork); }
    forall i | LastOf(rs, i, OfWork)
      ensures s.latestProgress == if rs[i].event.ProgressMade? then Some(rs[i].event.progress) else None
    {
      LastOfNext(front, r, i, OfWork);
    }
    hide LastOf;
  }

  lemma {:induction false} LifecycleNext(front: seq<Entry>, r: Entry, u: State, s: State)
    requires LifecycleOf(front, u)
    requires s.latestLifecycle == if r.event.Lifecycle? then Some(r.event.note) else u.latestLifecycle
    ensures LifecycleOf(front + [r], s)
  {
    var rs := front + [r];
    if forall q | q in rs :: !OfLife(q.event) { NoneOfNext(front, r, OfLife); }
    forall i | LastOf(rs, i, OfLife) ensures s.latestLifecycle == Some(rs[i].event.note) {
      LastOfNext(front, r, i, OfLife);
    }
    hide LastOf;
  }

  /** Every contract is what its classification made it in the state the records before it replay to. */
  ghost predicate ContractsOf(rs: seq<Entry>, s: State) {
    && (forall i | 0 <= i < |rs| && rs[i].event.SourceClassified? ::
          rs[i].event.classification.contract.contractId in s.contracts)
    && forall k | k in s.contracts :: exists i :: Classifies(rs, i, k, s.contracts[k])
  }

  ghost predicate Classifies(rs: seq<Entry>, i: int, k: Id, n: Contract) {
    && 0 <= i < |rs| && rs[i].event.SourceClassified?
    && var p := rs[i].event.classification;
    && p.contract.contractId == k && p.disposition.Some?
    && Replay(rs[..i]).Ok? && RecordsAs(p, p.disposition.value, Replay(rs[..i]).value, n)
  }

  lemma {:induction false} ClassifiesNext(front: seq<Entry>, r: Entry, i: int, k: Id, n: Contract)
    requires Classifies(front, i, k, n)
    ensures Classifies(front + [r], i, k, n)
  {
    assert (front + [r])[..i] == front[..i] && (front + [r])[i] == front[i];
    hide RecordsAs, Replay;
  }

  lemma {:induction false} ClassifiesLast(front: seq<Entry>, r: Entry, u: State, n: Contract)
    requires Replay(front) == Ok(u) && r.event.SourceClassified? && r.event.classification.disposition.Some?
    requires RecordsAs(r.event.classification, r.event.classification.disposition.value, u, n)
    ensures Classifies(front + [r], |front|, r.event.classification.contract.contractId, n)
  {
    assert (front + [r])[..|front|] == front && (front + [r])[|front|] == r;
    hide RecordsAs, Replay;
  }

  lemma {:induction false} ContractsNext(front: seq<Entry>, r: Entry, u: State, s: State)
    requires ContractsOf(front, u) && Replay(front) == Ok(u)
    requires !r.event.SourceClassified? ==> s.contracts == u.contracts
    requires r.event.SourceClassified? ==>
      var p := r.event.classification;
      && p.disposition.Some? && p.contract.contractId in s.contracts
      && s.contracts == u.contracts[p.contract.contractId := s.contracts[p.contract.contractId]]
      && RecordsAs(p, p.disposition.value, u, s.contracts[p.contract.contractId])
    ensures ContractsOf(front + [r], s)
  {
    var rs := front + [r];
    hide RecordsAs, Classifies, Replay;
    forall k | k in s.contracts ensures exists i :: Classifies(rs, i, k, s.contracts[k]) {
      if r.event.SourceClassified? && r.event.classification.contract.contractId == k {
        ClassifiesLast(front, r, u, s.contracts[k]);
      } else {
        var i :| Classifies(front, i, k, u.contracts[k]);
        ClassifiesNext(front, r, i, k, s.contracts[k]);
      }
    }
  }

  lemma {:induction false} ContractsHistory(rs: seq<Entry>, s: State)
    requires UniqueIds(rs) && Replay(rs) == Ok(s)
    ensures ContractsOf(rs, s)
  {
    if rs == [] {
      ReplayEmpty(s);
    } else {
      var front, last := rs[..|rs| - 1], rs[|rs| - 1];
      hide Replay, LedgerInv, RecordsAs, ContractsOf, SourcesMove, WaitingMoves, LatestMoves, ActionMoves, EffectsMove;
      var u, t := LastLeads(rs, s);
      ContractsHistory(front, u);
      ContractsNext(front, last, u, s);
    }
  }

  // ---------------------------------------------------------------- the sources that wait

  /** The captured sources in the order of their capture. */
  function Captured(rs: seq<Entry>): seq<Id> {
    if rs == [] then []
    else
      var last := rs[|rs| - 1];
      Captured(rs[..|rs| - 1]) + if last.event.SourceCaptured? then [last.eventId] else []
  }

  /** Those of `ids` that are not gone, in their order. */
  function Remaining(ids: seq<Id>, gone: set<Id>): seq<Id> {
    if ids == [] then []
    else
      var last := ids[|ids| - 1];
      Remaining(ids[..|ids| - 1], gone) + if last in gone then [] else [last]
  }

  lemma {:induction false} RemainingFew(ids: seq<Id>, gone: set<Id>)
    ensures forall id :: id in Remaining(ids, gone) <==> id in ids && id !in gone
    ensures (forall id | id in ids :: id !in gone) ==> Remaining(ids, gone) == ids
  {
    if ids == [] {
    } else {
      RemainingFew(ids[..|ids| - 1], gone);
      assert ids == ids[..|ids| - 1] + [ids[|ids| - 1]];
    }
  }

  lemma {:induction false} RemainingConcat(a: seq<Id>, b: seq<Id>, gone: set<Id>)
    ensures Remaining(a + b, gone) == Remaining(a, gone) + Remaining(b, gone)
  {
    if b == [] {
      assert a + b == a;
    } else {
      var front := b[..|b| - 1];
      RemainingConcat(a, front, gone);
      assert (a + b)[..|a + b| - 1] == a + front;
    }
  }

  lemma {:induction false} RemainingMore(ids: seq<Id>, id: Id, gone: set<Id>)
    requires id !in gone
    ensures Remaining(ids + [id], gone) == Remaining(ids, gone) + [id]
  {
    RemainingFew([id], gone);
    hide Remaining;
    RemainingConcat(ids, [id], gone);
  }

  lemma {:induction false} RemainingTwice(ids: seq<Id>, gone: set<Id>, id: Id)
    ensures Remaining(Remaining(ids, gone), {id}) == Remaining(ids, gone + {id})
  {
    if ids == [] {
    } else {
      var front, last := ids[..|ids| - 1], ids[|ids| - 1];
      RemainingTwice(front, gone, id);
      RemainingConcat(Remaining(front, gone), if last in gone then [] else [last], {id});
      assert Remaining([last], {id}) == if last == id then [] else [last] by { assert [last][..0] == []; }
    }
  }

  lemma {:induction false} RemainingWithout(a: seq<Id>, id: Id, b: seq<Id>)
    requires id !in a && id !in b
    ensures Remaining(a + ([id] + b), {id}) == a + b
  {
    assert Remaining([id], {id}) == [] by { assert [id][..0] == []; }
    hide Remaining;
    RemainingConcat(a, [id] + b, {id});
    RemainingConcat([id], b, {id});
    RemainingFew(a, {id});
    RemainingFew(b, {id});
  }

  lemma {:induction false} RemovedRemains(ids: seq<Id>, id: Id, rest: seq<Id>)
    requires Removed(ids, id, rest) && Distinct(ids)
    ensures rest == Remaining(ids, {id})
  {
    var i :| 0 <= i < |ids| && ids[i] == id && id !in ids[..i] && rest == ids[..i] + ids[i + 1..];
    var a, b := ids[..i], ids[i + 1..];
    forall j | 0 <= j < |b| ensures b[j] != id { assert b[j] == ids[i + 1 + j]; }
    hide Removed, Distinct, Remaining;
    assert ids == a + ([id] + b);
    RemainingWithout(a, id, b);
  }

  lemma {:induction false} FreshSource(front: seq<Entry>, r: Entry, u: State)
    requires SourcesConserved(u) && SourcesOf(front, u) && forall q | q in front :: q.eventId != r.eventId
    ensures r.eventId !in u.unclassified && r.eventId !in Gone(u)
  {
    assert r.eventId !in u.sources;
    hide SourcesOf, ClassifiedSources;
    assert r.eventId !in Elements(u.unclassified);
  }

  lemma {:induction false} ConsumedWaits(ids: seq<Id>, gone: set<Id>, id: Id, before: seq<Id>, after: seq<Id>)
    requires before == Remaining(ids, gone) && Distinct(before) && Removed(before, id, after)
    ensures after == Remaining(ids, gone + {id})
  {
    hide Removed, Distinct;
    RemovedRemains(before, id, after);
    RemainingTwice(ids, gone, id);
    hide Remaining;
  }

  lemma {:induction false} WaitingNext(front: seq<Entry>, r: Entry, u: State, t: State)
    requires WaitingMoves(u, r, t) && SourcesConserved(u)
    requires (forall q | q in front :: q.eventId != r.eventId) && SourcesOf(front, u)
    requires u.unclassified == Remaining(Captured(front), Gone(u))
    ensures t.unclassified == Remaining(Captured(front + [r]), Gone(t))
  {
    assert (front + [r])[..|front|] == front;
    FreshSource(front, r, u);
    assert Distinct(u.unclassified) by { hide ClassifiedSources; }
    hide SourcesConserved, SourcesOf, Gone, Removed, Remaining, Distinct;
    var ids := Captured(front);
    assert Captured(front + [r]) == ids + if r.event.SourceCaptured? then [r.eventId] else [];
    hide Captured;
    if r.event.SourceCaptured? {
      assert Gone(t) == Gone(u);
      RemainingMore(ids, r.eventId, Gone(u));
    } else {
      assert ids + [] == ids;
      if Consumed(r.event).Some? {
        ConsumedWaits(ids, Gone(u), Consumed(r.event).value, u.unclassified, t.unclassified);
      } else {
        assert Gone(t) == Gone(u);
      }
    }
  }

  lemma {:induction false} SameGone(s: State, t: State)
    requires s.disposed == t.disposed && s.contracts == t.contracts
    ensures Gone(s) == Gone(t)
  {
  }

  /** The sources that wait are those captured and not consumed, in the order of their capture. */
  lemma {:induction false} WaitingHistory(rs: seq<Entry>, s: State)
    requires UniqueIds(rs) && Replay(rs) == Ok(s)
    ensures s.unclassified == Remaining(Captured(rs), Gone(s))
  {
    if rs == [] {
      ReplayEmpty(s);
    } else {
      var front, last := rs[..|rs| - 1], rs[|rs| - 1];
      hide Replay, ClausesExact, CurrentWork, EffectsRecorded, SourcesConserved, SourcesOf, DisposedOf, Captured,
        Remaining, Gone, SourcesMove, WaitingMoves, ContractsMove, LatestMoves, ActionMoves, EffectsMove;
      var u, t := LastLeads(rs, s);
      WaitingHistory(front, u);
      SourcesHistory(front, u);
      WaitingNext(front, last, u, t);
      SameGone(s, t);
    }
  }

  // ---------------------------------------------------------------- the whole state

  /** Every part of the state, read off the journal. */
  ghost predicate ReadOff(rs: seq<Entry>, s: State) {
    && SourcesOf(rs, s) && DisposedOf(rs, s) && s.unclassified == Remaining(Captured(rs), Gone(s))
    && ContractsOf(rs, s) && CurrentOf(rs, s) && ProgressOf(rs, s) && LifecycleOf(rs, s)
    && ActionsOf(rs, s) && (forall id :: ReconciliationsOf(s, id) == LookedAt(rs, id)) && GapsOf(rs, s)
    && HeadOf(rs, s)
  }

  lemma {:induction false} StateIsReadOff(rs: seq<Entry>, s: State)
    requires UniqueIds(rs) && Replay(rs) == Ok(s)
    ensures ReadOff(rs, s)
  {
    SourcesHistory(rs, s);
    WaitingHistory(rs, s);
    ContractsHistory(rs, s);
    LatestHistory(rs, s);
    ActionsHistory(rs, s);
    ReconciliationsHistory(rs, s);
    hide Replay, SourcesOf, DisposedOf, ContractsOf, CurrentOf, ProgressOf, LifecycleOf, ActionsOf, GapsOf, HeadOf,
      Captured, Remaining, Gone, LookedAt, ReconciliationsOf;
  }
}
