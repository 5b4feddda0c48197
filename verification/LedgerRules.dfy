/** The rules of every other kind of event: exactly when it is taken, and what progress does to the outcomes. */
module LedgerRules {
  import opened Common
  import opened LedgerModel
  import opened LedgerContract
  import opened LedgerFixpoint
  import opened LedgerMethods
  import opened LedgerReplay
  import opened LedgerInvariant
  import opened LedgerClassified

  // ---------------------------------------------------------------- progress

  predicate UpdateFits(u: OutcomeUpdate, open: map<Id, Outcome>) {
    && SafeId(u.outcomeId) && u.outcomeId in open && (u.status == Some(Open) || u.status == Some(Satisfied))
    && (open[u.outcomeId].status != Some(Open) ==> u.status == open[u.outcomeId].status)
  }

  /** Only open outcomes move, to satisfied, and none moves back, not even within one list. */
  predicate UpdatesFit(us: seq<OutcomeUpdate>, open: map<Id, Outcome>) {
    && (forall u | u in us :: UpdateFits(u, open))
    && forall i, j | 0 <= i < j < |us| && us[i].outcomeId == us[j].outcomeId && us[i].status == Some(Satisfied) ::
         us[j].status == Some(Satisfied)
  }

  lemma {:induction false} UpdatesFitHead(
      u: OutcomeUpdate, rest: seq<OutcomeUpdate>, open: map<Id, Outcome>, o: Outcome)
    requires UpdateFits(u, open) && o.status == u.status
    ensures UpdatesFit([u] + rest, open) <==> UpdatesFit(rest, open[u.outcomeId := o])
  {
    hide SafeId;
    var us, open' := [u] + rest, open[u.outcomeId := o];
    if UpdatesFit(us, open) {
      forall v | v in rest ensures UpdateFits(v, open') {
        var j :| 0 <= j < |rest| && rest[j] == v;
        assert us[0] == u && us[j + 1] == v && v in us;
      }
      forall i, j | 0 <= i < j < |rest| && rest[i].outcomeId == rest[j].outcomeId && rest[i].status == Some(Satisfied)
        ensures rest[j].status == Some(Satisfied)
      {
        assert us[i + 1] == rest[i] && us[j + 1] == rest[j];
      }
    }
    if UpdatesFit(rest, open') {
      forall v | v in us ensures UpdateFits(v, open) {
        if v != u { assert v in rest; }
      }
      forall i, j | 0 <= i < j < |us| && us[i].outcomeId == us[j].outcomeId && us[i].status == Some(Satisfied)
        ensures us[j].status == Some(Satisfied)
      {
        assert us[j] == rest[j - 1] && rest[j - 1] in rest;
      }
    }
  }

  /** What a list of updates makes of one outcome: each part is what was said of it last, or as it was. */
  ghost predicate UpdatedAs(us: seq<OutcomeUpdate>, id: Id, o: Outcome, n: Outcome) {
    && n == o.(status := n.status, evidence := n.evidence, rest := n.rest)
    && StatusAs(us, id, o.status, n.status)
    && EvidenceAs(us, id, o.evidence, n.evidence)
    && RestAs(us, id, o.rest, n.rest)
  }

  predicate NamedLast(us: seq<OutcomeUpdate>, i: int, id: Id) {
    0 <= i < |us| && us[i].outcomeId == id && forall j | i < j < |us| :: us[j].outcomeId != id
  }

  ghost predicate StatusAs(us: seq<OutcomeUpdate>, id: Id, before: Option<Status>, after: Option<Status>) {
    && ((forall u | u in us :: u.outcomeId != id) ==> after == before)
    && forall i | NamedLast(us, i, id) :: after == us[i].status
  }

  ghost predicate Gives(us: seq<OutcomeUpdate>, id: Id, ref: string) {
    exists u :: u in us && u.outcomeId == id && u.evidence.Some? && ref in u.evidence.value
  }

  /** Evidence is only added, after what was there, and nothing is listed twice. */
  ghost predicate EvidenceAs(us: seq<OutcomeUpdate>, id: Id, before: seq<string>, after: seq<string>) {
    && (forall ref :: ref in after <==> ref in before || Gives(us, id, ref))
    && (Distinct(before) ==> Distinct(after) && before <= after)
    && ((forall u | u in us && u.outcomeId == id :: u.evidence.None?) ==> after == before)
  }

  ghost predicate Says(us: seq<OutcomeUpdate>, id: Id, field: string) {
    exists u :: u in us && u.outcomeId == id && field in u.rest
  }

  predicate SaidLast(us: seq<OutcomeUpdate>, i: int, id: Id, field: string) {
    && 0 <= i < |us| && us[i].outcomeId == id && field in us[i].rest
    && forall j | i < j < |us| && us[j].outcomeId == id :: field !in us[j].rest
  }

  ghost predicate RestAs(us: seq<OutcomeUpdate>, id: Id, before: Fields, after: Fields) {
    && (forall f :: f in after <==> f in before || Says(us, id, f))
    && (forall f | f in before && !Says(us, id, f) :: after[f] == before[f])
    && forall i, f | SaidLast(us, i, id, f) :: f in after && after[f] == us[i].rest[f]
  }

  lemma {:induction false} DedupExtends(s: seq<string>, t: seq<string>)
    requires Distinct(s)
    ensures s <= Dedup(s + t)
  {
    if t == [] {
      assert s + t == s;
      DedupDistinct(s);
    } else {
      var front := t[..|t| - 1];
      DedupExtends(s, front);
      assert (s + t)[..|s + t| - 1] == s + front;
    }
  }

  lemma {:induction false} DedupDistinct(s: seq<string>)
    requires Distinct(s)
    ensures Dedup(s) == s
  {
    if s == [] {
    } else {
      DedupDistinct(s[..|s| - 1]);
    }
  }

  lemma {:induction false} NamedHead(u: OutcomeUpdate, rest: seq<OutcomeUpdate>, i: int, id: Id)
    requires NamedLast([u] + rest, i, id)
    ensures i == 0 ==> forall v | v in rest :: v.outcomeId != id
    ensures i != 0 ==> NamedLast(rest, i - 1, id)
  {
    var us := [u] + rest;
    forall j | 0 <= j < |rest| && i - 1 < j ensures rest[j].outcomeId != id { assert us[j + 1] == rest[j]; }
  }

  lemma {:induction false} StatusHead(
      u: OutcomeUpdate, rest: seq<OutcomeUpdate>, id: Id, before: Option<Status>, mid: Option<Status>,
      after: Option<Status>)
    requires mid == (if u.outcomeId == id then u.status else before) && StatusAs(rest, id, mid, after)
    ensures StatusAs([u] + rest, id, before, after)
  {
    var us := [u] + rest;
    if forall v | v in us :: v.outcomeId != id {
      assert u in us;
      forall v | v in rest ensures v.outcomeId != id { assert v in us; }
    }
    forall i | NamedLast(us, i, id) ensures after == us[i].status {
      NamedHead(u, rest, i, id);
      assert us[i].outcomeId == id;
    }
    hide NamedLast;
  }

  lemma {:induction false} EvidenceHead(
      u: OutcomeUpdate, rest: seq<OutcomeUpdate>, id: Id, before: seq<string>, mid: seq<string>, after: seq<string>)
    requires mid == if u.outcomeId == id && u.evidence.Some? then Dedup(before + u.evidence.value) else before
    requires EvidenceAs(rest, id, mid, after)
    ensures EvidenceAs([u] + rest, id, before, after)
  {
    var us := [u] + rest;
    forall ref ensures ref in after <==> ref in before || Gives(us, id, ref) {
      assert u in us;
      if Gives(rest, id, ref) {
        var v :| v in rest && v.outcomeId == id && v.evidence.Some? && ref in v.evidence.value;
        assert v in us;
      }
      if u.outcomeId == id && u.evidence.Some? {
        assert ref in mid <==> ref in Elements(before + u.evidence.value) by {
          assert ref in mid <==> ref in Elements(mid);
        }
      }
    }
    if u.outcomeId == id && u.evidence.Some? && Distinct(before) { DedupExtends(before, u.evidence.value); }
    if forall v | v in us && v.outcomeId == id :: v.evidence.None? {
      assert u in us;
      forall v | v in rest && v.outcomeId == id ensures v.evidence.None? { assert v in us; }
    }
    hide Dedup;
  }

  lemma {:induction false} SaysHead(u: OutcomeUpdate, rest: seq<OutcomeUpdate>, id: Id, f: string)
    ensures Says([u] + rest, id, f) <==> (u.outcomeId == id && f in u.rest) || Says(rest, id, f)
  {
    assert u in [u] + rest;
    if Says(rest, id, f) {
      var v :| v in rest && v.outcomeId == id && f in v.rest;
      assert v in [u] + rest;
    }
  }

  lemma {:induction false} SaidHead(u: OutcomeUpdate, rest: seq<OutcomeUpdate>, i: int, id: Id, f: string)
    requires SaidLast([u] + rest, i, id, f)
    ensures i == 0 ==> u.outcomeId == id && f in u.rest && !Says(rest, id, f)
    ensures i != 0 ==> SaidLast(rest, i - 1, id, f)
  {
    var us := [u] + rest;
    forall j | 0 <= j < |rest| && i - 1 < j && rest[j].outcomeId == id ensures f !in rest[j].rest {
      assert us[j + 1] == rest[j];
    }
  }

  lemma {:induction false} LastHolds(
      u: OutcomeUpdate, rest: seq<OutcomeUpdate>, id: Id, mid: Fields, after: Fields, i: int, f: string)
    requires u.outcomeId == id ==> forall f | f in u.rest :: f in mid && mid[f] == u.rest[f]
    requires RestAs(rest, id, mid, after) && SaidLast([u] + rest, i, id, f)
    ensures f in after && after[f] == ([u] + rest)[i].rest[f]
  {
    SaidHead(u, rest, i, id, f);
    hide SaidLast, Says;
  }

  lemma {:induction false} RestHead(
      u: OutcomeUpdate, rest: seq<OutcomeUpdate>, id: Id, before: Fields, mid: Fields, after: Fields)
    requires mid == if u.outcomeId == id then before + u.rest else before
    requires RestAs(rest, id, mid, after)
    ensures RestAs([u] + rest, id, before, after)
  {
    var us := [u] + rest;
    forall i, f | SaidLast(us, i, id, f) ensures f in after && after[f] == us[i].rest[f] {
      LastHolds(u, rest, id, mid, after, i, f);
    }
    hide SaidLast, Says;
    forall f ensures Says(us, id, f) <==> (u.outcomeId == id && f in u.rest) || Says(rest, id, f) {
      SaysHead(u, rest, id, f);
    }
  }

  lemma {:induction false} UpdatedHead(
      u: OutcomeUpdate, rest: seq<OutcomeUpdate>, id: Id, o: Outcome, m: Outcome, n: Outcome)
    requires UpdatedAs(rest, id, m, n)
    requires u.outcomeId != id ==> m == o
    requires u.outcomeId == id ==>
      m == o.(status := u.status, rest := o.rest + u.rest,
              evidence := if u.evidence.Some? then Dedup(o.evidence + u.evidence.value) else o.evidence)
    ensures UpdatedAs([u] + rest, id, o, n)
  {
    hide StatusAs, EvidenceAs, RestAs, Dedup;
    StatusHead(u, rest, id, o.status, m.status, n.status);
    EvidenceHead(u, rest, id, o.evidence, m.evidence, n.evidence);
    RestHead(u, rest, id, o.rest, m.rest, n.rest);
  }

  lemma {:induction false} UpdateExactly(u: OutcomeUpdate, open: map<Id, Outcome>)
    requires u.outcomeId in open && SafeId(u.outcomeId)
    ensures ApplyUpdate(open[u.outcomeId], u).Ok? <==> UpdateFits(u, open)
    ensures ApplyUpdate(open[u.outcomeId], u).Ok? ==>
      var o := open[u.outcomeId];
      ApplyUpdate(o, u).value == o.(status := u.status, rest := o.rest + u.rest,
        evidence := if u.evidence.Some? then Dedup(o.evidence + u.evidence.value) else o.evidence)
  {
    hide Dedup, SafeId;
  }

  /** Updates are taken exactly when they fit, and each outcome becomes what they say of it. */
  lemma {:induction false} UpdatesExactly(us: seq<OutcomeUpdate>, open: map<Id, Outcome>)
    ensures ApplyUpdates(us, open).Ok? <==> UpdatesFit(us, open)
    ensures ApplyUpdates(us, open).Ok? ==>
      var after := ApplyUpdates(us, open).value;
      after.Keys == open.Keys && forall id | id in open :: UpdatedAs(us, id, open[id], after[id])
  {
    if us == [] {
    } else {
      var u, rest := us[0], us[1..];
      assert us == [u] + rest && u in us;
      assert UpdatesFit(us, open) ==> UpdateFits(u, open);
      assert UpdateFits(u, open) ==> u.outcomeId in open && SafeId(u.outcomeId);
      if u.outcomeId in open && SafeId(u.outcomeId) {
        UpdateExactly(u, open);
        hide ApplyUpdate, SafeId, UpdatesFit, UpdateFits, UpdatedAs, Dedup;
        if UpdateFits(u, open) {
          var o := ApplyUpdate(open[u.outcomeId], u).value;
          var open' := open[u.outcomeId := o];
          UpdatesExactly(rest, open');
          UpdatesFitHead(u, rest, open, o);
          if ApplyUpdates(us, open).Ok? {
            var after := ApplyUpdates(us, open).value;
            assert after == ApplyUpdates(rest, open').value;
            hide ApplyUpdates;
            forall id | id in open ensures UpdatedAs(us, id, open[id], after[id]) {
              UpdatedHead(u, rest, id, open[id], open'[id], after[id]);
            }
          }
        }
      }
    }
  }

  // ---------------------------------------------------------------- exactly when replay takes an event

  /** At least one id, each of a clause of the current contract. */
  predicate Cites(s: State, ids: seq<Id>) {
    ids != [] && forall id | id in ids :: exists c :: c in CurrentClauses(s) && c.id == id
  }

  predicate Grounded(ground: Option<string>) {
    ground.Some? && !Blank(ground.value)
  }

  /** The source waits, and one that is set aside as a duplicate names clauses that already have it. */
  predicate Disposable(s: State, d: Disposal) {
    && SafeId(d.sourceId) && d.sourceId in s.unclassified
    && !d.disposition.OtherDisposition? && Grounded(d.ground)
    && (d.disposition.AlreadyIncorporatedDuplicate? ==>
          s.current.Some? && d.contractId == s.current && SafeId(s.current.value) && Cites(s, d.clauseIds))
  }

  predicate Progresses(s: State, p: Progress) {
    && p.unsupported == {} && !p.updates.NotAList? && (forall u | u in ListOf(p.updates) :: u.unsupported == {})
    && SafeId(p.contractId) && s.current == Some(p.contractId) && UpdatesFit(ListOf(p.updates), s.open)
  }

  /** The action is new, serves outcomes and clauses of the current contract, and what it retries has ended. */
  predicate Startable(s: State, a: ActionStart) {
    && SafeId(a.actionId) && a.actionId !in s.actions
    && SafeId(a.contractId) && s.current == Some(a.contractId)
    && a.outcomeIds != [] && (forall id | id in a.outcomeIds :: id in s.open)
    && Cites(s, a.clauseIds)
    && (a.retryOf.Some? ==>
          SafeId(a.retryOf.value) && a.retryOf.value in s.actions && !s.actions[a.retryOf.value].status.Pending?)
  }

  /** How an action may end, and what is known of its effect then. */
  const ENDINGS: set<(ActionStatus, Effect)> := {
    (Succeeded, ConfirmedSucceeded), (Failed, ConfirmedFailed), (Failed, ConfirmedPartial),
    (UnknownEffect, EffectUnknown), (Cancelled, NoEffectConfirmed), (Cancelled, EffectUnknown)
  }

  predicate Finishable(s: State, r: ActionResult) {
    && SafeId(r.actionId) && r.actionId in s.actions && s.actions[r.actionId].status.Pending?
    && r.effect.Some? && (r.status, r.effect.value) in ENDINGS
  }

  /** An unknown effect, and a result of looking again that is chained to the last such result. */
  predicate Reconcilable(s: State, r: Reconciliation) {
    && SafeId(r.actionId) && r.actionId in s.actions
    && (s.actions[r.actionId].status == UnknownEffect
        || (s.actions[r.actionId].status == Cancelled && s.actions[r.actionId].effect == Some(EffectUnknown)))
    && !r.resolution.OtherResolution? && r.evidence != []
    && if r.actionId in s.reconciliations && s.reconciliations[r.actionId] != []
       then
         var last := s.reconciliations[r.actionId][|s.reconciliations[r.actionId]| - 1];
         last.body.resolution == RemainsUnknown && r.priorEvent == Some(last.eventId)
       else r.priorEvent == None
  }

  predicate Supplementable(s: State, m: Supplement) {
    && SafeId(m.actionId) && m.actionId in s.actions && !s.actions[m.actionId].methodRecord.Sheet?
    && (m.methodRecord.Sheet? || MethodFits(m.methodRecord))
  }

  predicate GapResolvable(s: State, g: GapResolution) {
    && SafeId(g.gapId) && g.gapId !in s.gapResolutions && !g.decision.OtherDecision? && Grounded(g.ground)
    && (g.decision.SourceRecovered? ==>
          g.sourceId.Some? && SafeId(g.sourceId.value) && g.sourceId.value in s.sources)
  }

  ghost predicate Admissible(s: State, e: Event)
    requires WellCurrent(s)
  {
    match e
    case SourceCaptured(_, _) => true
    case SourceClassified(p) => Acceptable(p, s) && SourcesStand(p, s)
    case SourceDisposed(d) => Disposable(s, d)
    case ProgressMade(p) => Progresses(s, p)
    case ActionStarted(a) => Startable(s, a)
    case ActionFinished(r) => Finishable(s, r)
    case ActionReconciled(r) => Reconcilable(s, r)
    case MethodSupplemented(m) => Supplementable(s, m)
    case GapResolved(g) => GapResolvable(s, g)
    case Lifecycle(_) => true
    case UnknownEvent(_) => false
  }

  lemma {:induction false} CitesExactly(s: State, ids: seq<Id>)
    requires WellCurrent(s) && s.current.Some?
    ensures Cites(s, ids) <==> ids != [] && Elements(ids) <= ClauseIds(ClausesOf(s.contracts[s.current.value]))
  {
    var cs := ClausesOf(s.contracts[s.current.value]);
    forall id ensures id in ClauseIds(cs) <==> exists c :: c in cs && c.id == id {}
    assert forall id :: id in Elements(ids) <==> id in ids;
    hide ClauseIds, Elements, ClausesOf;
  }

  lemma {:induction false} DisposedExactly(s: State, d: Disposal)
    requires WellCurrent(s)
    ensures StepDisposed(s, d).Ok? <==> Disposable(s, d)
  {
    if s.current.Some? { CitesExactly(s, d.clauseIds); }
    hide SafeId, Blank, ClauseIds, Cites, Elements, Without, ClausesOf;
  }

  lemma {:induction false} ProgressExactly(s: State, p: Progress)
    ensures StepProgress(s, p).Ok? <==> Progresses(s, p)
    ensures StepProgress(s, p).Ok? ==>
      var t := StepProgress(s, p).value;
      && t == s.(open := t.open, latestProgress := Some(p)) && t.open.Keys == s.open.Keys
      && forall id | id in s.open :: UpdatedAs(ListOf(p.updates), id, s.open[id], t.open[id])
  {
    UpdatesExactly(ListOf(p.updates), s.open);
    hide SafeId, UpdatesFit, ApplyUpdates, UpdatedAs;
  }

  lemma {:induction false} StartedExactly(s: State, id: Id, a: ActionStart)
    requires WellCurrent(s)
    ensures StepStarted(s, id, a).Ok? <==> Startable(s, a)
  {
    if s.current.Some? { CitesExactly(s, a.clauseIds); }
    assert forall o :: o in Elements(a.outcomeIds) <==> o in a.outcomeIds;
    hide SafeId, ClauseIds, Cites, Elements, ClausesOf;
  }

  lemma {:induction false} FinishedExactly(s: State, id: Id, r: ActionResult)
    ensures StepFinished(s, id, r).Ok? <==> Finishable(s, r)
  {
    hide SafeId;
  }

  lemma {:induction false} ReconciledExactly(s: State, id: Id, r: Reconciliation)
    ensures StepReconciled(s, id, r).Ok? <==> Reconcilable(s, r)
  {
    hide SafeId;
  }

  lemma {:induction false} SupplementedExactly(s: State, id: Id, m: Supplement)
    ensures StepSupplemented(s, id, m).Ok? <==> Supplementable(s, m)
  {
    MethodExactly(m.methodRecord);
    hide SafeId, MethodFits, ValidateMethod;
  }

  lemma {:induction false} GapExactly(s: State, id: Id, g: GapResolution)
    ensures StepGapResolved(s, id, g).Ok? <==> GapResolvable(s, g)
  {
    hide SafeId, Blank;
  }

  /** Replay takes exactly the admissible events. */
  lemma {:induction false} StepExactly(s: State, id: Id, e: Event)
    requires WellCurrent(s) && OpenOutcomesKept(s)
    ensures StepEvent(s, id, e).Ok? <==> Admissible(s, e)
  {
    hide StepClassified, StepDisposed, StepProgress, StepStarted, StepFinished, StepReconciled, StepSupplemented,
      StepGapResolved, Acceptable, SourcesStand, Disposable, Progresses, Startable, Finishable, Reconcilable,
      Supplementable, GapResolvable, OpenOutcomesKept;
    match e
    case SourceClassified(p) => ClassifiedExactly(s, p);
    case SourceDisposed(d) => DisposedExactly(s, d);
    case ProgressMade(p) => ProgressExactly(s, p);
    case ActionStarted(a) => StartedExactly(s, id, a);
    case ActionFinished(r) => FinishedExactly(s, id, r);
    case ActionReconciled(r) => ReconciledExactly(s, id, r);
    case MethodSupplemented(m) => SupplementedExactly(s, id, m);
    case GapResolved(g) => GapExactly(s, id, g);
    case _ =>
  }
}
