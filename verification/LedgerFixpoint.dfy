/**
 * Normalisation is a fixpoint: what the validator returns on append, it accepts again on every later
 * replay and returns unchanged.
 */
module LedgerFixpoint {
  import opened Common
  import opened LedgerModel
  import opened LedgerContract

  /** An outcome as the state keeps it: a known status and the catalogued description. */
  predicate KeptOutcome(o: Outcome, id: Id, catalog: map<Id, string>) {
    && o.id == id && SafeId(id)
    && o.status.Some? && KnownStatus(o.status.value)
    && o.description.Some? && !Blank(o.description.value)
    && id in catalog && catalog[id] == o.description.value
  }

  ghost predicate OpenOutcomesKept(s: State) {
    forall id | id in s.open :: KeptOutcome(s.open[id], id, s.catalog)
  }

  ghost predicate CurrentContractKnown(s: State) {
    s.current.Some? ==> s.current.value in s.contracts
  }

  // ---------------------------------------------------------------- clauses

  lemma {:induction false} ClausesFixpoint(cs: seq<Clause>, sources: map<Id, Source>, seen: set<Id>)
    requires ValidateClauses(cs, sources, seen).Ok?
    ensures var q := ValidateClauses(cs, sources, seen).value;
      |q| == |cs| && ValidateClauses(q, sources, seen) == Ok(q)
  {
    if cs == [] {
    } else {
      UpperIdempotent(cs[0].sourceSha);
      ClausesFixpoint(cs[1..], sources, seen + {cs[0].id});
    }
  }

  /** The accepted clauses have distinct ids and each binds a captured source exactly. */
  lemma {:induction false} ClausesBound(cs: seq<Clause>, sources: map<Id, Source>, seen: set<Id>)
    requires ValidateClauses(cs, sources, seen).Ok?
    ensures var q := ValidateClauses(cs, sources, seen).value;
      && (forall c | c in q :: c.sourceId in sources && c.sourceRef == sources[c.sourceId].ref
                               && c.sourceSha == sources[c.sourceId].sha && c.id !in seen)
      && (forall i, j :: 0 <= i < j < |q| ==> q[i].id != q[j].id)
  {
    if cs == [] {
    } else {
      ClausesBound(cs[1..], sources, seen + {cs[0].id});
    }
  }

  // ---------------------------------------------------------------- outcomes

  predicate Passes(o: Outcome, catalog: map<Id, string>) {
    && SafeId(o.id)
    && o.status.Some? && KnownStatus(o.status.value)
    && o.description.Some? && !Blank(o.description.value)
    && (o.id in catalog ==> catalog[o.id] == o.description.value)
  }

  predicate DistinctIds(os: seq<Outcome>) {
    forall i, j :: 0 <= i < j < |os| ==> os[i].id != os[j].id
  }

  lemma {:induction false} ValidatedOutcomesPass(os: seq<Outcome>, catalog: map<Id, string>, seen: set<Id>)
    requires ValidateOutcomes(os, catalog, seen).Ok?
    ensures var q := ValidateOutcomes(os, catalog, seen).value;
      DistinctIds(q) && OutcomeIds(q) == OutcomeIds(os) && forall o | o in q :: Passes(o, catalog) && o.id !in seen
  {
    if os == [] {
    } else {
      ValidatedOutcomesPass(os[1..], catalog, seen + {os[0].id});
      var q := ValidateOutcomes(os, catalog, seen).value;
      assert os == [os[0]] + os[1..] && q == [q[0]] + q[1..];
      assert OutcomeIds(q) == {q[0].id} + OutcomeIds(q[1..]);
      assert OutcomeIds(os) == {os[0].id} + OutcomeIds(os[1..]);
    }
  }

  lemma {:induction false} PassingOutcomesAccepted(os: seq<Outcome>, catalog: map<Id, string>, seen: set<Id>)
    requires DistinctIds(os)
    requires forall o | o in os :: Passes(o, catalog) && o.id !in seen
    ensures ValidateOutcomes(os, catalog, seen) == Ok(os)
  {
    if os == [] {
    } else {
      assert os[0] in os;
      PassingOutcomesAccepted(os[1..], catalog, seen + {os[0].id});
      assert os == [os[0]] + os[1..];
    }
  }

  lemma {:induction false} AsMapFinds(os: seq<Outcome>)
    requires DistinctIds(os)
    ensures forall o | o in os :: o.id in AsMap(os) && AsMap(os)[o.id] == o
  {
    if os == [] {
    } else {
      AsMapFinds(os[..|os| - 1]);
    }
  }

  predicate SelfKeyed(m: map<Id, Outcome>) {
    forall k | k in m :: m[k].id == k
  }

  /** Listing a keyed collection in any order of its keys loses nothing. */
  lemma {:induction false} PickFinds(keys: seq<Id>, m: map<Id, Outcome>)
    requires SelfKeyed(m) && Distinct(keys) && Elements(keys) == m.Keys
    requires forall i | 0 <= i < |keys| :: keys[i] in m
    ensures DistinctIds(Pick(keys, m))
    ensures forall o | o in Pick(keys, m) :: o.id in m && m[o.id] == o
    ensures forall k | k in m :: m[k] in Pick(keys, m)
  {
    var os := Pick(keys, m);
    assert forall i | 0 <= i < |os| :: os[i].id == keys[i];
    forall k | k in m ensures m[k] in os {
      assert k in Elements(keys);
      var i :| 0 <= i < |keys| && keys[i] == k;
      assert os[i] == m[k];
    }
  }

  lemma {:induction false} ListedRoundTrip(os: seq<Outcome>, m: map<Id, Outcome>)
    requires DistinctIds(os)
    requires forall o | o in os :: o.id in m && m[o.id] == o
    requires forall k | k in m :: m[k] in os && m[k].id == k
    ensures OutcomeIds(os) == m.Keys
    ensures AsMap(os) == m
  {
    forall k | k in m ensures k in OutcomeIds(os) {
      assert m[k] in os;
    }
    AsMapFinds(os);
    var n := AsMap(os);
    assert n.Keys == m.Keys;
    forall k | k in m ensures n[k] == m[k] {
      assert m[k] in os;
    }
  }

  lemma {:induction false} KeyOrderRoundTrip(m: map<Id, Outcome>)
    requires SelfKeyed(m)
    ensures DistinctIds(InKeyOrder(m)) && OutcomeIds(InKeyOrder(m)) == m.Keys
    ensures forall o | o in InKeyOrder(m) :: o.id in m && m[o.id] == o
    ensures AsMap(InKeyOrder(m)) == m
  {
    var keys := Sorted(m.Keys);
    assert forall i | 0 <= i < |keys| :: keys[i] in Elements(keys);
    PickFinds(keys, m);
    ListedRoundTrip(Pick(keys, m), m);
  }

  // ---------------------------------------------------------------- transitions

  /** `o` is what transition `t` makes of the current outcome it names. */
  predicate Touched(t: OutcomeTransition, o: Outcome, current: map<Id, Outcome>, authority: set<Id>) {
    o.transition == Some(t) && CheckTransition(t, current, authority, {}) == Ok(o)
  }

  /** The transitions of `ts` and the touched outcomes `m` correspond one to one. */
  ghost predicate Matches(ts: seq<OutcomeTransition>, m: map<Id, Outcome>) {
    && (forall i, j :: 0 <= i < j < |ts| ==> ts[i].outcomeId != ts[j].outcomeId)
    && (forall t | t in ts :: t.outcomeId in m && m[t.outcomeId].transition == Some(t))
    && (forall k | k in m ::
      m[k].transition.Some? && m[k].transition.value in ts && m[k].transition.value.outcomeId == k)
  }

  ghost predicate AllTouched(m: map<Id, Outcome>, current: map<Id, Outcome>, authority: set<Id>) {
    forall k | k in m :: m[k].transition.Some? && Touched(m[k].transition.value, m[k], current, authority)
  }

  lemma {:induction false} TransitionIgnoresDone(
      t: OutcomeTransition, current: map<Id, Outcome>, authority: set<Id>, done: set<Id>)
    requires t.outcomeId !in done
    ensures CheckTransition(t, current, authority, done) == CheckTransition(t, current, authority, {})
  {
  }

  lemma {:induction false} CheckedNames(
      t: OutcomeTransition, current: map<Id, Outcome>, authority: set<Id>, done: set<Id>)
    requires CheckTransition(t, current, authority, done).Ok?
    ensures t.outcomeId !in done && CheckTransition(t, current, authority, done).value.transition == Some(t)
  {
  }

  lemma {:induction false} MatchesHead(
      t: OutcomeTransition, rest: seq<OutcomeTransition>, m: map<Id, Outcome>, o: Outcome)
    requires Matches(rest, m) && t.outcomeId !in m && o.transition == Some(t)
    ensures Matches([t] + rest, m[t.outcomeId := o])
  {
    var m' := m[t.outcomeId := o];
    forall u | u in [t] + rest ensures u.outcomeId in m' && m'[u.outcomeId].transition == Some(u) {
      if u != t { assert u in rest; }
    }
    forall i, j | 0 <= i < j < |[t] + rest| ensures ([t] + rest)[i].outcomeId != ([t] + rest)[j].outcomeId {
      assert rest[j - 1] in rest;
    }
  }

  lemma {:induction false} TouchedHead(
    t: OutcomeTransition, m: map<Id, Outcome>, o: Outcome, current: map<Id, Outcome>, authority: set<Id>)
    requires AllTouched(m, current, authority) && Touched(t, o, current, authority)
    ensures AllTouched(m[t.outcomeId := o], current, authority)
  {
    hide CheckTransition;
  }

  /** Accepted transitions name distinct outcomes, and each outcome touched records its transition. */
  lemma {:induction false} TransitionsTouch(
    ts: seq<OutcomeTransition>, current: map<Id, Outcome>, authority: set<Id>, done: set<Id>)
    requires ApplyTransitions(ts, current, authority, done).Ok?
    ensures var m := ApplyTransitions(ts, current, authority, done).value;
      Matches(ts, m) && AllTouched(m, current, authority) && m.Keys !! done
  {
    if ts == [] {
    } else {
      var t := ts[0];
      var o := CheckTransition(t, current, authority, done).value;
      var rest := ApplyTransitions(ts[1..], current, authority, done + {t.outcomeId}).value;
      TransitionsTouch(ts[1..], current, authority, done + {t.outcomeId});
      TransitionIgnoresDone(t, current, authority, done);
      CheckedNames(t, current, authority, done);
      assert ts == [t] + ts[1..];
      hide CheckTransition;
      MatchesHead(t, ts[1..], rest, o);
      TouchedHead(t, rest, o, current, authority);
    }
  }

  lemma {:induction false} MatchesTail(ts: seq<OutcomeTransition>, m: map<Id, Outcome>)
    requires Matches(ts, m) && ts != []
    ensures Matches(ts[1..], m - {ts[0].outcomeId})
  {
    var m' := m - {ts[0].outcomeId};
    forall t | t in ts[1..] ensures t.outcomeId in m' && m'[t.outcomeId].transition == Some(t) {
      var i :| 1 <= i < |ts| && ts[i] == t;
      assert ts[0].outcomeId != ts[i].outcomeId;
    }
    forall k | k in m' ensures m'[k].transition.value in ts[1..] {
      var t := m[k].transition.value;
      var i :| 0 <= i < |ts| && ts[i] == t;
      assert ts[1..][i - 1] == t;
    }
  }

  lemma {:induction false} FirstReplays(
    ts: seq<OutcomeTransition>, current: map<Id, Outcome>, authority: set<Id>, done: set<Id>, m: map<Id, Outcome>)
    requires Matches(ts, m) && AllTouched(m, current, authority) && m.Keys !! done && ts != []
    ensures var id := ts[0].outcomeId;
      && id in m && Matches(ts[1..], m - {id}) && AllTouched(m - {id}, current, authority)
      && (m - {id}).Keys !! done + {id} && CheckTransition(ts[0], current, authority, done) == Ok(m[id])
  {
    hide CheckTransition;
    MatchesTail(ts, m);
    assert ts[0] in ts;
    TransitionIgnoresDone(ts[0], current, authority, done);
  }

  lemma {:induction false} TransitionsReplay(
    ts: seq<OutcomeTransition>, current: map<Id, Outcome>, authority: set<Id>, done: set<Id>, m: map<Id, Outcome>)
    requires Matches(ts, m) && AllTouched(m, current, authority)
    requires m.Keys !! done
    ensures ApplyTransitions(ts, current, authority, done) == Ok(m)
  {
    if ts == [] {
      assert m == map[];
    } else {
      hide CheckTransition, Matches, AllTouched;
      var id := ts[0].outcomeId;
      FirstReplays(ts, current, authority, done, m);
      TransitionsReplay(ts[1..], current, authority, done + {id}, m - {id});
      assert m == (m - {id})[id := m[id]];
    }
  }

  lemma {:induction false} TransitionsInMatch(os: seq<Outcome>)
    requires DistinctIds(os)
    requires forall o | o in os :: o.transition.Some? && o.transition.value.outcomeId == o.id
    ensures |TransitionsIn(os)| == |os|
    ensures forall i | 0 <= i < |os| :: os[i].transition == Some(TransitionsIn(os)[i])
  {
    if os == [] {
    } else {
      assert os[0] in os;
      TransitionsInMatch(os[1..]);
    }
  }

  lemma {:induction false} KeyOrderMatches(ts: seq<OutcomeTransition>, m: map<Id, Outcome>, os: seq<Outcome>)
    requires Matches(ts, m) && SelfKeyed(m)
    requires DistinctIds(os) && OutcomeIds(os) == m.Keys && forall o | o in os :: o.id in m && m[o.id] == o
    ensures Matches(TransitionsIn(os), m)
  {
    TransitionsInMatch(os);
    var ts' := TransitionsIn(os);
    assert forall i | 0 <= i < |os| :: ts'[i].outcomeId == os[i].id by {
      forall i | 0 <= i < |os| ensures ts'[i].outcomeId == os[i].id { assert os[i] in os; }
    }
    forall k | k in m ensures m[k].transition.value in ts' {
      assert k in OutcomeIds(os);
      var i :| 0 <= i < |os| && os[i].id == k;
      assert os[i] in os;
    }
  }

  lemma {:induction false} FirstTransitionFound(ts: seq<OutcomeTransition>, id: Id)
    ensures FirstTransition(ts, id).Some? ==>
      FirstTransition(ts, id).value in ts && FirstTransition(ts, id).value.outcomeId == id
    ensures FirstTransition(ts, id).None? ==> forall t | t in ts :: t.outcomeId != id
  {
    if ts == [] {
    } else {
      FirstTransitionFound(ts[1..], id);
      assert ts == [ts[0]] + ts[1..];
    }
  }

  lemma {:induction false} MatchingAgree(
      ts: seq<OutcomeTransition>, ts': seq<OutcomeTransition>, m: map<Id, Outcome>, id: Id)
    requires Matches(ts, m) && Matches(ts', m)
    ensures FirstTransition(ts, id) == FirstTransition(ts', id)
  {
    FirstTransitionFound(ts, id);
    FirstTransitionFound(ts', id);
  }

  lemma {:induction false} TouchedKeys(
    ts: seq<OutcomeTransition>, current: map<Id, Outcome>, authority: set<Id>, m: map<Id, Outcome>)
    requires SelfKeyed(current) && Matches(ts, m) && AllTouched(m, current, authority)
    ensures SelfKeyed(m) && m.Keys <= current.Keys
  {
    forall k | k in m ensures m[k].id == k && k in current {
      assert CheckTransition(m[k].transition.value, current, authority, {}) == Ok(m[k]);
    }
  }

  lemma {:induction false} TransitionsFixpoint(
      ts: seq<OutcomeTransition>, current: map<Id, Outcome>, authority: set<Id>, m: map<Id, Outcome>)
    requires SelfKeyed(current)
    requires ApplyTransitions(ts, current, authority, {}) == Ok(m)
    ensures SelfKeyed(m) && m.Keys <= current.Keys
    ensures ApplyTransitions(TransitionsIn(InKeyOrder(m)), current, authority, {}) == Ok(m)
    ensures Matches(ts, m) && Matches(TransitionsIn(InKeyOrder(m)), m)
  {
    hide *;
    TransitionsTouch(ts, current, authority, {});
    TouchedKeys(ts, current, authority, m);
    KeyOrderRoundTrip(m);
    KeyOrderMatches(ts, m, InKeyOrder(m));
    TransitionsReplay(TransitionsIn(InKeyOrder(m)), current, authority, {}, m);
  }

  predicate CorrectionFits(o: Outcome, d: Disposition, prior: set<Id>, ts: seq<OutcomeTransition>) {
    o.corrects.Some? && o.id !in prior ==>
      && SafeId(o.corrects.value) && d.Correct? && o.corrects.value in prior && o.id != o.corrects.value
      && FirstTransition(ts, o.corrects.value).Some?
      && FirstTransition(ts, o.corrects.value).value.operation.Supersede?
  }

  lemma {:induction false} CorrectionsFit(os: seq<Outcome>, d: Disposition, prior: set<Id>, ts: seq<OutcomeTransition>)
    ensures CheckCorrections(os, d, prior, ts).Ok? <==> forall o | o in os :: CorrectionFits(o, d, prior, ts)
  {
    if os == [] {
    } else {
      CorrectionsFit(os[1..], d, prior, ts);
      assert os == [os[0]] + os[1..];
      assert CheckCorrections(os, d, prior, ts).Ok? <==>
             CorrectionFits(os[0], d, prior, ts) && CheckCorrections(os[1..], d, prior, ts).Ok?;
    }
  }

  // ---------------------------------------------------------------- the incremental branch

  /** The outcomes an increment publishes: the state's own, then the new ones, then the transitions. */
  function Merged(open: map<Id, Outcome>, supplied: seq<Outcome>, touched: map<Id, Outcome>): map<Id, Outcome> {
    MergeNew(open, AsMap(supplied)) + touched
  }

  lemma {:induction false} TouchedPasses(
    s: State, authority: set<Id>, ts: seq<OutcomeTransition>, touched: map<Id, Outcome>)
    requires OpenOutcomesKept(s) && Matches(ts, touched) && AllTouched(touched, s.open, authority)
    ensures forall k | k in touched :: k in s.open && Passes(touched[k], s.catalog)
  {
    forall k | k in touched ensures k in s.open && Passes(touched[k], s.catalog) {
      assert CheckTransition(touched[k].transition.value, s.open, authority, {}) == Ok(touched[k]);
      assert KeptOutcome(s.open[k], k, s.catalog);
    }
  }

  lemma {:induction false} MergedValue(open: map<Id, Outcome>, supplied: seq<Outcome>, touched: map<Id, Outcome>)
    requires DistinctIds(supplied) && touched.Keys <= open.Keys <= OutcomeIds(supplied)
    ensures var m := Merged(open, supplied, touched);
      && m.Keys == OutcomeIds(supplied)
      && (forall k | k in m && k in touched :: m[k] == touched[k])
      && (forall k | k in m && k !in touched && k in open :: m[k] == open[k])
      && (forall k | k in m && k !in open :: m[k] in supplied && m[k].id == k)
      && (forall o | o in supplied && o.id !in open :: m[o.id] == o)
  {
    AsMapFinds(supplied);
    var given := AsMap(supplied);
    hide AsMap;
  }

  lemma {:induction false} MergedPasses(s: State, supplied: seq<Outcome>, touched: map<Id, Outcome>)
    requires OpenOutcomesKept(s) && SelfKeyed(touched)
    requires DistinctIds(supplied) && forall o | o in supplied :: Passes(o, s.catalog)
    requires s.open.Keys <= OutcomeIds(supplied)
    requires forall k | k in touched :: k in s.open && Passes(touched[k], s.catalog)
    ensures var m := Merged(s.open, supplied, touched);
      && SelfKeyed(m) && m.Keys == OutcomeIds(supplied)
      && (forall k | k in m :: Passes(m[k], s.catalog))
      && (forall k | k in m && k !in s.open :: m[k] in supplied)
      && (forall o | o in supplied && o.id !in s.open :: m[o.id] == o)
  {
    MergedValue(s.open, supplied, touched);
    var m := Merged(s.open, supplied, touched);
    hide Merged, Passes, KeptOutcome;
    forall k | k in m ensures m[k].id == k && Passes(m[k], s.catalog) {
      if k !in touched && k in s.open { KeptPasses(s, k); }
    }
  }

  lemma {:induction false} KeptPasses(s: State, k: Id)
    requires OpenOutcomesKept(s) && k in s.open
    ensures s.open[k].id == k && Passes(s.open[k], s.catalog)
  {
    assert KeptOutcome(s.open[k], k, s.catalog);
  }

  lemma {:induction false} MergedAgain(
    open: map<Id, Outcome>, supplied: seq<Outcome>, touched: map<Id, Outcome>, os: seq<Outcome>)
    requires touched.Keys <= open.Keys <= OutcomeIds(supplied)
    requires AsMap(os) == Merged(open, supplied, touched)
    ensures Merged(open, os, touched) == Merged(open, supplied, touched)
  {
  }

  /** The checks of the incremental branch, as one condition. */
  predicate IncrementChecks(
    p: Classification, d: Disposition, s: State, parent: Contract, normative: map<Field, Value>,
    clauses: seq<Clause>, supplied: seq<Outcome>, superseded: set<Id>, touched: map<Id, Outcome>)
  {
    && p.sourceId in s.sources && s.open.Keys <= OutcomeIds(supplied)
    && CheckClauseLineage(p, d, ClausesOf(parent), clauses) == Ok(superseded)
    && (d.Correct? || Lookup(normative, PrimaryObjective) == Lookup(parent.body.normative, PrimaryObjective))
    && (forall o | o in supplied && o.id !in s.open :: o.status == Some(Open))
    && !p.contract.transitions.NotAList? && !p.normative.NotAList?
    && var authority := BoundClauseIds(clauses, p.sourceId, s.sources[p.sourceId]);
    && (superseded == {} || authority != {})
    && TransitionedFields(ListOf(p.normative), d, authority, {})
         == Ok(ChangedFields(p.contract.normative.Keys, normative, parent.body.normative))
    && ApplyTransitions(ListOf(p.contract.transitions), s.open, authority, {}) == Ok(touched)
    && CheckCorrections(supplied, d, s.open.Keys, ListOf(p.contract.transitions)).Ok?
  }

  lemma {:induction false} IncrementOpened(
    p: Classification, d: Disposition, s: State, parent: Contract, normative: map<Field, Value>,
    clauses: seq<Clause>, supplied: seq<Outcome>, inc: Increment)
    returns (superseded: set<Id>, touched: map<Id, Outcome>)
    requires p.sourceId in s.sources
    requires ValidateIncrement(p, d, s, parent, normative, clauses, supplied) == Ok(inc)
    ensures IncrementChecks(p, d, s, parent, normative, clauses, supplied, superseded, touched)
    ensures inc == Increment(InKeyOrder(Merged(s.open, supplied, touched)), TransitionsIn(InKeyOrder(touched)),
                             Sorted(superseded), ListOf(p.normative))
  {
    hide Sorted, Pick, AsMap;
    superseded := CheckClauseLineage(p, d, ClausesOf(parent), clauses).value;
    var authority := BoundClauseIds(clauses, p.sourceId, s.sources[p.sourceId]);
    touched := ApplyTransitions(ListOf(p.contract.transitions), s.open, authority, {}).value;
  }

  lemma {:induction false} IncrementClosed(
    p: Classification, d: Disposition, s: State, parent: Contract, normative: map<Field, Value>,
    clauses: seq<Clause>, supplied: seq<Outcome>, superseded: set<Id>, touched: map<Id, Outcome>)
    requires IncrementChecks(p, d, s, parent, normative, clauses, supplied, superseded, touched)
    ensures ValidateIncrement(p, d, s, parent, normative, clauses, supplied)
         == Ok(Increment(InKeyOrder(Merged(s.open, supplied, touched)), TransitionsIn(InKeyOrder(touched)),
                         Sorted(superseded), ListOf(p.normative)))
  {
    hide Sorted, Pick, AsMap;
  }

  lemma {:induction false} CorrectionsFixpoint(
    d: Disposition, prior: set<Id>, supplied: seq<Outcome>, os: seq<Outcome>,
    ts: seq<OutcomeTransition>, ts': seq<OutcomeTransition>, touched: map<Id, Outcome>)
    requires CheckCorrections(supplied, d, prior, ts).Ok?
    requires Matches(ts, touched) && Matches(ts', touched)
    requires forall o | o in os && o.id !in prior :: o in supplied
    ensures CheckCorrections(os, d, prior, ts').Ok?
  {
    CorrectionsFit(supplied, d, prior, ts);
    CorrectionsFit(os, d, prior, ts');
    forall o | o in os ensures CorrectionFits(o, d, prior, ts') {
      if o.corrects.Some? && o.id !in prior {
        assert CorrectionFits(o, d, prior, ts);
        MatchingAgree(ts, ts', touched, o.corrects.value);
      }
    }
  }

  lemma {:induction false} ClauseLineageFixpoint(
    p: Classification, q: Classification, d: Disposition, parent: seq<Clause>, clauses: seq<Clause>,
    superseded: set<Id>)
    requires CheckClauseLineage(p, d, parent, clauses) == Ok(superseded)
    requires q.supersedes == Items(Sorted(superseded))
    ensures CheckClauseLineage(q, d, parent, clauses) == Ok(superseded)
  {
    var listed := Sorted(superseded);
    hide Sorted;
    assert Elements(listed) == superseded;
  }

  /** The outcomes and transitions a second run starts from lead it to the same merge. */
  lemma {:induction false} OutcomesFixpoint(
    d: Disposition, s: State, authority: set<Id>, ts: seq<OutcomeTransition>, supplied: seq<Outcome>,
    touched: map<Id, Outcome>)
    requires OpenOutcomesKept(s)
    requires DistinctIds(supplied) && forall o | o in supplied :: Passes(o, s.catalog)
    requires s.open.Keys <= OutcomeIds(supplied)
    requires forall o | o in supplied && o.id !in s.open :: o.status == Some(Open)
    requires ApplyTransitions(ts, s.open, authority, {}) == Ok(touched)
    requires CheckCorrections(supplied, d, s.open.Keys, ts).Ok?
    ensures var os, ts' := InKeyOrder(Merged(s.open, supplied, touched)), TransitionsIn(InKeyOrder(touched));
      && DistinctIds(os) && (forall o | o in os :: Passes(o, s.catalog))
      && OutcomeIds(os) == OutcomeIds(supplied)
      && (forall o | o in os && o.id !in s.open :: o.status == Some(Open))
      && Merged(s.open, os, touched) == Merged(s.open, supplied, touched)
      && ApplyTransitions(ts', s.open, authority, {}) == Ok(touched)
      && CheckCorrections(os, d, s.open.Keys, ts').Ok?
  {
    assert SelfKeyed(s.open) by { forall k | k in s.open ensures s.open[k].id == k { KeptPasses(s, k); } }
    var merged := Merged(s.open, supplied, touched);
    var os, ts' := InKeyOrder(merged), TransitionsIn(InKeyOrder(touched));
    hide *;
    TransitionsFixpoint(ts, s.open, authority, touched);
    TransitionsTouch(ts, s.open, authority, {});
    TouchedPasses(s, authority, ts, touched);
    MergedPasses(s, supplied, touched);
    KeyOrderRoundTrip(merged);
    ListedNew(s.open.Keys, s.catalog, merged, supplied, os);
    MergedAgain(s.open, supplied, touched, os);
    CorrectionsFixpoint(d, s.open.Keys, supplied, os, ts, ts', touched);
  }

  lemma {:induction false} ListedNew(
    prior: set<Id>, catalog: map<Id, string>, m: map<Id, Outcome>, supplied: seq<Outcome>, os: seq<Outcome>)
    requires forall o | o in os :: o.id in m && m[o.id] == o
    requires forall k | k in m :: Passes(m[k], catalog)
    requires forall k | k in m && k !in prior :: m[k] in supplied
    ensures forall o | o in os && o.id !in prior :: o in supplied
    ensures forall o | o in os :: Passes(o, catalog)
  {
  }

  lemma {:induction false} ChangedFieldsFixpoint(own: map<Field, Value>, parent: map<Field, Value>)
    ensures Inherit(Inherit(own, parent), parent) == Inherit(own, parent)
    ensures ChangedFields(Inherit(own, parent).Keys, Inherit(own, parent), parent)
         == ChangedFields(own.Keys, Inherit(own, parent), parent)
  {
  }

  lemma {:induction false} ChecksFixpoint(
    p: Classification, q: Classification, d: Disposition, s: State, s': State, parent: Contract,
    normative: map<Field, Value>, clauses: seq<Clause>, supplied: seq<Outcome>, os: seq<Outcome>,
    superseded: set<Id>, touched: map<Id, Outcome>)
    requires IncrementChecks(p, d, s, parent, normative, clauses, supplied, superseded, touched)
    requires s'.sources == s.sources && s'.open == s.open
    requires q.sourceId == p.sourceId && !q.contract.transitions.NotAList?
    requires q.normative == Items(ListOf(p.normative))
    requires ChangedFields(q.contract.normative.Keys, normative, parent.body.normative)
          == ChangedFields(p.contract.normative.Keys, normative, parent.body.normative)
    requires CheckClauseLineage(q, d, ClausesOf(parent), clauses) == Ok(superseded)
    requires OutcomeIds(os) == OutcomeIds(supplied)
    requires forall o | o in os && o.id !in s.open :: o.status == Some(Open)
    requires ApplyTransitions(ListOf(q.contract.transitions), s.open,
               BoundClauseIds(clauses, p.sourceId, s.sources[p.sourceId]), {}) == Ok(touched)
    requires CheckCorrections(os, d, s.open.Keys, ListOf(q.contract.transitions)).Ok?
    ensures IncrementChecks(q, d, s', parent, normative, clauses, os, superseded, touched)
  {
    hide ChangedFields, CheckClauseLineage, ApplyTransitions, CheckCorrections, TransitionedFields, BoundClauseIds,
      OutcomeIds, Lookup;
  }

  /** Running the incremental branch on its own output gives the same output. */
  lemma {:induction false} IncrementFixpoint(
    p: Classification, q: Classification, d: Disposition, s: State, s': State, parent: Contract,
    normative: map<Field, Value>, clauses: seq<Clause>, supplied: seq<Outcome>, inc: Increment)
    requires p.sourceId in s.sources && OpenOutcomesKept(s)
    requires s'.sources == s.sources && s'.open == s.open
    requires DistinctIds(supplied) && forall o | o in supplied :: Passes(o, s.catalog)
    requires normative == Inherit(p.contract.normative, parent.body.normative)
    requires ValidateIncrement(p, d, s, parent, normative, clauses, supplied) == Ok(inc)
    requires q.sourceId == p.sourceId && q.contract.normative == normative
    requires q.contract.transitions == Items(inc.transitions)
    requires q.supersedes == Items(inc.superseded) && q.normative == Items(inc.normative)
    ensures DistinctIds(inc.outcomes) && forall o | o in inc.outcomes :: Passes(o, s.catalog)
    ensures ValidateIncrement(q, d, s', parent, normative, clauses, inc.outcomes) == Ok(inc)
  {
    hide *;
    var superseded, touched := IncrementOpened(p, d, s, parent, normative, clauses, supplied, inc);
    ChangedFieldsFixpoint(p.contract.normative, parent.body.normative);
    IncrementStep(p, q, d, s, s', parent, normative, clauses, supplied, inc.outcomes, superseded, touched);
    IncrementClosed(q, d, s', parent, normative, clauses, inc.outcomes, superseded, touched);
  }

  lemma {:induction false} IncrementStep(
    p: Classification, q: Classification, d: Disposition, s: State, s': State, parent: Contract,
    normative: map<Field, Value>, clauses: seq<Clause>, supplied: seq<Outcome>, os: seq<Outcome>,
    superseded: set<Id>, touched: map<Id, Outcome>)
    requires OpenOutcomesKept(s) && s'.sources == s.sources && s'.open == s.open
    requires DistinctIds(supplied) && forall o | o in supplied :: Passes(o, s.catalog)
    requires IncrementChecks(p, d, s, parent, normative, clauses, supplied, superseded, touched)
    requires q.sourceId == p.sourceId
    requires q.contract.transitions == Items(TransitionsIn(InKeyOrder(touched)))
    requires q.supersedes == Items(Sorted(superseded)) && q.normative == Items(ListOf(p.normative))
    requires os == InKeyOrder(Merged(s.open, supplied, touched))
    requires ChangedFields(q.contract.normative.Keys, normative, parent.body.normative)
          == ChangedFields(p.contract.normative.Keys, normative, parent.body.normative)
    ensures DistinctIds(os) && forall o | o in os :: Passes(o, s.catalog)
    ensures Merged(s.open, os, touched) == Merged(s.open, supplied, touched)
    ensures IncrementChecks(q, d, s', parent, normative, clauses, os, superseded, touched)
    ensures q.normative.Items? && q.normative.items == ListOf(q.normative)
  {
    hide Sorted, Pick, AsMap, InKeyOrder, TransitionsIn, ApplyTransitions, CheckCorrections, TransitionedFields,
      CheckClauseLineage, MergeNew, Merged, Passes, ChangedFields, BoundClauseIds, OutcomeIds, DistinctIds,
      OpenOutcomesKept;
    var authority := BoundClauseIds(clauses, p.sourceId, s.sources[p.sourceId]);
    OutcomesFixpoint(d, s, authority, ListOf(p.contract.transitions), supplied, touched);
    ClauseLineageFixpoint(p, q, d, ClausesOf(parent), clauses, superseded);
    ChecksFixpoint(p, q, d, s, s', parent, normative, clauses, supplied, os, superseded, touched);
  }

  /**
   * The bare state a replay works on: no source integrity is attached while records are folded.
   */
  function Bare(s: State): State {
    s.(integrity := map[], unproven := {}, gaps := map[])
  }

  lemma {:induction false} DraftFacts(p: Classification, s: State)
    requires CurrentContractKnown(s) && DraftContract(p, s).Ok?
    ensures var draft := DraftContract(p, s).value;
      && p.sourceId in s.sources && p.disposition == Some(draft.disposition)
      && (draft.disposition.Incremental() ==>
            s.current.Some?
            && draft.normative == Inherit(p.contract.normative, s.contracts[s.current.value].body.normative))
      && DistinctIds(draft.supplied) && (forall o | o in draft.supplied :: Passes(o, s.catalog))
      && (draft.disposition.Withdraw? ==> draft.supplied == [])
  {
    ValidatedOutcomesPass(ListOf(p.contract.outcomes), s.catalog, {});
    hide ValidateClauseRefs, ValidateOutcomes, Passes, DistinctIds, SafeId, Lookup, CheckObjective, SourcesAvailable;
  }

  /** A published payload passes the shared checks again; the draft is the same but for its outcomes. */
  lemma {:induction false} RedraftAccepted(
      p: Classification, q: Classification, draft: Draft, s: State, s': State, os: seq<Outcome>)
    requires CurrentContractKnown(s) && DraftContract(p, s) == Ok(draft)
    requires s' == s || s' == Bare(s)
    requires q.sourceId == p.sourceId && q.disposition == p.disposition && q.unsupported == p.unsupported
    requires q.contract == p.contract.(normative := draft.normative, clauses := Items(draft.clauses),
                                       outcomes := Items(os), transitions := q.contract.transitions)
    requires draft.disposition.Withdraw? ==> os == []
    requires DistinctIds(os) && forall o | o in os :: Passes(o, s.catalog)
    ensures DraftContract(q, s') == Ok(draft.(supplied := os))
  {
    hide ValidateClauses, ValidateOutcomes, Passes, DistinctIds, SafeId, CheckObjective, CheckClassifiedSource,
      SourcesAvailable, CurrentContractSources;
    PassingOutcomesAccepted(os, s.catalog, {});
    ClausesFixpoint(p.contract.clauses.items, s.sources, {});
    if draft.disposition.Incremental() {
      ChangedFieldsFixpoint(p.contract.normative, s.contracts[s.current.value].body.normative);
    }
    SourceCheckAgain(p, q, s, s');
    LineageCheckAgain(p, q, s, draft.disposition);
    hide Inherit, CheckLineage;
  }

  lemma {:induction false} SourceCheckAgain(p: Classification, q: Classification, s: State, s': State)
    requires CheckClassifiedSource(p, s).Ok? && (s' == s || s' == Bare(s))
    requires q.sourceId == p.sourceId && q.disposition == p.disposition && q.unsupported == p.unsupported
    requires q.contract.contractId == p.contract.contractId && q.contract.unsupported == p.contract.unsupported
    ensures CheckClassifiedSource(q, s') == CheckClassifiedSource(p, s)
  {
    hide SafeId;
  }

  lemma {:induction false} LineageCheckAgain(p: Classification, q: Classification, s: State, d: Disposition)
    requires q.contract.parentId == p.contract.parentId && q.contract.replacesId == p.contract.replacesId
    requires q.contract.withdrawsId == p.contract.withdrawsId
    ensures CheckLineage(d, q.contract, s.current) == CheckLineage(d, p.contract, s.current)
  {
  }

  lemma {:induction false} WholeOutcomesFixpoint(supplied: seq<Outcome>, catalog: map<Id, string>)
    requires DistinctIds(supplied) && forall o | o in supplied :: Passes(o, catalog)
    ensures var os := InKeyOrder(AsMap(supplied));
      && DistinctIds(os) && (forall o | o in os :: Passes(o, catalog))
      && AsMap(os) == AsMap(supplied) && (supplied == [] ==> os == [])
  {
    var m := AsMap(supplied);
    assert SelfKeyed(m);
    if supplied == [] { assert InKeyOrder(m) == []; }
    hide Sorted, Pick, InKeyOrder, AsMap, Passes, DistinctIds;
    KeyOrderRoundTrip(m);
  }

  lemma {:induction false} SettleFixpoint(
      p: Classification, q: Classification, draft: Draft, s: State, s': State, inc: Increment)
    requires CurrentContractKnown(s) && OpenOutcomesKept(s)
    requires s' == s || s' == Bare(s)
    requires p.sourceId in s.sources
    requires draft.disposition.Incremental() ==> s.current.Some?
    requires draft.disposition.Incremental() ==>
      draft.normative == Inherit(p.contract.normative, s.contracts[s.current.value].body.normative)
    requires DistinctIds(draft.supplied) && forall o | o in draft.supplied :: Passes(o, s.catalog)
    requires SettleOutcomes(p, draft, s) == Ok(inc) && q == Publish(p, draft, inc)
    ensures DistinctIds(inc.outcomes) && forall o | o in inc.outcomes :: Passes(o, s.catalog)
    ensures !draft.disposition.Incremental() && draft.supplied == [] ==> inc.outcomes == []
    ensures SettleOutcomes(q, draft.(supplied := inc.outcomes), s') == Ok(inc)
  {
    var d := draft.disposition;
    if d.Incremental() {
      var parent := s.contracts[s.current.value];
      hide ValidateIncrement, Inherit, Passes, DistinctIds, OpenOutcomesKept, InKeyOrder, AsMap;
      IncrementFixpoint(p, q, d, s, s', parent, draft.normative, draft.clauses, draft.supplied, inc);
    } else {
      hide Sorted, Pick, InKeyOrder, AsMap, Passes, DistinctIds, OpenOutcomesKept, ValidateIncrement;
      WholeOutcomesFixpoint(draft.supplied, s.catalog);
    }
  }

  /**
   * A payload accepted with source integrity attached is accepted again, unchanged, both there and in
   * the bare state that replay folds.
   */
  lemma {:induction false} NormalisationIsAFixpoint(p: Classification, q: Classification, s: State)
    requires CurrentContractKnown(s) && OpenOutcomesKept(s)
    requires ValidateContractEvent(p, s) == Ok(q)
    ensures ValidateContractEvent(q, Bare(s)) == Ok(q)
    ensures ValidateContractEvent(q, s) == Ok(q)
  {
    var draft := DraftContract(p, s).value;
    DraftFacts(p, s);
    var inc := SettleOutcomes(p, draft, s).value;
    hide SettleOutcomes, DraftContract;
    SettleFixpoint(p, q, draft, s, s, inc);
    SettleFixpoint(p, q, draft, s, Bare(s), inc);
    RedraftAccepted(p, q, draft, s, s, inc.outcomes);
    RedraftAccepted(p, q, draft, s, Bare(s), inc.outcomes);
    assert Publish(q, draft.(supplied := inc.outcomes), inc) == q;
  }
}
