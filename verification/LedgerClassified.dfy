/**
 * Classifications over their payload: exactly which are accepted, and what becomes of the contract, its
 * clauses, its outcomes and its normative fields.
 */
module LedgerClassified {
  import opened Common
  import opened LedgerModel
  import opened LedgerContract
  import opened LedgerFixpoint
  import opened LedgerReplay
  import opened LedgerInvariant
  import opened LedgerAppendProofs

  // ---------------------------------------------------------------- clauses

  /** The clause names a captured source, by its path and in any spelling of its digest. */
  predicate ClauseFits(c: Clause, sources: map<Id, Source>) {
    && SafeId(c.id) && SafeId(c.sourceId) && c.sourceId in sources
    && c.sourceRef == sources[c.sourceId].ref && Upper(c.sourceSha) == sources[c.sourceId].sha
  }

  /** The clause as it is kept: with its source's own digest. */
  function Bound(c: Clause, sources: map<Id, Source>): Clause {
    if c.sourceId in sources then c.(sourceSha := sources[c.sourceId].sha) else c
  }

  function AllBound(cs: seq<Clause>, sources: map<Id, Source>): seq<Clause> {
    seq(|cs|, i requires 0 <= i < |cs| => Bound(cs[i], sources))
  }

  predicate ClausesFit(cs: seq<Clause>, sources: map<Id, Source>) {
    && (forall c | c in cs :: ClauseFits(c, sources))
    && forall i, j | 0 <= i < j < |cs| :: cs[i].id != cs[j].id
  }

  lemma {:induction false} ClauseExactly(c: Clause, sources: map<Id, Source>, seen: set<Id>)
    ensures ValidateClause(c, sources, seen).Ok? <==> ClauseFits(c, sources) && c.id !in seen
    ensures ValidateClause(c, sources, seen).Ok? ==> ValidateClause(c, sources, seen).value == Bound(c, sources)
  {
    hide SafeId;
  }

  lemma {:induction false} ClausesExactly(cs: seq<Clause>, sources: map<Id, Source>, seen: set<Id>)
    ensures ValidateClauses(cs, sources, seen).Ok? <==> ClausesFit(cs, sources) && ClauseIds(cs) !! seen
    ensures ValidateClauses(cs, sources, seen).Ok? ==>
      ValidateClauses(cs, sources, seen).value == AllBound(cs, sources)
  {
    if cs == [] {
    } else {
      hide SafeId, Upper;
      var c, rest := cs[0], cs[1..];
      var all, head := ValidateClauses(cs, sources, seen), ValidateClause(c, sources, seen);
      var tail := ValidateClauses(rest, sources, seen + {c.id});
      assert all.Ok? <==> head.Ok? && tail.Ok?;
      assert all.Ok? ==> all.value == [head.value] + tail.value;
      assert cs == [c] + rest;
      assert ClauseIds(cs) == {c.id} + ClauseIds(rest);
      assert AllBound(cs, sources) == [Bound(c, sources)] + AllBound(rest, sources);
      hide *;
      ClausesExactly(rest, sources, seen + {c.id});
      ClausesFitHead(c, rest, sources);
      ClauseExactly(c, sources, seen);
    }
  }

  lemma {:induction false} ClausesFitHead(c: Clause, rest: seq<Clause>, sources: map<Id, Source>)
    ensures ClausesFit([c] + rest, sources) <==>
      ClauseFits(c, sources) && ClausesFit(rest, sources) && c.id !in ClauseIds(rest)
  {
    hide ClauseFits;
    var cs := [c] + rest;
    if ClausesFit(cs, sources) {
      forall d | d in rest ensures d in cs && d.id != c.id {
        var j :| 0 <= j < |rest| && rest[j] == d;
        assert cs[0] == c && cs[j + 1] == d;
      }
      forall i, j | 0 <= i < j < |rest| ensures rest[i].id != rest[j].id {
        assert cs[i + 1] == rest[i] && cs[j + 1] == rest[j];
      }
    }
  }

  // ---------------------------------------------------------------- supplied outcomes

  predicate OutcomeFits(o: Outcome, catalog: map<Id, string>) {
    && SafeId(o.id) && !(o.status.Some? && o.status.value.OtherStatus?)
    && o.description.Some? && !Blank(o.description.value)
    && (o.id in catalog ==> catalog[o.id] == o.description.value)
  }

  /** The outcome with its own status, or open when it has none. */
  function Begun(o: Outcome): Outcome {
    if o.status.Some? then o else o.(status := Some(Open))
  }

  function AllBegun(os: seq<Outcome>): seq<Outcome> {
    seq(|os|, i requires 0 <= i < |os| => Begun(os[i]))
  }

  predicate OutcomesFit(os: seq<Outcome>, catalog: map<Id, string>) {
    (forall o | o in os :: OutcomeFits(o, catalog)) && DistinctIds(os)
  }

  lemma {:induction false} OutcomeExactly(o: Outcome, catalog: map<Id, string>, seen: set<Id>)
    ensures ValidateOutcome(o, catalog, seen).Ok? <==> OutcomeFits(o, catalog) && o.id !in seen
    ensures ValidateOutcome(o, catalog, seen).Ok? ==> ValidateOutcome(o, catalog, seen).value == Begun(o)
  {
    hide SafeId, Blank;
  }

  lemma {:induction false} OutcomesExactly(os: seq<Outcome>, catalog: map<Id, string>, seen: set<Id>)
    ensures ValidateOutcomes(os, catalog, seen).Ok? <==> OutcomesFit(os, catalog) && OutcomeIds(os) !! seen
    ensures ValidateOutcomes(os, catalog, seen).Ok? ==> ValidateOutcomes(os, catalog, seen).value == AllBegun(os)
  {
    if os == [] {
    } else {
      hide SafeId, Blank;
      var o, rest := os[0], os[1..];
      var all, head := ValidateOutcomes(os, catalog, seen), ValidateOutcome(o, catalog, seen);
      var tail := ValidateOutcomes(rest, catalog, seen + {o.id});
      assert all.Ok? <==> head.Ok? && tail.Ok?;
      assert all.Ok? ==> all.value == [head.value] + tail.value;
      assert os == [o] + rest;
      assert OutcomeIds(os) == {o.id} + OutcomeIds(rest);
      assert AllBegun(os) == [Begun(o)] + AllBegun(rest);
      hide *;
      OutcomesExactly(rest, catalog, seen + {o.id});
      OutcomesFitHead(o, rest, catalog);
      OutcomeExactly(o, catalog, seen);
    }
  }

  lemma {:induction false} OutcomesFitHead(o: Outcome, rest: seq<Outcome>, catalog: map<Id, string>)
    ensures OutcomesFit([o] + rest, catalog) <==>
      OutcomeFits(o, catalog) && OutcomesFit(rest, catalog) && o.id !in OutcomeIds(rest)
  {
    hide OutcomeFits;
    var os := [o] + rest;
    if OutcomesFit(os, catalog) {
      forall u | u in rest ensures u in os && u.id != o.id {
        var j :| 0 <= j < |rest| && rest[j] == u;
        assert os[0] == o && os[j + 1] == u;
      }
      forall i, j | 0 <= i < j < |rest| ensures rest[i].id != rest[j].id {
        assert os[i + 1] == rest[i] && os[j + 1] == rest[j];
      }
    }
  }

  lemma {:induction false} BegunOutcomes(os: seq<Outcome>)
    requires DistinctIds(os)
    ensures DistinctIds(AllBegun(os)) && OutcomeIds(AllBegun(os)) == OutcomeIds(os)
    ensures AsMap(AllBegun(os)).Keys == OutcomeIds(os)
    ensures forall o | o in os :: Begun(o) in AllBegun(os) && AsMap(AllBegun(os))[o.id] == Begun(o)
    ensures forall o | o in AllBegun(os) :: exists u :: u in os && o == Begun(u)
  {
    hide AsMap;
    var bs := AllBegun(os);
    forall i | 0 <= i < |os| ensures bs[i] == Begun(os[i]) && bs[i].id == os[i].id {}
    hide AllBegun, Begun;
    AsMapFinds(bs);
    forall o | o in os ensures Begun(o) in bs {
      var i :| 0 <= i < |os| && os[i] == o;
      assert bs[i] in bs;
    }
    forall o | o in bs ensures exists u :: u in os && o == Begun(u) {
      var i :| 0 <= i < |bs| && bs[i] == o;
      assert os[i] in os;
    }
    forall o | o in os ensures o.id in OutcomeIds(bs) && Begun(o).id == o.id {
      var i :| 0 <= i < |os| && os[i] == o;
      assert bs[i] in bs;
    }
    forall id | id in OutcomeIds(bs) ensures id in OutcomeIds(os) {
      var i :| 0 <= i < |bs| && bs[i].id == id;
      assert os[i] in os;
    }
  }

  // ---------------------------------------------------------------- normative transitions

  predicate NormativeFits(t: NormativeTransition, d: Disposition, authority: set<Id>) {
    && t.unsupported == {} && t.field.Some? && t.operation == Some(d)
    && t.clauseIds != [] && forall id | id in t.clauseIds :: SafeId(id) && id in authority
  }

  predicate Declares(ts: seq<NormativeTransition>, f: Field) {
    exists t :: t in ts && t.field == Some(f)
  }

  predicate NormativesFit(ts: seq<NormativeTransition>, d: Disposition, authority: set<Id>) {
    && (forall t | t in ts :: NormativeFits(t, d, authority))
    && forall i, j | 0 <= i < j < |ts| :: ts[i].field != ts[j].field
  }

  lemma {:induction false} NormativesFitHead(
      t: NormativeTransition, rest: seq<NormativeTransition>, d: Disposition, authority: set<Id>)
    requires t.field.Some?
    ensures NormativesFit([t] + rest, d, authority) <==>
      NormativeFits(t, d, authority) && NormativesFit(rest, d, authority) && !Declares(rest, t.field.value)
  {
    hide NormativeFits;
    var ts := [t] + rest;
    if NormativesFit(ts, d, authority) {
      forall u | u in rest ensures u in ts && u.field != t.field {
        var j :| 0 <= j < |rest| && rest[j] == u;
        assert ts[0] == t && ts[j + 1] == u;
      }
      forall i, j | 0 <= i < j < |rest| ensures rest[i].field != rest[j].field {
        assert ts[i + 1] == rest[i] && ts[j + 1] == rest[j];
      }
    }
    if NormativesFit(rest, d, authority) && !Declares(rest, t.field.value) {
      forall i, j | 0 <= i < j < |ts| && NormativeFits(t, d, authority) ensures ts[i].field != ts[j].field {
        assert rest[j - 1] in rest;
      }
    }
  }

  lemma {:induction false} DeclaresHead(t: NormativeTransition, rest: seq<NormativeTransition>)
    ensures forall f :: Declares([t] + rest, f) <==> t.field == Some(f) || Declares(rest, f)
  {
    forall f ensures Declares([t] + rest, f) <==> t.field == Some(f) || Declares(rest, f) {
      assert t in [t] + rest;
      if Declares(rest, f) {
        var u :| u in rest && u.field == Some(f);
        assert u in [t] + rest;
      }
    }
  }

  lemma {:induction false} NormativeExactly(
      ts: seq<NormativeTransition>, d: Disposition, authority: set<Id>, seen: set<Field>)
    requires ts != []
    ensures TransitionedFields(ts, d, authority, seen).Ok? ==>
      NormativeFits(ts[0], d, authority) && ts[0].field.value !in seen
    ensures NormativeFits(ts[0], d, authority) && ts[0].field.value !in seen ==>
      TransitionedFields(ts, d, authority, seen)
        == TransitionedFields(ts[1..], d, authority, seen + {ts[0].field.value})
  {
    hide SafeId;
    assert forall id :: id in ts[0].clauseIds <==> id in Elements(ts[0].clauseIds);
  }

  lemma {:induction false} NormativesExactly(
      ts: seq<NormativeTransition>, d: Disposition, authority: set<Id>, seen: set<Field>)
    ensures TransitionedFields(ts, d, authority, seen).Ok? <==>
      NormativesFit(ts, d, authority) && forall f | f in seen :: !Declares(ts, f)
    ensures TransitionedFields(ts, d, authority, seen).Ok? ==>
      forall f :: f in TransitionedFields(ts, d, authority, seen).value <==> f in seen || Declares(ts, f)
  {
    if ts == [] {
    } else {
      var t, rest := ts[0], ts[1..];
      assert ts == [t] + rest;
      DeclaresHead(t, rest);
      NormativeExactly(ts, d, authority, seen);
      assert NormativesFit(ts, d, authority) ==> NormativeFits(t, d, authority) by { assert t in ts; }
      assert NormativeFits(t, d, authority) ==> t.field.Some?;
      hide *;
      if NormativeFits(t, d, authority) && t.field.value !in seen {
        NormativesExactly(rest, d, authority, seen + {t.field.value});
        NormativesFitHead(t, rest, d, authority);
      }
    }
  }

  // ---------------------------------------------------------------- outcome transitions

  predicate TransitionFits(t: OutcomeTransition, open: map<Id, Outcome>, authority: set<Id>) {
    && t.unsupported == {} && SafeId(t.outcomeId) && t.outcomeId in open && !t.operation.OtherOperation?
    && t.fromStatus == open[t.outcomeId].status
    && t.clauseIds != [] && Distinct(t.clauseIds) && forall id | id in t.clauseIds :: SafeId(id) && id in authority
  }

  predicate TransitionsFit(ts: seq<OutcomeTransition>, open: map<Id, Outcome>, authority: set<Id>) {
    && (forall t | t in ts :: TransitionFits(t, open, authority))
    && forall i, j | 0 <= i < j < |ts| :: ts[i].outcomeId != ts[j].outcomeId
  }

  /** The outcome once the transition has been carried out: its new status, with the transition as its reason. */
  function Turned(o: Outcome, t: OutcomeTransition): Outcome {
    var status :=
      if t.operation.WithdrawOutcome? then UserWithdrawn
      else if t.operation.Defer? then UserDeferred
      else if t.operation.Supersede? then Superseded
      else Open;
    o.(status := Some(status), transition := Some(t))
  }

  function TouchedIds(ts: seq<OutcomeTransition>): set<Id> {
    set t | t in ts :: t.outcomeId
  }

  lemma {:induction false} TransitionsFitHead(
      t: OutcomeTransition, rest: seq<OutcomeTransition>, open: map<Id, Outcome>, authority: set<Id>)
    ensures TransitionsFit([t] + rest, open, authority) <==>
      TransitionFits(t, open, authority) && TransitionsFit(rest, open, authority) && t.outcomeId !in TouchedIds(rest)
  {
    hide TransitionFits;
    var ts := [t] + rest;
    if TransitionsFit(ts, open, authority) {
      forall u | u in rest ensures u in ts && u.outcomeId != t.outcomeId {
        var j :| 0 <= j < |rest| && rest[j] == u;
        assert ts[0] == t && ts[j + 1] == u;
      }
      forall i, j | 0 <= i < j < |rest| ensures rest[i].outcomeId != rest[j].outcomeId {
        assert ts[i + 1] == rest[i] && ts[j + 1] == rest[j];
      }
    }
  }

  lemma {:induction false} TransitionExactly(
      t: OutcomeTransition, open: map<Id, Outcome>, authority: set<Id>, done: set<Id>)
    ensures CheckTransition(t, open, authority, done).Ok? <==>
      TransitionFits(t, open, authority) && t.outcomeId !in done
    ensures CheckTransition(t, open, authority, done).Ok? ==>
      CheckTransition(t, open, authority, done).value == Turned(open[t.outcomeId], t)
  {
    hide SafeId;
  }

  lemma {:induction false} TransitionsExactly(
      ts: seq<OutcomeTransition>, open: map<Id, Outcome>, authority: set<Id>, done: set<Id>)
    ensures ApplyTransitions(ts, open, authority, done).Ok? <==>
      TransitionsFit(ts, open, authority) && TouchedIds(ts) !! done
    ensures ApplyTransitions(ts, open, authority, done).Ok? ==>
      var m := ApplyTransitions(ts, open, authority, done).value;
      && m.Keys == TouchedIds(ts)
      && forall t | t in ts :: t.outcomeId in open && m[t.outcomeId] == Turned(open[t.outcomeId], t)
  {
    if ts == [] {
    } else {
      hide CheckTransition;
      var t, rest := ts[0], ts[1..];
      var all, head := ApplyTransitions(ts, open, authority, done), CheckTransition(t, open, authority, done);
      var tail := ApplyTransitions(rest, open, authority, done + {t.outcomeId});
      assert all.Ok? <==> head.Ok? && tail.Ok?;
      assert all.Ok? ==> all.value == tail.value[t.outcomeId := head.value];
      assert ts == [t] + rest;
      assert TouchedIds(ts) == {t.outcomeId} + TouchedIds(rest);
      assert TransitionFits(t, open, authority) ==> t.outcomeId in open;
      hide *;
      TransitionExactly(t, open, authority, done);
      TransitionsExactly(rest, open, authority, done + {t.outcomeId});
      TransitionsFitHead(t, rest, open, authority);
    }
  }

  // ---------------------------------------------------------------- what carries over

  /** Clauses of the payload that speak for the source being classified. */
  function OwnClauseIds(p: Classification): set<Id> {
    set c | c in ListOf(p.contract.clauses) && c.sourceId == p.sourceId :: c.id
  }

  lemma {:induction false} AuthorityExactly(p: Classification, sources: map<Id, Source>)
    requires p.sourceId in sources && ClausesFit(ListOf(p.contract.clauses), sources)
    ensures BoundClauseIds(AllBound(ListOf(p.contract.clauses), sources), p.sourceId, sources[p.sourceId])
         == OwnClauseIds(p)
  {
    hide SafeId, Upper;
    var cs := ListOf(p.contract.clauses);
    var bs := AllBound(cs, sources);
    forall c | c in cs ensures Bound(c, sources) in bs && ClauseFits(c, sources) {
      var i :| 0 <= i < |cs| && cs[i] == c;
      assert bs[i] == Bound(c, sources);
    }
    forall b | b in bs ensures exists c :: c in cs && b == Bound(c, sources) {
      var i :| 0 <= i < |bs| && bs[i] == b;
      assert cs[i] in cs && b == Bound(cs[i], sources);
    }
    var authority := BoundClauseIds(bs, p.sourceId, sources[p.sourceId]);
    forall id | id in OwnClauseIds(p) ensures id in authority {
      var c :| c in cs && c.sourceId == p.sourceId && c.id == id;
      assert Bound(c, sources) in bs;
    }
    forall id | id in authority ensures id in OwnClauseIds(p) {
      var b :| b in bs && b.sourceId == p.sourceId && b.id == id;
      var c :| c in cs && b == Bound(c, sources);
      assert c.id == id && c.sourceId == p.sourceId;
    }
  }

  /** Every clause of the parent is among the new ones as it was, or is superseded and gone. */
  predicate ClausesKept(p: Classification, d: Disposition, parent: seq<Clause>, new_: seq<Clause>) {
    var superseded := ListOf(p.supersedes);
    && !p.supersedes.NotAList? && (d.Correct? || superseded == [])
    && (forall id | id in superseded :: SafeId(id) && exists c :: c in parent && c.id == id)
    && (forall c | c in parent :: c.id in superseded || c in new_)
    && forall c, c' | c in parent && c' in new_ && c.id == c'.id :: c == c'
  }

  lemma {:induction false} ElementsEmpty<T>(s: seq<T>)
    ensures Elements(s) == {} <==> s == []
  {
    if s != [] { assert s[0] in Elements(s); }
  }

  lemma {:induction false} CarriedExactly(superseded: set<Id>, parent: seq<Clause>, new_: seq<Clause>)
    ensures superseded <= ClauseIds(parent) <==> forall id | id in superseded :: exists c :: c in parent && c.id == id
    ensures (forall c, c' | c in parent && c' in new_ && c.id == c'.id :: c == c') ==>
      (ClauseIds(parent) - ClauseIds(new_) - superseded == {} <==>
        forall c | c in parent :: c.id in superseded || c in new_)
  {
    var dropped := ClauseIds(parent) - ClauseIds(new_) - superseded;
    if dropped == {} && forall c, c' | c in parent && c' in new_ && c.id == c'.id :: c == c' {
      forall c | c in parent ensures c.id in superseded || c in new_ {
        assert c.id !in dropped;
        if c.id !in superseded {
          var c' :| c' in new_ && c'.id == c.id;
        }
      }
    }
  }

  lemma {:induction false} ClausesKeptExactly(
      p: Classification, d: Disposition, parent: seq<Clause>, new_: seq<Clause>)
    ensures CheckClauseLineage(p, d, parent, new_).Ok? <==> ClausesKept(p, d, parent, new_)
    ensures CheckClauseLineage(p, d, parent, new_).Ok? ==>
      CheckClauseLineage(p, d, parent, new_).value == Elements(ListOf(p.supersedes))
  {
    var superseded := Elements(ListOf(p.supersedes));
    CarriedExactly(superseded, parent, new_);
    ElementsEmpty(ListOf(p.supersedes));
    assert forall id :: id in ListOf(p.supersedes) <==> id in superseded;
    hide SafeId, ClauseIds, Elements;
  }

  /** An outcome that corrects another is new, and comes with a transition superseding the one it corrects. */
  predicate CorrectsProperly(o: Outcome, d: Disposition, open: set<Id>, ts: seq<OutcomeTransition>) {
    o.corrects.Some? && o.id !in open ==>
      && d.Correct? && SafeId(o.corrects.value) && o.corrects.value in open
      && exists t :: t in ts && t.outcomeId == o.corrects.value && t.operation.Supersede?
  }

  /** With one transition an outcome, the first that names it is the one. */
  lemma {:induction false} SupersedesFirst(ts: seq<OutcomeTransition>, id: Id)
    requires forall i, j | 0 <= i < j < |ts| :: ts[i].outcomeId != ts[j].outcomeId
    ensures (FirstTransition(ts, id).Some? && FirstTransition(ts, id).value.operation.Supersede?) <==>
      exists t :: t in ts && t.outcomeId == id && t.operation.Supersede?
  {
    var first := FirstTransition(ts, id);
    FirstTransitionFound(ts, id);
    hide FirstTransition;
    if t :| t in ts && t.outcomeId == id && t.operation.Supersede? {
      assert first.Some? && first.value in ts && first.value.outcomeId == t.outcomeId;
      var i :| 0 <= i < |ts| && ts[i] == t;
      var j :| 0 <= j < |ts| && ts[j] == first.value;
      assert i == j;
    }
  }

  lemma {:induction false} CorrectionExactly(
      o: Outcome, d: Disposition, open: set<Id>, ts: seq<OutcomeTransition>)
    requires forall i, j | 0 <= i < j < |ts| :: ts[i].outcomeId != ts[j].outcomeId
    ensures CorrectionFits(Begun(o), d, open, ts) <==> CorrectsProperly(o, d, open, ts)
  {
    hide FirstTransition, SafeId;
    if o.corrects.Some? { SupersedesFirst(ts, o.corrects.value); }
  }

  lemma {:induction false} CorrectionsExactly(
      os: seq<Outcome>, d: Disposition, open: set<Id>, ts: seq<OutcomeTransition>)
    requires forall i, j | 0 <= i < j < |ts| :: ts[i].outcomeId != ts[j].outcomeId
    ensures CheckCorrections(AllBegun(os), d, open, ts).Ok? <==> forall o | o in os :: CorrectsProperly(o, d, open, ts)
  {
    var bs := AllBegun(os);
    CorrectionsFit(bs, d, open, ts);
    hide CheckCorrections;
    forall i | 0 <= i < |os| ensures CorrectionFits(bs[i], d, open, ts) <==> CorrectsProperly(os[i], d, open, ts) {
      CorrectionExactly(os[i], d, open, ts);
    }
    hide CorrectionFits, CorrectsProperly, AllBegun;
    if forall o | o in bs :: CorrectionFits(o, d, open, ts) {
      forall o | o in os ensures CorrectsProperly(o, d, open, ts) {
        var i :| 0 <= i < |os| && os[i] == o;
        assert bs[i] in bs;
      }
    }
    if forall o | o in os :: CorrectsProperly(o, d, open, ts) {
      forall o | o in bs ensures CorrectionFits(o, d, open, ts) {
        var i :| 0 <= i < |bs| && bs[i] == o;
        assert os[i] in os;
      }
    }
  }

  // ---------------------------------------------------------------- exactly when a classification is accepted

  /** The contract's value of a field: its own, or for an increment that does not mention it the parent's. */
  function Effective(p: Classification, s: State, f: Field): Value
    requires CurrentContractKnown(s)
  {
    if f in p.contract.normative then p.contract.normative[f]
    else if p.disposition.Some? && p.disposition.value.Incremental() && s.current.Some?
      then Lookup(s.contracts[s.current.value].body.normative, f)
    else Null
  }

  predicate Objective(v: Value) {
    v.Text? && !Blank(v.text)
  }

  /** The field is given, and is not what the parent has. */
  predicate Changes(p: Classification, parent: Contract, f: Field) {
    f in p.contract.normative && p.contract.normative[f] != Lookup(parent.body.normative, f)
  }

  /** Exactly the fields that change are declared. */
  ghost predicate DeclaresChanges(p: Classification, parent: Contract) {
    forall f :: Changes(p, parent, f) <==> Declares(ListOf(p.normative), f)
  }

  /** What an increment must be: it keeps what it does not declare, and declares by clauses of its own source. */
  ghost predicate IncrementFits(p: Classification, d: Disposition, s: State, parent: Contract) {
    var outcomes, transitions := ListOf(p.contract.outcomes), ListOf(p.contract.transitions);
    && !p.contract.transitions.NotAList? && !p.normative.NotAList?
    && s.open.Keys <= OutcomeIds(outcomes)
    && (forall o | o in outcomes && o.id !in s.open :: o.status.None? || o.status.value.Open?)
    && ClausesKept(p, d, ClausesOf(parent), AllBound(ListOf(p.contract.clauses), s.sources))
    && (ListOf(p.supersedes) != [] ==> OwnClauseIds(p) != {})
    && (d.Correct? || !Changes(p, parent, PrimaryObjective))
    && NormativesFit(ListOf(p.normative), d, OwnClauseIds(p))
    && DeclaresChanges(p, parent)
    && TransitionsFit(transitions, s.open, OwnClauseIds(p))
    && forall o | o in outcomes :: CorrectsProperly(o, d, s.open.Keys, transitions)
  }

  /** The contract continues the current one in the way its disposition says. */
  predicate Continues(d: Disposition, b: ContractBody, current: Option<Id>) {
    && (d.Initial? <==> current.None?)
    && (d.Incremental() ==> b.parentId == current)
    && (d.Replace? ==> b.replacesId == current)
    && (d.Withdraw? ==> b.withdrawsId == current)
  }

  /** The checks every disposition makes of the payload. */
  predicate DraftFits(p: Classification, d: Disposition, s: State)
    requires CurrentContractKnown(s)
  {
    && p.unsupported == {} && p.contract.unsupported == {}
    && SafeId(p.sourceId) && p.sourceId in s.sources && p.sourceId in s.unclassified
    && p.disposition == Some(d)
    && SafeId(p.contract.contractId) && p.contract.contractId !in s.contracts
    && Continues(d, p.contract, s.current)
    && (d.Withdraw? || Objective(Effective(p, s, PrimaryObjective)))
    && p.contract.clauses.Items? && p.contract.clauses.items != []
    && ClausesFit(p.contract.clauses.items, s.sources)
    && !p.contract.outcomes.NotAList? && (d.Withdraw? ==> ListOf(p.contract.outcomes) == [])
    && OutcomesFit(ListOf(p.contract.outcomes), s.catalog)
  }

  /** What the payload must be for its disposition. */
  ghost predicate Acceptable(p: Classification, s: State)
    requires CurrentContractKnown(s)
  {
    && p.disposition.Some?
    && var d := p.disposition.value;
    && DraftFits(p, d, s)
    && if d.Incremental() then IncrementFits(p, d, s, s.contracts[s.current.value]) else !TruthyList(p.normative)
  }

  /** Once sources have been inspected, the one classified and those of the current contract must verify. */
  predicate SourcesStand(p: Classification, s: State) {
    s.integrity != map[] ==>
      && SourcesAvailable(s, {p.sourceId})
      && (p.disposition == Some(Initial) || SourcesAvailable(s, CurrentContractSources(s)))
  }

  lemma {:induction false} DraftExactly(p: Classification, s: State)
    requires CurrentContractKnown(s)
    ensures DraftContract(p, s).Ok? <==>
      p.disposition.Some? && DraftFits(p, p.disposition.value, s) && SourcesStand(p, s)
    ensures DraftContract(p, s).Ok? ==>
      var draft, d := DraftContract(p, s).value, p.disposition.value;
      && draft.disposition == d && draft.supplied == AllBegun(ListOf(p.contract.outcomes))
      && draft.clauses == AllBound(ListOf(p.contract.clauses), s.sources)
      && draft.normative == if d.Incremental()
           then Inherit(p.contract.normative, s.contracts[s.current.value].body.normative) else p.contract.normative
  {
    ClausesExactly(ListOf(p.contract.clauses), s.sources, {});
    OutcomesExactly(ListOf(p.contract.outcomes), s.catalog, {});
    hide ClausesFit, OutcomesFit, AllBound, AllBegun, ValidateClauses, ValidateOutcomes, SafeId, Blank,
      CurrentContractSources;
  }

  lemma {:induction false} FieldsExactly(p: Classification, parent: Contract)
    ensures var normative := Inherit(p.contract.normative, parent.body.normative);
      && p.contract.normative.Keys <= normative.Keys
      && (forall f :: Lookup(normative, f) == if f in p.contract.normative then p.contract.normative[f]
                                              else Lookup(parent.body.normative, f))
      && (forall f ::
        f in ChangedFields(p.contract.normative.Keys, normative, parent.body.normative) <==> Changes(p, parent, f))
  {
  }

  /** The parts of an increment's checks, each in the terms of the payload. */
  lemma {:induction false} IncrementParts(p: Classification, d: Disposition, s: State, parent: Contract)
    requires p.sourceId in s.sources && ClausesFit(ListOf(p.contract.clauses), s.sources)
    requires OutcomesFit(ListOf(p.contract.outcomes), s.catalog)
    ensures var normative := Inherit(p.contract.normative, parent.body.normative);
      var clauses, outcomes := AllBound(ListOf(p.contract.clauses), s.sources), ListOf(p.contract.outcomes);
      var ts, lineage := ListOf(p.contract.transitions), CheckClauseLineage(p, d, ClausesOf(parent), clauses);
      var changed := ChangedFields(p.contract.normative.Keys, normative, parent.body.normative);
      && BoundClauseIds(clauses, p.sourceId, s.sources[p.sourceId]) == OwnClauseIds(p)
      && OutcomeIds(AllBegun(outcomes)) == OutcomeIds(outcomes)
      && (lineage.Ok? <==> ClausesKept(p, d, ClausesOf(parent), clauses))
      && (lineage.Ok? ==> (lineage.value == {} <==> ListOf(p.supersedes) == []))
      && (Lookup(normative, PrimaryObjective) != Lookup(parent.body.normative, PrimaryObjective) <==>
            Changes(p, parent, PrimaryObjective))
      && (TransitionedFields(ListOf(p.normative), d, OwnClauseIds(p), {}) == Ok(changed) <==>
            NormativesFit(ListOf(p.normative), d, OwnClauseIds(p)) && DeclaresChanges(p, parent))
      && (ApplyTransitions(ts, s.open, OwnClauseIds(p), {}).Ok? <==> TransitionsFit(ts, s.open, OwnClauseIds(p)))
      && (TransitionsFit(ts, s.open, OwnClauseIds(p)) ==>
            (CheckCorrections(AllBegun(outcomes), d, s.open.Keys, ts).Ok? <==>
               forall o | o in outcomes :: CorrectsProperly(o, d, s.open.Keys, ts)))
  {
    var normative := Inherit(p.contract.normative, parent.body.normative);
    var clauses, outcomes := AllBound(ListOf(p.contract.clauses), s.sources), ListOf(p.contract.outcomes);
    var ts := ListOf(p.contract.transitions);
    AuthorityExactly(p, s.sources);
    BegunOutcomes(outcomes);
    FieldsExactly(p, parent);
    ClausesKeptExactly(p, d, ClausesOf(parent), clauses);
    ElementsEmpty(ListOf(p.supersedes));
    NormativesExactly(ListOf(p.normative), d, OwnClauseIds(p), {});
    TransitionsExactly(ts, s.open, OwnClauseIds(p), {});
    if TransitionsFit(ts, s.open, OwnClauseIds(p)) { CorrectionsExactly(outcomes, d, s.open.Keys, ts); }
    var changed := ChangedFields(p.contract.normative.Keys, normative, parent.body.normative);
    var fields := TransitionedFields(ListOf(p.normative), d, OwnClauseIds(p), {});
    if fields.Ok? && DeclaresChanges(p, parent) { assert fields.value == changed; }
    hide TransitionedFields, NormativesFit, Changes, Declares, ChangedFields, Inherit, Lookup, TransitionsFit,
      CheckClauseLineage, ClausesKept, OutcomeIds, AllBegun, AllBound, BoundClauseIds, OwnClauseIds;
  }

  lemma {:induction false} IncrementExactly(p: Classification, d: Disposition, s: State, parent: Contract)
    requires p.sourceId in s.sources && ClausesFit(ListOf(p.contract.clauses), s.sources)
    requires OutcomesFit(ListOf(p.contract.outcomes), s.catalog)
    ensures ValidateIncrement(p, d, s, parent, Inherit(p.contract.normative, parent.body.normative),
        AllBound(ListOf(p.contract.clauses), s.sources), AllBegun(ListOf(p.contract.outcomes))).Ok?
      <==> IncrementFits(p, d, s, parent)
  {
    var normative := Inherit(p.contract.normative, parent.body.normative);
    var clauses, outcomes := AllBound(ListOf(p.contract.clauses), s.sources), ListOf(p.contract.outcomes);
    var supplied, ts := AllBegun(outcomes), ListOf(p.contract.transitions);
    var v := ValidateIncrement(p, d, s, parent, normative, clauses, supplied);
    hide ValidateIncrement, ClausesFit, OutcomesFit, AllBound, AllBegun, ClausesOf, ClausesKept, CheckClauseLineage,
      TransitionedFields, NormativesFit, TransitionsFit, ApplyTransitions, CheckCorrections, CorrectsProperly,
      BoundClauseIds, OwnClauseIds, Changes, ChangedFields, Inherit, Lookup, DeclaresChanges, InKeyOrder, MergeNew,
      TransitionsIn, Sorted, OutcomeIds, Elements;
    IncrementParts(p, d, s, parent);
    NewOnesOpen(outcomes, s.open.Keys);
    if v.Ok? {
      var superseded, touched := IncrementOpened(p, d, s, parent, normative, clauses, supplied, v.value);
    }
    if IncrementFits(p, d, s, parent) {
      var superseded := CheckClauseLineage(p, d, ClausesOf(parent), clauses).value;
      var touched := ApplyTransitions(ts, s.open, OwnClauseIds(p), {}).value;
      IncrementClosed(p, d, s, parent, normative, clauses, supplied, superseded, touched);
    }
  }

  lemma {:induction false} NewOnesOpen(os: seq<Outcome>, open: set<Id>)
    ensures (forall o | o in AllBegun(os) && o.id !in open :: o.status == Some(Open)) <==>
      forall o | o in os && o.id !in open :: o.status.None? || o.status.value.Open?
  {
    var bs := AllBegun(os);
    if forall o | o in bs && o.id !in open :: o.status == Some(Open) {
      forall o | o in os && o.id !in open ensures o.status.None? || o.status.value.Open? {
        var i :| 0 <= i < |os| && os[i] == o;
        assert bs[i] in bs;
      }
    }
  }

  /** A payload is accepted exactly when it fits and, once sources have been inspected, they verify. */
  lemma {:induction false} AcceptedExactly(p: Classification, s: State)
    requires CurrentContractKnown(s)
    ensures ValidateContractEvent(p, s).Ok? <==> Acceptable(p, s) && SourcesStand(p, s)
  {
    DraftExactly(p, s);
    if DraftContract(p, s).Ok? {
      var d := p.disposition.value;
      assert p.sourceId in s.sources && ClausesFit(ListOf(p.contract.clauses), s.sources)
        && OutcomesFit(ListOf(p.contract.outcomes), s.catalog) && (d.Incremental() ==> s.current.Some?);
      if d.Incremental() { IncrementExactly(p, d, s, s.contracts[s.current.value]); }
    }
    hide DraftContract, DraftFits, SourcesStand, IncrementFits, ValidateIncrement, AllBound, AllBegun, Inherit,
      TruthyList, InKeyOrder, AsMap;
  }

  // ---------------------------------------------------------------- what an accepted classification makes

  /** The outcomes open afterwards. */
  ghost predicate OpensAs(p: Classification, d: Disposition, s: State, open: map<Id, Outcome>) {
    var outcomes, transitions := ListOf(p.contract.outcomes), ListOf(p.contract.transitions);
    if d.Withdraw? then open == map[]
    else
      && open.Keys == OutcomeIds(outcomes)
      && (forall o | o in outcomes && (!d.Incremental() || o.id !in s.open) :: open[o.id] == Begun(o))
      && (d.Incremental() ==>
            && s.open.Keys <= open.Keys
            && (forall id | id in s.open && id !in TouchedIds(transitions) :: open[id] == s.open[id])
            && forall t | t in transitions ::
                 t.outcomeId in s.open && open[t.outcomeId] == Turned(s.open[t.outcomeId], t))
  }

  lemma {:induction false} BegunId(o: Outcome)
    ensures Begun(o).id == o.id
  {
  }

  lemma {:induction false} TurnedId(o: Outcome, t: OutcomeTransition)
    ensures Turned(o, t).id == o.id
  {
  }

  /** The merge of an increment: what was open stays or is turned, what is new begins. */
  lemma {:induction false} MergedOutcomes(
      before: map<Id, Outcome>, outcomes: seq<Outcome>, ts: seq<OutcomeTransition>, touched: map<Id, Outcome>)
    requires SelfKeyed(before) && DistinctIds(outcomes) && before.Keys <= OutcomeIds(outcomes)
    requires touched.Keys == TouchedIds(ts) <= before.Keys
    requires forall t | t in ts :: touched[t.outcomeId] == Turned(before[t.outcomeId], t)
    ensures var open := Merged(before, AllBegun(outcomes), touched);
      && open.Keys == OutcomeIds(outcomes)
      && (forall id | id in before && id !in touched :: open[id] == before[id])
      && (forall id | id in touched :: open[id] == touched[id])
      && (forall o | o in outcomes && o.id !in before :: open[o.id] == Begun(o))
  {
    BegunOutcomes(outcomes);
    MergedValue(before, AllBegun(outcomes), touched);
    hide Merged, AllBegun, DistinctIds, Turned, OutcomeIds, TouchedIds, SelfKeyed;
  }

  lemma {:induction false} TouchedSelfKeyed(
      before: map<Id, Outcome>, ts: seq<OutcomeTransition>, touched: map<Id, Outcome>)
    requires SelfKeyed(before) && touched.Keys == TouchedIds(ts) <= before.Keys
    requires forall t | t in ts :: touched[t.outcomeId] == Turned(before[t.outcomeId], t)
    ensures SelfKeyed(touched)
  {
    forall id | id in touched ensures touched[id].id == id {
      assert id in TouchedIds(ts);
      var t :| t in ts && t.outcomeId == id;
    }
  }

  lemma {:induction false} MergedSelfKeyed(
      before: map<Id, Outcome>, outcomes: seq<Outcome>, ts: seq<OutcomeTransition>, touched: map<Id, Outcome>)
    requires SelfKeyed(before) && DistinctIds(outcomes) && before.Keys <= OutcomeIds(outcomes)
    requires touched.Keys == TouchedIds(ts) <= before.Keys
    requires forall t | t in ts :: touched[t.outcomeId] == Turned(before[t.outcomeId], t)
    ensures SelfKeyed(Merged(before, AllBegun(outcomes), touched))
  {
    BegunOutcomes(outcomes);
    TouchedSelfKeyed(before, ts, touched);
    MergedValue(before, AllBegun(outcomes), touched);
    hide Merged, AllBegun, Turned, TouchedIds, OutcomeIds, DistinctIds;
  }

  predicate Ordered(os: seq<Outcome>) {
    forall i, j | 0 <= i < j < |os| :: Before(CodePoint, os[i].id, os[j].id)
  }

  /** The outcomes of `open`, each once, in the order of their ids. */
  predicate Lists(os: seq<Outcome>, open: map<Id, Outcome>) {
    && Ordered(os)
    && (forall o | o in os :: o.id in open && open[o.id] == o)
    && forall id | id in open :: open[id] in os
  }

  lemma {:induction false} KeyOrderAscends(m: map<Id, Outcome>)
    requires SelfKeyed(m)
    ensures Ordered(InKeyOrder(m))
  {
    var keys, os := Sorted(m.Keys), InKeyOrder(m);
    assert Ascending(keys) && Elements(keys) == m.Keys;
    forall i | 0 <= i < |keys| ensures keys[i] in m && os[i].id == keys[i] { assert keys[i] in Elements(keys); }
    hide Before, InKeyOrder, Sorted, Elements, SelfKeyed, Pick;
  }

  lemma {:induction false} KeyOrderLists(m: map<Id, Outcome>)
    requires SelfKeyed(m)
    ensures AsMap(InKeyOrder(m)) == m && Lists(InKeyOrder(m), m)
  {
    KeyOrderRoundTrip(m);
    KeyOrderAscends(m);
    hide Ordered, InKeyOrder, DistinctIds, OutcomeIds;
  }

  /** The same transitions, in the order of their outcomes. */
  ghost predicate SameTransitions(ts: seq<OutcomeTransition>, ordered: seq<OutcomeTransition>) {
    && (forall t :: t in ts <==> t in ordered)
    && forall i, j | 0 <= i < j < |ordered| :: Before(CodePoint, ordered[i].outcomeId, ordered[j].outcomeId)
  }

  lemma {:induction false} MatchesSame(
      ts: seq<OutcomeTransition>, ts': seq<OutcomeTransition>, m: map<Id, Outcome>, t: OutcomeTransition)
    requires Matches(ts, m) && Matches(ts', m) && t in ts
    ensures t in ts'
  {
    assert m[t.outcomeId].transition == Some(t);
  }

  /** Transitions read off outcomes in key order are in key order. */
  lemma {:induction false} TransitionsInOrder(os: seq<Outcome>, m: map<Id, Outcome>, ts: seq<OutcomeTransition>)
    requires Ordered(os) && DistinctIds(os) && (forall o | o in os :: o.id in m && m[o.id] == o) && Matches(ts, m)
    ensures var ordered := TransitionsIn(os);
      forall i, j | 0 <= i < j < |ordered| :: Before(CodePoint, ordered[i].outcomeId, ordered[j].outcomeId)
  {
    forall o | o in os ensures o.transition.Some? && o.transition.value.outcomeId == o.id {
      assert o.id in m;
    }
    TransitionsInMatch(os);
    hide Matches, DistinctIds, Before, TransitionsIn;
    var ordered := TransitionsIn(os);
    forall i | 0 <= i < |ordered| ensures ordered[i].outcomeId == os[i].id { assert os[i] in os; }
  }

  lemma {:induction false} TransitionsOrdered(ts: seq<OutcomeTransition>, touched: map<Id, Outcome>)
    requires SelfKeyed(touched) && Matches(ts, touched) && Matches(TransitionsIn(InKeyOrder(touched)), touched)
    ensures SameTransitions(ts, TransitionsIn(InKeyOrder(touched)))
  {
    var ordered := TransitionsIn(InKeyOrder(touched));
    hide Before, InKeyOrder, TransitionsIn, SelfKeyed, DistinctIds, OutcomeIds, AsMap, Matches, Ordered;
    KeyOrderRoundTrip(touched);
    KeyOrderAscends(touched);
    TransitionsInOrder(InKeyOrder(touched), touched, ts);
    forall t ensures t in ts <==> t in ordered {
      if t in ts { MatchesSame(ts, ordered, touched, t); }
      if t in ordered { MatchesSame(ordered, ts, touched, t); }
    }
  }

  lemma {:induction false} MergedOpensAs(p: Classification, d: Disposition, s: State, touched: map<Id, Outcome>)
    requires SelfKeyed(s.open) && DistinctIds(ListOf(p.contract.outcomes)) && d.Incremental()
    requires s.open.Keys <= OutcomeIds(ListOf(p.contract.outcomes))
    requires touched.Keys == TouchedIds(ListOf(p.contract.transitions)) <= s.open.Keys
    requires forall t | t in ListOf(p.contract.transitions) :: touched[t.outcomeId] == Turned(s.open[t.outcomeId], t)
    ensures OpensAs(p, d, s, Merged(s.open, AllBegun(ListOf(p.contract.outcomes)), touched))
  {
    var outcomes, ts := ListOf(p.contract.outcomes), ListOf(p.contract.transitions);
    MergedOutcomes(s.open, outcomes, ts, touched);
    hide Merged, AllBegun, Turned, OutcomeIds, DistinctIds, SelfKeyed, Begun, ListOf;
    forall t | t in ts ensures t.outcomeId in touched { assert t.outcomeId in TouchedIds(ts); }
    hide TouchedIds;
  }

  lemma {:induction false} IncrementTouches(
    p: Classification, d: Disposition, s: State, parent: Contract, normative: map<Field, Value>,
    clauses: seq<Clause>, supplied: seq<Outcome>, superseded: set<Id>, touched: map<Id, Outcome>)
    requires SelfKeyed(s.open)
    requires IncrementChecks(p, d, s, parent, normative, clauses, supplied, superseded, touched)
    ensures superseded == Elements(ListOf(p.supersedes)) && s.open.Keys <= OutcomeIds(supplied)
    ensures var ts := ListOf(p.contract.transitions);
      && touched.Keys == TouchedIds(ts) <= s.open.Keys
      && (forall t | t in ts :: touched[t.outcomeId] == Turned(s.open[t.outcomeId], t))
      && SelfKeyed(touched) && Matches(ts, touched) && Matches(TransitionsIn(InKeyOrder(touched)), touched)
  {
    var ts, authority := ListOf(p.contract.transitions), BoundClauseIds(clauses, p.sourceId, s.sources[p.sourceId]);
    TransitionsExactly(ts, s.open, authority, {});
    ClausesKeptExactly(p, d, ClausesOf(parent), clauses);
    TransitionsFixpoint(ts, s.open, authority, touched);
    hide ApplyTransitions, CheckClauseLineage, InKeyOrder, Matches, SelfKeyed, TransitionsFit, Turned, BoundClauseIds,
      DistinctIds, TransitionsIn, TransitionedFields, CheckCorrections, ChangedFields, Lookup, OutcomeIds;
  }

  lemma {:induction false} IncrementOpensAs(
      p: Classification, d: Disposition, s: State, parent: Contract, normative: map<Field, Value>,
      clauses: seq<Clause>, inc: Increment)
    requires p.sourceId in s.sources && SelfKeyed(s.open) && d.Incremental()
    requires DistinctIds(ListOf(p.contract.outcomes))
    requires
      ValidateIncrement(p, d, s, parent, normative, clauses, AllBegun(ListOf(p.contract.outcomes))) == Ok(inc)
    ensures OpensAs(p, d, s, AsMap(inc.outcomes)) && Lists(inc.outcomes, AsMap(inc.outcomes))
    ensures SameTransitions(ListOf(p.contract.transitions), inc.transitions)
    ensures inc.normative == ListOf(p.normative)
    ensures Elements(inc.superseded) == Elements(ListOf(p.supersedes)) && Ascending(inc.superseded)
  {
    var outcomes, ts := ListOf(p.contract.outcomes), ListOf(p.contract.transitions);
    var supplied := AllBegun(outcomes);
    var superseded, touched := IncrementOpened(p, d, s, parent, normative, clauses, supplied, inc);
    var merged := Merged(s.open, supplied, touched);
    hide *;
    IncrementTouches(p, d, s, parent, normative, clauses, supplied, superseded, touched);
    BegunOutcomes(outcomes);
    MergedSelfKeyed(s.open, outcomes, ts, touched);
    KeyOrderLists(merged);
    TransitionsOrdered(ts, touched);
    MergedOpensAs(p, d, s, touched);
  }

  lemma {:induction false} WholeOpensAs(p: Classification, d: Disposition, s: State)
    requires DistinctIds(ListOf(p.contract.outcomes)) && !d.Incremental()
    requires d.Withdraw? ==> ListOf(p.contract.outcomes) == []
    ensures var os := InKeyOrder(AsMap(AllBegun(ListOf(p.contract.outcomes))));
      OpensAs(p, d, s, AsMap(os)) && Lists(os, AsMap(os))
  {
    var outcomes := ListOf(p.contract.outcomes);
    BegunOutcomes(outcomes);
    var m := AsMap(AllBegun(outcomes));
    assert SelfKeyed(m);
    KeyOrderLists(m);
    hide AsMap, AllBegun, Begun, InKeyOrder, Lists, DistinctIds, SelfKeyed;
    assert d.Withdraw? ==> OutcomeIds(outcomes) == {};
  }

  /** The contract on record afterwards. What is left out of an increment's fields is its parent's. */
  ghost predicate RecordsAs(p: Classification, d: Disposition, s: State, n: Contract)
    requires CurrentContractKnown(s)
  {
    && n.sourceId == p.sourceId && n.disposition == d
    && n.body.contractId == p.contract.contractId && n.body.parentId == p.contract.parentId
    && n.body.replacesId == p.contract.replacesId && n.body.withdrawsId == p.contract.withdrawsId
    && n.body.unsupported == p.contract.unsupported
    && n.body.clauses == Items(AllBound(ListOf(p.contract.clauses), s.sources))
    && p.contract.normative.Keys <= n.body.normative.Keys
    && (!d.Incremental() ==> n.body.normative == p.contract.normative)
    && (forall f :: Lookup(n.body.normative, f) == Effective(p, s, f))
    && if d.Incremental()
       then
         && n.normative == ListOf(p.normative)
         && Elements(n.supersedes) == Elements(ListOf(p.supersedes)) && Ascending(n.supersedes)
         && n.body.transitions.Items? && SameTransitions(ListOf(p.contract.transitions), n.body.transitions.items)
       else n.normative == [] && n.supersedes == [] && n.body.transitions == p.contract.transitions
  }

  /** What the validator returns, as a contract. */
  function AsContract(q: Classification): Contract
    requires q.disposition.Some?
  {
    Contract(q.contract, q.sourceId, q.disposition.value, ListOf(q.normative), ListOf(q.supersedes))
  }

  /** The draft is the payload's, and its disposition has what it needs. */
  ghost predicate Drafted(p: Classification, draft: Draft, s: State)
    requires CurrentContractKnown(s)
  {
    var d := draft.disposition;
    && p.disposition == Some(d) && p.sourceId in s.sources && DistinctIds(ListOf(p.contract.outcomes))
    && (d.Incremental() ==> s.current.Some?) && (d.Withdraw? ==> ListOf(p.contract.outcomes) == [])
    && draft.supplied == AllBegun(ListOf(p.contract.outcomes))
    && draft.clauses == AllBound(ListOf(p.contract.clauses), s.sources)
    && draft.normative == if d.Incremental()
         then Inherit(p.contract.normative, s.contracts[s.current.value].body.normative) else p.contract.normative
  }

  lemma {:induction false} DraftIsDrafted(p: Classification, s: State)
    requires CurrentContractKnown(s) && DraftContract(p, s).Ok?
    ensures Drafted(p, DraftContract(p, s).value, s)
  {
    DraftExactly(p, s);
    hide DraftContract, AllBound, AllBegun, SourcesStand, OutcomeFits, ClausesFit, SafeId, Effective, Inherit;
  }

  /** What settling makes of the draft: the outcomes opened, and for an increment what it declares. */
  ghost predicate SettledAs(p: Classification, d: Disposition, s: State, inc: Increment) {
    && OpensAs(p, d, s, AsMap(inc.outcomes)) && Lists(inc.outcomes, AsMap(inc.outcomes))
    && if d.Incremental()
       then
         && inc.normative == ListOf(p.normative) && SameTransitions(ListOf(p.contract.transitions), inc.transitions)
         && Elements(inc.superseded) == Elements(ListOf(p.supersedes)) && Ascending(inc.superseded)
       else inc.normative == [] && inc.superseded == []
  }

  lemma {:induction false} SettledExactly(p: Classification, draft: Draft, s: State, inc: Increment)
    requires CurrentContractKnown(s) && OpenOutcomesKept(s) && Drafted(p, draft, s)
    requires SettleOutcomes(p, draft, s) == Ok(inc)
    ensures SettledAs(p, draft.disposition, s, inc)
  {
    assert SelfKeyed(s.open) by { forall k | k in s.open ensures s.open[k].id == k { KeptPasses(s, k); } }
    var d := draft.disposition;
    hide AllBound, AllBegun, OpenOutcomesKept, OpensAs, Lists, SelfKeyed, SameTransitions, Ascending, Elements,
      ValidateIncrement, InKeyOrder, AsMap, DistinctIds, TruthyList, Inherit;
    if d.Incremental() {
      IncrementOpensAs(p, d, s, s.contracts[s.current.value], draft.normative, draft.clauses, inc);
    } else {
      WholeOpensAs(p, d, s);
    }
  }

  lemma {:induction false} PublishRecordsAs(p: Classification, draft: Draft, s: State, inc: Increment)
    requires CurrentContractKnown(s) && Drafted(p, draft, s) && SettledAs(p, draft.disposition, s, inc)
    ensures RecordsAs(p, draft.disposition, s, AsContract(Publish(p, draft, inc)))
  {
    hide AllBound, AllBegun, OpensAs, Lists, SameTransitions, Ascending, Elements, AsMap, DistinctIds, Inherit;
    if draft.disposition.Incremental() { FieldsExactly(p, s.contracts[s.current.value]); }
    hide Lookup;
  }

  lemma {:induction false} PublishedRecordsAs(p: Classification, s: State, q: Classification)
    requires CurrentContractKnown(s) && OpenOutcomesKept(s) && ValidateContractEvent(p, s) == Ok(q)
    ensures q.disposition.Some? && q.disposition == p.disposition && q.sourceId == p.sourceId
    ensures RecordsAs(p, q.disposition.value, s, AsContract(q)) && q.contract.outcomes.Items?
    ensures var os := q.contract.outcomes.items;
      OpensAs(p, q.disposition.value, s, AsMap(os)) && Lists(os, AsMap(os))
  {
    DraftIsDrafted(p, s);
    var draft := DraftContract(p, s).value;
    var inc := SettleOutcomes(p, draft, s).value;
    hide DraftContract, SettleOutcomes, RecordsAs, OpensAs, Lists, AsMap, OpenOutcomesKept;
    SettledExactly(p, draft, s, inc);
    PublishRecordsAs(p, draft, s, inc);
  }

  // ---------------------------------------------------------------- the transition

  /** `list.remove`: the first occurrence is gone, the rest is as it was. */
  predicate Removed(ids: seq<Id>, id: Id, rest: seq<Id>) {
    exists i :: 0 <= i < |ids| && ids[i] == id && id !in ids[..i] && rest == ids[..i] + ids[i + 1..]
  }

  lemma {:induction false} WithoutAt(ids: seq<Id>, id: Id, i: nat)
    requires i < |ids| && ids[i] == id && id !in ids[..i]
    ensures Without(ids, id) == ids[..i] + ids[i + 1..]
  {
    if i == 0 {
    } else {
      var tail := ids[1..];
      assert ids[..i][0] == ids[0] && tail[..i - 1] == ids[..i][1..];
      WithoutAt(tail, id, i - 1);
      assert ids[..i] + ids[i + 1..] == [ids[0]] + (tail[..i - 1] + tail[i..]);
    }
  }

  lemma {:induction false} WithoutRemoves(ids: seq<Id>, id: Id)
    requires id in ids
    ensures Removed(ids, id, Without(ids, id))
  {
    var i := FirstWhere(ids, x => x == id).value;
    WithoutAt(ids, id, i);
    hide Without;
  }

  /** The whole state afterwards. */
  ghost predicate ClassifiedTo(s: State, p: Classification, d: Disposition, t: State)
    requires CurrentContractKnown(s)
  {
    var id := p.contract.contractId;
    && OpensAs(p, d, s, t.open)
    && id !in s.contracts && id in t.contracts && RecordsAs(p, d, s, t.contracts[id])
    && t.contracts[id].body.outcomes.Items? && Lists(t.contracts[id].body.outcomes.items, t.open)
    && t.current == (if d.Withdraw? then None else Some(id))
    && Removed(s.unclassified, p.sourceId, t.unclassified)
    && t.catalog.Keys == s.catalog.Keys + t.open.Keys
    && (forall k | k in t.open :: t.open[k].description == Some(t.catalog[k]))
    && (forall k | k in s.catalog :: t.catalog[k] == s.catalog[k])
    && t == s.(contracts := s.contracts[id := t.contracts[id]], current := t.current, latestProgress := None,
               open := t.open, catalog := t.catalog, unclassified := t.unclassified)
  }

  lemma {:induction false} CataloguedKeys(os: seq<Outcome>, catalog: map<Id, string>)
    requires Catalogue(os, catalog).Ok?
    ensures Catalogue(os, catalog).value.Keys == catalog.Keys + OutcomeIds(os)
  {
    if os == [] {
    } else {
      CataloguedKeys(os[1..], catalog[os[0].id := os[0].description.value]);
      assert os == [os[0]] + os[1..];
      assert OutcomeIds(os) == {os[0].id} + OutcomeIds(os[1..]);
    }
  }

  lemma {:induction false} CatalogueOf(s: State, p: Classification, q: Classification)
    requires Validated(s, p, q)
    ensures q.contract.outcomes.Items? && Catalogue(q.contract.outcomes.items, s.catalog).Ok?
  {
    CatalogueAccepts(q.contract.outcomes.items, s.catalog);
    hide Passes, Catalogue, DistinctIds, ClauseExact, DistinctClauses;
  }

  /** A classification is taken exactly when it is acceptable and its sources stand, and this is what it does. */
  lemma {:induction false} ClassifiedExactly(s: State, p: Classification)
    requires CurrentContractKnown(s) && OpenOutcomesKept(s)
    ensures StepClassified(s, p).Ok? <==> Acceptable(p, s) && SourcesStand(p, s)
    ensures StepClassified(s, p).Ok? ==>
      p.disposition.Some? && ClassifiedTo(s, p, p.disposition.value, StepClassified(s, p).value)
  {
    AcceptedExactly(p, s);
    if ValidateContractEvent(p, s).Ok? {
      var q := ValidateContractEvent(p, s).value;
      hide *;
      ValidatorValidates(s, p, q);
      var t := ValidatedSteps(s, p, q);
      PublishedRecordsAs(p, s, q);
      AdoptsTo(s, p, q, t);
    } else {
      hide ValidateContractEvent, Acceptable, SourcesStand, ClassifiedTo;
    }
  }

  lemma {:induction false} StepIsAdoption(s: State, p: Classification, q: Classification)
    requires CurrentContractKnown(s) && ValidateContractEvent(p, s) == Ok(q)
    requires q.disposition.Some? && q.contract.outcomes.Items? && Catalogue(q.contract.outcomes.items, s.catalog).Ok?
    ensures StepClassified(s, p).Ok? && Adopted(s, q, StepClassified(s, p).value)
  {
    hide ValidateContractEvent, Catalogue, AsMap, Without;
  }

  lemma {:induction false} ValidatedSteps(s: State, p: Classification, q: Classification) returns (t: State)
    requires CurrentContractKnown(s) && ValidateContractEvent(p, s) == Ok(q) && Validated(s, p, q)
    ensures StepClassified(s, p) == Ok(t) && Adopted(s, q, t)
  {
    CatalogueOf(s, p, q);
    StepIsAdoption(s, p, q);
    hide *;
    t := StepClassified(s, p).value;
  }

  /** The catalogue afterwards has the descriptions it had and those of the outcomes opened. */
  lemma {:induction false} AdoptsCatalogue(s: State, q: Classification, t: State)
    requires Adopted(s, q, t) && q.contract.outcomes.Items? && DistinctIds(q.contract.outcomes.items)
    ensures t.catalog.Keys == s.catalog.Keys + t.open.Keys
    ensures forall k | k in t.open :: t.open[k].description == Some(t.catalog[k])
    ensures forall k | k in s.catalog :: t.catalog[k] == s.catalog[k]
  {
    var os := q.contract.outcomes.items;
    if !q.disposition.value.Withdraw? {
      Catalogued(os, s.catalog);
      CataloguedKeys(os, s.catalog);
      assert t.open == AsMap(os);
    }
    hide Catalogue, AsMap, Without, DistinctIds;
  }

  lemma {:induction false} AdoptsTo(s: State, p: Classification, q: Classification, t: State)
    requires CurrentContractKnown(s) && Validated(s, p, q) && Adopted(s, q, t)
    requires RecordsAs(p, q.disposition.value, s, AsContract(q)) && q.contract.outcomes.Items?
    requires OpensAs(p, q.disposition.value, s, AsMap(q.contract.outcomes.items))
    requires Lists(q.contract.outcomes.items, AsMap(q.contract.outcomes.items))
    ensures ClassifiedTo(s, p, q.disposition.value, t)
  {
    var d, os := q.disposition.value, q.contract.outcomes.items;
    AdoptsCatalogue(s, q, t);
    WithoutRemoves(s.unclassified, p.sourceId);
    assert q.contract.contractId == p.contract.contractId;
    if d.Withdraw? { assert AsMap(os) == map[]; }
    hide Catalogue, AsMap, Without, Passes, DistinctIds, ClauseExact, DistinctClauses, Lists, OpensAs, Removed,
      RecordsAs;
  }

  /**
   * No outcome that is stated is lost: a founding or replacing contract opens exactly the outcomes it states, and
   * an increment opens those it states that are new, each with its own status, or open when it has none.
   */
  lemma {:induction false} StatedOutcomesOpen(s: State, p: Classification, t: State)
    requires CurrentContractKnown(s) && OpenOutcomesKept(s) && StepClassified(s, p) == Ok(t)
    requires p.disposition.Some? && !p.disposition.value.Withdraw?
    ensures t.open.Keys == OutcomeIds(ListOf(p.contract.outcomes))
    ensures forall o | o in ListOf(p.contract.outcomes) && (!p.disposition.value.Incremental() || o.id !in s.open) ::
      t.open[o.id] == o.(status := Some(if o.status.Some? then o.status.value else Open))
  {
    ClassifiedExactly(s, p);
    hide StepClassified, OpenOutcomesKept, OutcomeIds, RecordsAs, Lists, Removed;
  }
}
