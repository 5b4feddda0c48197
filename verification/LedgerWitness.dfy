/** A concrete journal: a source is captured and classified as the first contract. */
module LedgerWitness {
  import opened Common
  import opened LedgerModel
  import opened LedgerContract
  import opened LedgerReplay
  import opened LedgerInvariant
  import opened LedgerAppend
  import opened LedgerAppendProofs
  import opened LedgerRetries
  import opened JournalRecord

  const SOURCE := Source("a", "S", map[])
  const FILES := Surroundings(map["a" := Blob("S", 1, true)], {}, map[])
  const CAPTURE := Attempt("s", SourceCaptured(true, SOURCE), "user", None, "")

  const CLAUSE := Clause("k", "s", "a", "S", map[])
  const OUTCOME := Outcome("o", None, Some("d"), None, [], None, map[])
  const BODY := ContractBody(
    "c", None, None, None, map[PrimaryObjective := Text("p")], Items([CLAUSE]), Items([OUTCOME]), Missing, {})
  const CLASSIFICATION := Classification("s", Some(Initial), BODY, None, Missing, Missing, {})
  const CLASSIFY := Attempt("e", SourceClassified(CLASSIFICATION), "agent", None, "")

  lemma {:induction false} Letters()
    ensures forall c | c in ["s", "e", "k", "o", "c"] :: SafeId(c)
    ensures !Blank("p") && !Blank("d") && Upper("S") == "S"
  {
    assert !IsSpace("p"[0]) && !IsSpace("d"[0]);
  }

  function Captured(hash: Entry -> string): Entry {
    NewRecord(hash, [], CAPTURE, CAPTURE.event)
  }

  /** The state after the capture. */
  function CapturedState(hash: Entry -> string): State {
    EmptyState().(sources := map["s" := SOURCE], unclassified := ["s"], revision := 1,
                  head := Captured(hash).eventHash)
  }

  lemma {:induction false} CaptureReplays(hash: Entry -> string)
    ensures Replay([Captured(hash)]) == Ok(CapturedState(hash))
  {
    var rs, s, r := [Captured(hash)], EmptyState(), Captured(hash);
    CaptureSteps(hash);
    hide Step, CapturedState, Captured;
    assert rs[..|rs| - 1] == [] && Replay([]) == Ok(s);
  }

  lemma {:induction false} CaptureSteps(hash: Entry -> string)
    ensures Step(EmptyState(), Captured(hash)) == Ok(CapturedState(hash))
  {
    var s, r := EmptyState(), Captured(hash);
    assert s.unclassified + ["s"] == ["s"] && s.sources["s" := SOURCE] == map["s" := SOURCE];
    assert StepEvent(s, "s", r.event) == Ok(s.(sources := map["s" := SOURCE], unclassified := ["s"]));
    hide StepEvent;
  }

  lemma {:induction false} CaptureDecided(hash: Entry -> string)
    ensures Decide(hash, FILES, [], CAPTURE) == Ok(Commit(Captured(hash), Attach(FILES, CapturedState(hash))))
  {
    Letters();
    CaptureReplays(hash);
    AttachedFacts(hash);
    assert Normalise(FILES, Attach(FILES, EmptyState()), CAPTURE.event) == Ok(CAPTURE.event);
    assert [] + [Captured(hash)] == [Captured(hash)] && Replay([]) == Ok(EmptyState());
    hide SafeId, Attach, Normalise, Replay, NewRecord, Upper, CapturedState;
  }

  lemma {:induction false} CaptureCommits(hash: Entry -> string)
    ensures Reachable(hash, [Captured(hash)])
  {
    CaptureDecided(hash);
    hide Decide, Attach, Captured, CapturedState;
    var rs := [Captured(hash)];
    assert rs[..|rs| - 1] == [] && Reachable(hash, []);
    assert CommitPossible(hash, [], Captured(hash));
  }

  lemma {:induction false} AttachedFacts(hash: Entry -> string)
    ensures var s := Attach(FILES, CapturedState(hash));
      && WellCurrent(s) && s.sources == map["s" := SOURCE] && s.unclassified == ["s"] && s.current.None?
      && s.contracts == map[] && s.open == map[] && s.catalog == map[] && s.integrity == map["s" := Verified(1)]
  {
    var s := CapturedState(hash);
    assert InspectSource(FILES, SOURCE) == Verified(1);
    assert Attach(FILES, s).integrity == map["s" := Verified(1)] by {
      hide InspectGap, InspectSource;
      assert s.sources["s"] == SOURCE;
    }
    hide InspectGap, InspectSource;
  }

  lemma {:induction false} ClausesAccepted()
    ensures ValidateClauseRefs(Items([CLAUSE]), map["s" := SOURCE]) == Ok([CLAUSE])
    ensures ValidateOutcomes([OUTCOME], map[], {}) == Ok([OUTCOME.(status := Some(Open))])
  {
    Letters();
    hide SafeId, Blank, Upper;
    var settled := OUTCOME.(status := Some(Open));
    assert [CLAUSE][1..] == [] && [OUTCOME][1..] == [] && [CLAUSE] + [] == [CLAUSE] && [settled] + [] == [settled];
    assert ValidateClause(CLAUSE, map["s" := SOURCE], {}) == Ok(CLAUSE);
    assert ValidateClauses([], map["s" := SOURCE], {} + {CLAUSE.id}) == Ok([]);
    assert ValidateOutcome(OUTCOME, map[], {}) == Ok(settled);
    assert ValidateOutcomes([], map[], {OUTCOME.id}) == Ok([]);
  }

  lemma {:induction false} ClassificationIsAccepted(s: State) returns (q: Classification)
    requires WellCurrent(s) && s.sources == map["s" := SOURCE] && s.unclassified == ["s"] && s.current.None?
    requires s.contracts == map[] && s.catalog == map[] && s.integrity == map["s" := Verified(1)]
    ensures ValidateContractEvent(CLASSIFICATION, s) == Ok(q)
  {
    Letters();
    ClausesAccepted();
    hide SafeId, Blank, Upper, ValidateClauseRefs, ValidateOutcomes, InKeyOrder, AsMap;
    assert CheckClassifiedSource(CLASSIFICATION, s) == Ok(Initial);
    var draft := Draft(Initial, BODY.normative, [CLAUSE], [OUTCOME.(status := Some(Open))]);
    assert DraftContract(CLASSIFICATION, s) == Ok(draft);
    hide DraftContract;
    q := Publish(CLASSIFICATION, draft, SettleOutcomes(CLASSIFICATION, draft, s).value);
  }

  lemma {:induction false} Adopted(s: State, p: Classification, t: State)
    requires WellCurrent(s) && StepClassified(s, p) == Ok(t) && p.disposition == Some(Initial)
    ensures t.sources == s.sources && t.current == Some(p.contract.contractId) && p.contract.contractId in t.contracts
  {
    hide DraftContract, SettleOutcomes, Catalogue, AsMap, Without, ListOf;
  }

  /** With every known source verified, so are those the classification depends on. */
  lemma {:induction false} AllAvailable(s: State, e: Event, id: Id)
    requires e.SourceClassified? && e.classification.sourceId in s.sources
    requires CurrentContractSources(s) <= s.sources.Keys && s.sources == map["s" := SOURCE]
    ensures var t := Attach(FILES, s); SourcesAvailable(t, DependentSources(e, id, t))
  {
    AttachView(FILES, s);
    var t := Attach(FILES, s);
    assert t.integrity.Keys == {"s"} && t.integrity["s"] == Verified(1);
    hide Attach, CurrentContractSources;
  }

  lemma {:induction false} Accepted(hash: Entry -> string, rs: seq<Entry>, s: State, q: Classification)
    requires Reachable(hash, rs) && Replay(rs) == Ok(s) && CLASSIFY.eventId !in EventIds(rs)
    requires WellCurrent(Attach(FILES, s)) && ValidateContractEvent(CLASSIFICATION, Attach(FILES, s)) == Ok(q)
    ensures var r := NewRecord(hash, rs, CLASSIFY, SourceClassified(q));
      && r.event == SourceClassified(q) && r.eventId == CLASSIFY.eventId
      && Replay(rs + [r]).Ok? && CommittedIfAvailable(hash, FILES, rs, CLASSIFY, SourceClassified(q))
  {
    Letters();
    hide Reachable, Replay, Attach, ValidateContractEvent, CommittedIfAvailable, SafeId;
    AcceptedClassificationCommits(hash, FILES, rs, s, CLASSIFY, SourceClassified(q));
  }

  lemma {:induction false} Published(p: Classification, s: State, q: Classification)
    requires WellCurrent(s) && ValidateContractEvent(p, s) == Ok(q)
    ensures q.sourceId == p.sourceId && q.disposition == p.disposition
    ensures q.contract.contractId == p.contract.contractId
  {
    hide DraftContract, SettleOutcomes;
  }

  lemma {:induction false} LastClassified(rs: seq<Entry>, s: State, r: Entry, u: State, q: Classification)
    returns (mid: State)
    requires Replay(rs) == Ok(s) && Replay(rs + [r]) == Ok(u) && r.event == SourceClassified(q)
    ensures WellCurrent(s) && StepClassified(s, q) == Ok(mid)
    ensures u.sources == mid.sources && u.current == mid.current && u.contracts == mid.contracts
  {
    var w := ReplayLast(rs + [r], u);
    assert (rs + [r])[..|rs|] == rs;
    hide Replay, StepClassified;
    mid := StepClassified(s, q).value;
  }

  lemma {:induction false} ClassifyCommits(hash: Entry -> string, rs: seq<Entry>, s: State, q: Classification)
    requires Reachable(hash, rs) && Replay(rs) == Ok(s) && CLASSIFY.eventId !in EventIds(rs)
    requires s.sources == map["s" := SOURCE] && WellCurrent(s) && WellCurrent(Attach(FILES, s))
    requires ValidateContractEvent(CLASSIFICATION, Attach(FILES, s)) == Ok(q)
    ensures var r := NewRecord(hash, rs, CLASSIFY, SourceClassified(q));
      && Replay(rs + [r]).Ok?
      && var t := Attach(FILES, Replay(rs + [r]).value);
        && Decide(hash, FILES, rs, CLASSIFY) == Ok(Commit(r, t))
        && t.current == Some("c") && "c" in t.contracts
  {
    hide Replay, Attach, ValidateContractEvent, StepClassified, Reachable, UniqueIds, LedgerInv, SourcesAvailable,
      DependentSources, CurrentContractSources, Decide, ClausesExact, NewRecord;
    var e := SourceClassified(q);
    var r := NewRecord(hash, rs, CLASSIFY, e);
    Accepted(hash, rs, s, q);
    var u := Replay(rs + [r]).value;
    Published(CLASSIFICATION, Attach(FILES, s), q);
    var mid := LastClassified(rs, s, r, u, q);
    Adopted(s, q, mid);
    ReachableJournalsKeepInv(hash, rs);
    UniqueExtends(rs, r);
    ReplayKeepsInv(rs + [r]);
    InvParts(u);
    CurrentSourcesKnown(u);
    AllAvailable(u, e, CLASSIFY.eventId);
    AttachView(FILES, u);
  }

  /** The classification is committed as well: there is a reachable journal with a contract. */
  lemma {:induction false} ClassifiedJournalExists(hash: Entry -> string)
    returns (rs: seq<Entry>, r: Entry, t: State)
    ensures Reachable(hash, rs) && Decide(hash, FILES, rs, CLASSIFY) == Ok(Commit(r, t))
    ensures Reachable(hash, rs + [r]) && r.event.SourceClassified?
    ensures t.current == Some("c") && "c" in t.contracts
  {
    rs := [Captured(hash)];
    CaptureCommits(hash);
    CaptureReplays(hash);
    AttachedFacts(hash);
    var s := CapturedState(hash);
    var q := ClassificationIsAccepted(Attach(FILES, s));
    var e := SourceClassified(q);
    r := NewRecord(hash, rs, CLASSIFY, e);
    ClassifyCommits(hash, rs, s, q);
    t := Attach(FILES, Replay(rs + [r]).value);
  }
}
