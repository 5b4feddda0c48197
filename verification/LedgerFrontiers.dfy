/** What the runtime frontiers say of the files beside the journal: source texts and capture-gap records. */
module LedgerFrontiers {
  import opened Common
  import opened LedgerModel
  import opened LedgerContract
  import opened LedgerReplay
  import opened LedgerInvariant
  import opened LedgerEffects
  import opened LedgerAppend
  import opened LedgerAppendProofs
  import opened JournalRecord

  // ---------------------------------------------------------------- sources

  /** The text of a source is where it was, can be read, and has the digest that was recorded. */
  predicate Intact(env: Surroundings, source: Source) {
    && source.ref !in env.outside && source.ref in env.files
    && env.files[source.ref].readable && env.files[source.ref].sha == source.sha
  }

  /** A source is reported verified, with its size, exactly when its text is intact; all others are unproven. */
  lemma {:induction false} VerifiedIsIntact(env: Surroundings, s: State, id: Id, n: nat)
    requires id in s.sources
    ensures var t := Attach(env, s);
      && t.integrity.Keys == s.sources.Keys
      && (t.integrity[id] == Verified(n) <==>
        Intact(env, s.sources[id]) && n == env.files[s.sources[id].ref].size)
      && (id in t.unproven <==> !Intact(env, s.sources[id]))
      && t.unproven <= s.sources.Keys
  {
    hide InspectGap;
  }

  /** Why a source is unproven: its path is outside, or nothing is there, or it cannot be read, or it differs. */
  lemma {:induction false} UnprovenReasons(env: Surroundings, s: State, id: Id)
    requires id in s.sources
    ensures var t, source := Attach(env, s), s.sources[id];
      && id in t.integrity
      && (t.integrity[id] == InvalidPath <==> source.ref in env.outside)
      && (t.integrity[id] == SourceMissing <==> source.ref !in env.outside && source.ref !in env.files)
      && (t.integrity[id] == Unreadable <==>
        source.ref !in env.outside && source.ref in env.files && !env.files[source.ref].readable)
      && (t.integrity[id] == Modified <==>
        && source.ref !in env.outside && source.ref in env.files
        && env.files[source.ref].readable && env.files[source.ref].sha != source.sha)
  {
    hide InspectGap;
  }

  lemma {:induction false} AvailableMeans(env: Surroundings, s: State, ids: set<Id>)
    ensures SourcesAvailable(Attach(env, s), ids) <==>
      forall id | id in ids :: id in s.sources && Intact(env, s.sources[id])
  {
    forall id | id in ids
      ensures (id in Attach(env, s).integrity && Attach(env, s).integrity[id].Verified?)
        <==> (id in s.sources && Intact(env, s.sources[id]))
    {
      if id in s.sources {
        VerifiedIsIntact(env, s, id, if Intact(env, s.sources[id]) then env.files[s.sources[id].ref].size else 0);
        UnprovenReasons(env, s, id);
      }
    }
  }

  // ---------------------------------------------------------------- capture gaps

  /** The recovered source is intact, and is byte for byte what the gap observed. */
  predicate Recovers(env: Surroundings, s: State, file: GapFile, id: Id)
    requires file.GapFile?
  {
    && id in s.sources && Intact(env, s.sources[id])
    && file.observedSha == Some(s.sources[id].sha) && IsSha256(s.sources[id].sha)
    && file.observedBytes == Some(env.files[s.sources[id].ref].size as int)
  }

  /** A gap is settled by the owner's disposition, or by an exact recovery. */
  predicate GapSettled(env: Surroundings, s: State, id: Id)
    requires id in env.gapFiles
  {
    && env.gapFiles[id].GapFile? && SafeId(id) && id in s.gapResolutions
    && var g := s.gapResolutions[id].body;
      g.decision.SourceRecovered? ==>
        Recovers(env, s, env.gapFiles[id], if g.sourceId.Some? then g.sourceId.value else "")
  }

  lemma {:induction false} RecoversIsExact(env: Surroundings, s: State, file: GapFile, id: Id)
    requires file.GapFile?
    ensures ExactRecovery(AttachIntegrity(env, s), file.observedSha, file.observedBytes, id)
      <==> Recovers(env, s, file, id)
  {
    hide IsSha256;
  }

  /** Of the gap files exactly those are listed as unresolved that nothing has settled. */
  lemma {:induction false} UnresolvedIsUnsettled(env: Surroundings, s: State, id: Id)
    ensures id in UnresolvedGaps(Attach(env, s)) <==> id in env.gapFiles && !GapSettled(env, s, id)
  {
    if id in env.gapFiles {
      var file := env.gapFiles[id];
      if file.GapFile? && id in s.gapResolutions {
        var g := s.gapResolutions[id].body;
        RecoversIsExact(env, s, file, if g.sourceId.Some? then g.sourceId.value else "");
      }
    }
    hide ExactRecovery, Recovers, InspectSource, SafeId;
  }

  /** How a gap is reported: what it observed, and why it is not settled. */
  lemma {:induction false} GapReport(env: Surroundings, s: State, id: Id)
    requires id in env.gapFiles
    ensures var gap, file := Attach(env, s).gaps[id], env.gapFiles[id];
      && (gap.status == Resolved <==> GapSettled(env, s, id))
      && (gap.status == InvalidGapRecord <==> file.InvalidGapFile? || !SafeId(id))
      && (gap.status == Unresolved <==> file.GapFile? && SafeId(id) && id !in s.gapResolutions)
      && (gap.status != InvalidGapRecord ==>
        gap.observedSha == file.observedSha && gap.observedBytes == file.observedBytes)
  {
    UnresolvedIsUnsettled(env, s, id);
    hide ExactRecovery, InspectSource, SafeId, GapSettled;
  }

  // ---------------------------------------------------------------- what is held back

  /** Nothing waits for review: every source is decided, every gap settled, and what work rests on is intact. */
  predicate NothingPending(env: Surroundings, s: State) {
    && s.unclassified == []
    && (forall id | id in env.gapFiles :: GapSettled(env, s, id))
    && forall c | c in CurrentClauses(s) && c.sourceId in s.sources :: Intact(env, s.sources[c.sourceId])
  }

  lemma {:induction false} CurrentSources(s: State)
    ensures forall id :: id in CurrentContractSources(s) <==> exists c :: c in CurrentClauses(s) && c.sourceId == id
  {
    hide ClausesOf;
  }

  lemma {:induction false} PendingMeans(env: Surroundings, s: State)
    ensures ReconciliationPending(Attach(env, s)) <==> !NothingPending(env, s)
  {
    var t := Attach(env, s);
    assert t.unclassified == s.unclassified && CurrentContractSources(t) == CurrentContractSources(s) by {
      hide InspectGap, InspectSource;
    }
    forall id ensures id in UnresolvedGaps(t) <==> id in env.gapFiles && !GapSettled(env, s, id) {
      UnresolvedIsUnsettled(env, s, id);
    }
    forall id ensures id in t.unproven <==> id in s.sources && !Intact(env, s.sources[id]) {
      if id in s.sources { VerifiedIsIntact(env, s, id, 0); } else { UnprovenKnown(env, s); }
    }
    CurrentSources(s);
    hide Attach, UnresolvedGaps, GapSettled, Intact, CurrentContractSources, CurrentClauses;
    var at := CurrentContractSources(s) + Elements(s.unclassified);
    if UnresolvedGaps(t) != {} { var id :| id in UnresolvedGaps(t); }
    if at * t.unproven != {} {
      var id :| id in at * t.unproven;
      assert id in s.sources && !Intact(env, s.sources[id]);
    } else {
      forall id | id in CurrentContractSources(s) && id in s.sources ensures Intact(env, s.sources[id]) {
        assert id !in at * t.unproven;
      }
    }
  }

  lemma {:induction false} UnprovenKnown(env: Surroundings, s: State)
    ensures Attach(env, s).unproven <= s.sources.Keys
  {
    hide InspectGap, InspectSource;
  }

  /**
   * A mutating call is allowed exactly when the ledger can be read, nothing waits for review, and no action it
   * depends on has an unsettled effect; anything else is always allowed.
   */
  lemma {:induction false} PreflightMeans(env: Surroundings, rs: seq<Entry>, tool: ToolClass, dependencies: set<Id>)
    ensures PreflightDecision(ReadState(env, rs), tool, dependencies) == Allow <==>
      tool == Mutating ==>
        && Replay(rs).Ok? && NothingPending(env, Replay(rs).value)
        && forall id | id in dependencies && id in Replay(rs).value.actions :: Settled(Replay(rs).value, id)
  {
    if Replay(rs).Ok? {
      var s := Replay(rs).value;
      PendingMeans(env, s);
      PreflightSplits(env, s, tool, dependencies);
    }
    hide Replay, Attach, ReconciliationPending, NothingPending, Settled, UnknownEffects;
  }

  lemma {:induction false} PreflightSplits(env: Surroundings, s: State, tool: ToolClass, dependencies: set<Id>)
    ensures PreflightDecision(Ok(Attach(env, s)), tool, dependencies) == Allow <==>
      tool == Mutating ==>
        && !ReconciliationPending(Attach(env, s))
        && forall id | id in dependencies && id in s.actions :: Settled(s, id)
  {
    var t := Attach(env, s);
    assert UnknownEffects(t) == UnknownEffects(s) by { hide InspectGap, InspectSource; }
    assert UnknownEffects(s) <= s.actions.Keys;
    hide Attach, UnknownEffects, UnresolvedGaps, CurrentContractSources;
    if dependencies * UnknownEffects(s) != {} {
      var id :| id in dependencies * UnknownEffects(s);
      assert !Settled(s, id);
    }
    forall id | id in dependencies && id in s.actions && !Settled(s, id)
      ensures id in dependencies * UnknownEffects(s)
    { }
    assert t.unclassified == [] ==> Elements(t.unclassified) == {};
    assert CurrentContractSources(t) + {} == CurrentContractSources(t);
  }

  // ---------------------------------------------------------------- what a commit rests on

  /** The sources an event rests on, in the state it leads to. */
  predicate RestsOn(e: Event, eventId: Id, t: State, id: Id) {
    match e
    case SourceCaptured(_, _) => id == eventId
    case SourceClassified(p) => id == p.sourceId || exists c :: c in CurrentClauses(t) && c.sourceId == id
    case SourceDisposed(d) => id == d.sourceId
    case ProgressMade(_) => exists c :: c in CurrentClauses(t) && c.sourceId == id
    case ActionStarted(_) => exists c :: c in CurrentClauses(t) && c.sourceId == id
    case GapResolved(g) => g.sourceId == Some(id)
    case _ => false
  }

  /** Every source a committed event rests on has its recorded digest at that moment. */
  lemma {:induction false} CommitsRestOnIntactSources(
      hash: Entry -> string, env: Surroundings, rs: seq<Entry>, a: Attempt, r: Entry, t: State, id: Id)
    requires Decide(hash, env, rs, a) == Ok(Commit(r, t)) && RestsOn(r.event, r.eventId, t, id)
    ensures id in t.sources && Intact(env, t.sources[id])
  {
    var s, u := DecideOpened(hash, env, rs, a, r, t);
    CommittedIsAvailable(hash, env, rs, a, r, t);
    var ids := DependentSources(r.event, r.eventId, t);
    AvailableMeans(env, u, ids);
    assert t.sources == u.sources by { hide InspectGap, InspectSource; }
    CurrentSources(t);
    hide Attach, Decide, CurrentContractSources, CurrentClauses;
    assert id in ids;
  }

  lemma {:induction false} CommittedIsAvailable(
    hash: Entry -> string, env: Surroundings, rs: seq<Entry>, a: Attempt, r: Entry, t: State)
    requires Decide(hash, env, rs, a) == Ok(Commit(r, t))
    ensures SourcesAvailable(t, DependentSources(r.event, r.eventId, t)) && r.eventId == a.eventId
  {
    hide Replay, Attach, Normalise, FindEvent, SafeId, Upper, DependentSources, SourcesAvailable;
  }
}
