/** The ledger's state machine over the journal's bytes. */
module LedgerJournal {
  import opened Common
  import opened Journal
  import opened JournalRuns
  import opened JournalTheorems
  import JsonCodec
  import opened LedgerModel
  import opened LedgerReplay
  import opened LedgerInvariant
  import opened LedgerAppend
  import opened LedgerAppendProofs
  import opened LedgerStore

  /** The journal's transition oracle is the ledger's own commit decision, against whatever files surround it. */
  ghost function LedgerConfig(c: Codec<Event>): Config<Event> {
    Config(c, (rs, r) => CommitPossible(c.hash, rs, r))
  }

  lemma {:induction false} LegalIsReachable(c: Codec<Event>, rs: seq<Entry>)
    requires LegalChain(LedgerConfig(c).legal, rs)
    ensures Reachable(c.hash, rs)
  {
    if rs == [] {
    } else {
      hide CommitPossible;
      LegalIsReachable(c, rs[..|rs| - 1]);
    }
  }

  /**
   * Whatever processes run and wherever they crash, the next repairing scan of the ledger's journal
   * replays, to a state in which sources are conserved, clauses are exact, work and advice belong to the
   * current contract, and effects are linked.
   */
  lemma {:induction false} EveryLedgerReplays(c: Codec<Event>, acts: seq<Act<Event>>, w: World<Event>)
    returns (rs: seq<Entry>, tail: seq<Byte>)
    requires Faithful(c) && Run(LedgerConfig(c), Start(), acts) == Some(w)
    ensures ScanBytes(c, w.journal, true) == TornScan(rs, |Encoded(c, rs)|, tail, true)
    ensures Replay(rs).Ok? && LedgerInv(Replay(rs).value)
  {
    hide Run, ScanBytes, TornScan, Encoded, Faithful, Reachable, LedgerInv, Replay, Inv;
    rs, tail := EveryRunScans(LedgerConfig(c), acts, w);
    LegalIsReachable(c, rs);
    ReachableJournalsKeepInv(c.hash, rs);
  }

  /** In particular when the ledger is kept in canonical JSON, in whatever JSON form its events read back from. */
  lemma {:induction false} JsonLedgerReplays(
      f: JsonCodec.EventForm<Event>, digest: seq<Byte> -> string, acts: seq<Act<Event>>, w: World<Event>)
    returns (rs: seq<Entry>, tail: seq<Byte>)
    requires JsonCodec.ReadsBack(f) && JsonCodec.Digests(digest)
    requires Run(LedgerConfig(JsonCodec.CodecOf(f, digest)), Start(), acts) == Some(w)
    ensures var c := JsonCodec.CodecOf(f, digest);
      ScanBytes(c, w.journal, true) == TornScan(rs, |Encoded(c, rs)|, tail, true)
    ensures Replay(rs).Ok? && LedgerInv(Replay(rs).value)
  {
    hide *;
    JsonCodec.JsonJournalsAreFaithful(f, digest);
    rs, tail := EveryLedgerReplays(JsonCodec.CodecOf(f, digest), acts, w);
  }

  /**
   * The bytes a finished append leaves are those of the extended journal; the bytes of an interrupted one
   * are repaired by the next scan to the journal before it, or to the extended one.
   */
  lemma {:induction false} InterruptedAppendRepairs(c: Codec<Event>, rs: seq<Entry>, r: Entry, accepted: nat)
    requires Faithful(c) && ValidChain(c, rs) && Extends(c, rs, r) && accepted <= |Line(c, r)|
    ensures accepted == |Line(c, r)| ==> Encoded(c, rs) + Line(c, r)[..accepted] == Encoded(c, rs + [r])
    ensures var s := ScanBytes(c, Encoded(c, rs) + Line(c, r)[..accepted], true);
      s.Scanned? && s.records == if accepted == |Line(c, r)| then rs + [r] else rs
  {
    hide ScanBytes;
    var line := Line(c, r);
    assert NoBreaks(c.encode(r));
    if accepted == |line| {
      assert (rs + [r])[..|rs|] == rs && line[..accepted] == line;
      ChainExtends(c, rs, r);
      ScanOfCommitted(c, rs + [r], [], true);
      assert Encoded(c, rs + [r]) + [] == Encoded(c, rs) + line[..accepted];
    } else {
      assert line[..accepted] == c.encode(r)[..accepted];
      assert forall b | b in line[..accepted] :: b in c.encode(r);
      ScanOfCommitted(c, rs, line[..accepted], true);
    }
  }

  // ---------------------------------------------------------------- the store and the journals it can hold

  lemma {:induction false} CommitIsNext(
      c: Codec<Event>, env: Surroundings, rs: seq<Entry>, a: Attempt, r: Entry, t: State)
    requires Decide(c.hash, env, rs, a) == Ok(Commit(r, t))
    ensures CommitPossible(c.hash, rs, r) && Extends(c, rs, r)
  {
    hide Decide, CommitPossible, Upper, Replay, Attach, DependentSources, SourcesAvailable;
    CommitExtends(c.hash, env, rs, a, r, t);
    DecidedIsPossible(c.hash, env, rs, a, r, t);
  }

  lemma {:induction false} DecidedIsPossible(
    hash: Entry -> string, env: Surroundings, rs: seq<Entry>, a: Attempt, r: Entry, t: State)
    requires Decide(hash, env, rs, a) == Ok(Commit(r, t))
    ensures CommitPossible(hash, rs, r)
  {
    hide Decide;
  }

  lemma {:induction false} PossibleExtends(c: Codec<Event>, rs: seq<Entry>, r: Entry)
    requires CommitPossible(c.hash, rs, r)
    ensures Extends(c, rs, r)
  {
    hide Decide;
    var env, a, t :| Decide(c.hash, env, rs, a) == Ok(Commit(r, t));
    CommitIsNext(c, env, rs, a, r, t);
  }

  lemma {:induction false} ReachableIsChain(c: Codec<Event>, rs: seq<Entry>)
    requires Reachable(c.hash, rs)
    ensures ValidChain(c, rs)
  {
    if rs == [] {
    } else {
      hide CommitPossible, Extends;
      ReachableIsChain(c, rs[..|rs| - 1]);
      PossibleExtends(c, rs[..|rs| - 1], rs[|rs| - 1]);
    }
  }

  lemma {:induction false} ReachableGrows(c: Codec<Event>, rs: seq<Entry>, r: Entry)
    requires Reachable(c.hash, rs) && CommitPossible(c.hash, rs, r)
    ensures Reachable(c.hash, rs + [r])
  {
    hide CommitPossible;
    assert (rs + [r])[..|rs|] == rs;
  }

  lemma {:induction false} WholeLine(c: Codec<Event>, rs: seq<Entry>, r: Entry)
    ensures Encoded(c, rs + [r]) == Encoded(c, rs) + Line(c, r)
  {
    assert (rs + [r])[..|rs|] == rs;
    hide Line;
  }

  lemma {:induction false} PartOfLine(c: Codec<Event>, r: Entry, accepted: nat)
    requires Faithful(c) && accepted < |Line(c, r)|
    ensures NoBreaks(Line(c, r)[..accepted])
  {
    assert NoBreaks(c.encode(r));
    assert Line(c, r)[..accepted] == c.encode(r)[..accepted];
    assert forall b | b in c.encode(r)[..accepted] :: b in c.encode(r);
  }

  lemma {:induction false} ScanOfLedger(c: Codec<Event>, rs: seq<Entry>, tail: seq<Byte>)
    requires Faithful(c) && Reachable(c.hash, rs) && NoBreaks(tail)
    ensures var s := ScanBytes(c, Encoded(c, rs) + tail, true);
      s.Scanned? && s.records == rs && s.kept == |Encoded(c, rs)|
  {
    ReachableIsChain(c, rs);
    ScanOfCommitted(c, rs, tail, true);
    hide ScanBytes, Encoded;
  }

  lemma {:induction false} NothingBreaks()
    ensures NoBreaks([])
  {
  }

  lemma {:induction false} LineWritten(c: Codec<Event>, r: Entry, accepted: nat)
    requires Faithful(c)
    ensures Written(Line(c, r), accepted) == if accepted < |Line(c, r)| then Line(c, r)[..accepted] else Line(c, r)
    ensures accepted < |Line(c, r)| ==> NoBreaks(Line(c, r)[..accepted])
  {
    if accepted < |Line(c, r)| { PartOfLine(c, r, accepted); }
  }

  /** What an append leaves of the journal: the old records or one more, and part of at most one line. */
  predicate Extended(out: AppendOutcome, rs: seq<Entry>, rs': seq<Entry>) {
    && !out.ScanRefused?
    && (out.Appended? || out.AppendedUnprojected? ==> rs' == rs + [out.record])
    && (out.UncertainAppend? ==> rs' == rs || rs' == rs + [out.record])
    && (!out.Began() ==> rs' == rs)
  }

  lemma {:induction false} CommitLeaves(
    c: Codec<Event>, env: Surroundings, a: Attempt, fate: Fate, s: Files, out: AppendOutcome, t: Files,
    effect: Option<EffectStage>, rs: seq<Entry>, r: Entry, state: State)
    returns (rs': seq<Entry>, tail': seq<Byte>)
    requires Faithful(c) && Reachable(c.hash, rs) && Decide(c.hash, env, rs, a) == Ok(Commit(r, state))
    requires |Encoded(c, rs)| <= |s.journal| && s.journal[..|Encoded(c, rs)|] == Encoded(c, rs)
    requires CommitsAs(c, r, state, fate, s, |Encoded(c, rs)|, out, t, effect)
    ensures t.journal == Encoded(c, rs') + tail' && NoBreaks(tail') && Reachable(c.hash, rs')
    ensures Extended(out, rs, rs')
  {
    hide Decide, Reachable, Encoded, Line, NoBreaks, Written, Faithful;
    CommitIsNext(c, env, rs, a, r, state);
    LineWritten(c, r, fate.accepted);
    if fate.accepted < |Line(c, r)| {
      rs', tail' := rs, Line(c, r)[..fate.accepted];
    } else {
      ReachableGrows(c, rs, r);
      WholeLine(c, rs, r);
      NothingBreaks();
      rs', tail' := rs + [r], [];
    }
  }

  lemma {:induction false} AppendLeaves(
    c: Codec<Event>, env: Surroundings, a: Attempt, fate: Fate, s: Files, out: AppendOutcome, t: Files,
    effect: Option<EffectStage>, rs: seq<Entry>, tail: seq<Byte>)
    returns (rs': seq<Entry>, tail': seq<Byte>)
    requires Faithful(c) && Reachable(c.hash, rs) && NoBreaks(tail) && s.journal == Encoded(c, rs) + tail
    requires AppendsAs(c, env, a, fate, s, out, t, effect)
    ensures t.journal == Encoded(c, rs') + tail' && NoBreaks(tail') && Reachable(c.hash, rs')
    ensures Extended(out, rs, rs')
  {
    hide Decide, ScanBytes, Reachable, Encoded, NoBreaks, Faithful, CommitsAs, ReadState;
    ScanOfLedger(c, rs, tail);
    assert s.journal[..|Encoded(c, rs)|] == Encoded(c, rs);
    var decision := Decide(c.hash, env, rs, a);
    if decision.Ok? && decision.value.Commit? {
      hide AppendsAs;
      rs', tail' := CommitLeaves(
        c, env, a, fate, s, out, t, effect, rs, decision.value.record, decision.value.state);
    } else {
      NothingBreaks();
      rs', tail' := rs, [];
    }
  }

  /**
   * The store never leaves the journals that commits can build: whatever an append decides, however far its
   * write gets and whoever seizes its lock, the file again holds such a journal and part of at most one line.
   */
  method AppendToLedger(
    ledger: Ledger, c: Codec<Event>, env: Surroundings, a: Attempt, token: string, fate: Fate,
    seized: Option<Option<string>>, ghost rs: seq<Entry>, ghost tail: seq<Byte>)
    returns (report: AppendReport, ghost rs': seq<Entry>, ghost tail': seq<Byte>)
    requires Faithful(c) && Reachable(c.hash, rs) && NoBreaks(tail) && ledger.journal == Encoded(c, rs) + tail
    modifies ledger
    ensures ledger.journal == Encoded(c, rs') + tail' && NoBreaks(tail') && Reachable(c.hash, rs')
    ensures Extended(report.outcome, rs, rs')
    ensures report.FaultWithoutEffect? ==> rs' == rs
  {
    hide AppendsAs, Encoded, Faithful, Reachable, NoBreaks;
    ghost var before := ledger.Snapshot();
    ghost var free := ledger.lock.None?;
    report := ledger.AppendEvent(c, env, a, token, fate, seized);
    if free {
      rs', tail' := AppendLeaves(
        c, env, a, fate, before, report.outcome, ledger.Snapshot(), ledger.effect, rs, tail);
    } else {
      rs', tail' := rs, tail;
    }
  }
}
