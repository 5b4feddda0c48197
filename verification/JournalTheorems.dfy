/** Safety of the journal over whole runs. */
module JournalTheorems {
  import opened Common
  import opened JournalRecord
  import opened Journal
  import opened JournalRuns
  import opened JournalSafety

  lemma {:induction false} RunLast<P>(cfg: Config<P>, w: World<P>, acts: seq<Act<P>>, w': World<P>)
    returns (mid: World<P>)
    requires acts != [] && Run(cfg, w, acts) == Some(w')
    ensures Run(cfg, w, acts[..|acts| - 1]) == Some(mid) && Step(cfg, mid, acts[|acts| - 1]) == Some(w')
  {
    mid := Run(cfg, w, acts[..|acts| - 1]).value;
    hide Step;
  }

  lemma {:induction false} StartKeepsInv<P>(cfg: Config<P>)
    ensures Inv(cfg, Start(), [], [])
  {
  }

  /** From any world the invariant describes, the committed records only ever grow at the end. */
  lemma {:induction false} CommittedOnlyGrows<P(!new)>(
    cfg: Config<P>, w: World<P>, acts: seq<Act<P>>, w': World<P>, rs: seq<Record<P>>, tail: seq<Byte>)
    returns (rs': seq<Record<P>>, tail': seq<Byte>)
    requires Faithful(cfg.codec) && Inv(cfg, w, rs, tail) && Run(cfg, w, acts) == Some(w')
    ensures Inv(cfg, w', rs', tail') && rs <= rs'
  {
    if acts == [] {
      rs', tail' := rs, tail;
    } else {
      hide Inv, Run, Step, CommitsBy, Faithful;
      var mid := RunLast(cfg, w, acts, w');
      var rs1, tail1 := CommittedOnlyGrows(cfg, w, acts[..|acts| - 1], mid, rs, tail);
      rs', tail' := StepKeepsInv(cfg, mid, acts[|acts| - 1], w', rs1, tail1);
    }
  }

  /**
   * After any interleaving of processes with crashes at any step or byte, the file is whole records and
   * then part of one line; a repairing scan returns exactly those records, which form a valid chain of
   * legal records with distinct event ids.
   */
  lemma {:induction false} EveryRunScans<P(!new)>(cfg: Config<P>, acts: seq<Act<P>>, w: World<P>)
    returns (rs: seq<Record<P>>, tail: seq<Byte>)
    requires Faithful(cfg.codec) && Run(cfg, Start(), acts) == Some(w)
    ensures Inv(cfg, w, rs, tail) && w.journal == Encoded(cfg.codec, rs) + tail
    ensures ScanBytes(cfg.codec, w.journal, true) == TornScan(rs, |Encoded(cfg.codec, rs)|, tail, true)
    ensures ValidChain(cfg.codec, rs) && UniqueIds(rs) && LegalChain(cfg.legal, rs)
  {
    StartKeepsInv(cfg);
    rs, tail := CommittedOnlyGrows(cfg, Start(), acts, w, [], []);
    assert FileHolds(cfg, w.journal, rs, tail);
    hide ScanBytes, Encoded, LockHeld, Owners, Authored, Knows;
    ScanOfCommitted(cfg.codec, rs, tail, true);
  }

  /** Acknowledged records are in the file, and stay there whatever happens next. */
  lemma {:induction false} AcknowledgedStays<P(!new)>(
    cfg: Config<P>, before: seq<Act<P>>, w: World<P>, after: seq<Act<P>>, w': World<P>, p: Pid, r: Record<P>)
    returns (rs: seq<Record<P>>, tail: seq<Byte>, at: nat)
    requires Faithful(cfg.codec) && Run(cfg, Start(), before) == Some(w) && Run(cfg, w, after) == Some(w')
    requires p in w.procs && w.procs[p].pc == Finished(Acked(r))
    ensures ScanBytes(cfg.codec, w'.journal, true) == TornScan(rs, |Encoded(cfg.codec, rs)|, tail, true)
    ensures at < |rs| && rs[at] == r
  {
    hide Run, ScanBytes, Encoded, TornScan, Faithful;
    var rs0, tail0 := EveryRunScans(cfg, before, w);
    assert Owned(cfg.codec, w.procs[p].pc) == Some(r);
    at :| 0 <= at < |rs0| && rs0[at] == r;
    rs, tail := CommittedOnlyGrows(cfg, w, after, w', rs0, tail0);
    assert FileHolds(cfg, w'.journal, rs, tail);
    ScanOfCommitted(cfg.codec, rs, tail, true);
  }

  // ---------------------------------------------------------------- one process, seen over a run

  predicate Over<P>(pc: Pc<P>) {
    pc.Finished? || pc.Dead?
  }

  lemma {:induction false} OthersStay<P(!new)>(cfg: Config<P>, w: World<P>, act: Act<P>, w': World<P>, p: Pid)
    requires Step(cfg, w, act) == Some(w') && p in w.procs && (act.Spawn? || act.Recover? || act.p != p)
    ensures p in w'.procs && w'.procs[p] == w.procs[p]
  {
    hide ScanBytes, MayPropose, Line, EventIds;
  }

  /** How one step may move a process: never back to the start, never back in, never forgetting its record. */
  lemma {:induction false} ProcessMoves<P(!new)>(cfg: Config<P>, w: World<P>, act: Act<P>, w': World<P>, p: Pid)
    requires Step(cfg, w, act) == Some(w') && p in w.procs
    requires act.Release? && act.p == p ==> w.lock == Some(p)
    ensures p in w'.procs && w'.procs[p].op == w.procs[p].op
    ensures w.procs[p].pc != Idle ==> w'.procs[p].pc != Idle
    ensures Over(w.procs[p].pc) ==> Over(w'.procs[p].pc)
    ensures Begun(w.procs[p].pc).Some? ==> Begun(w'.procs[p].pc) == Begun(w.procs[p].pc)
    ensures Begun(w.procs[p].pc).None? && Begun(w'.procs[p].pc).Some? ==>
              w.procs[p].pc.Clean? && MayPropose(cfg, w.procs[p].pc.rs, w.procs[p].op, Begun(w'.procs[p].pc).value)
    ensures w'.procs[p].pc == Finished(LockLost) ==>
      w.procs[p].pc == Finished(LockLost) || w.procs[p].pc == Releasing(LockLost)
    ensures w'.procs[p].pc == Releasing(LockLost) ==> w.procs[p].pc == Releasing(LockLost)
  {
    hide ScanBytes, Extends, EventIds, Head, MayPropose, Line;
    if act.Spawn? || act.Recover? || act.p != p {
      OthersStay(cfg, w, act, w', p);
    } else {
      var op, pc := w.procs[p].op, w.procs[p].pc;
      assert StepProcess(cfg, w, act, p, op, pc) == Some(w');
      hide Step;
    }
  }

  lemma {:induction false} ReleaserHoldsLock<P(!new)>(
    cfg: Config<P>, w: World<P>, act: Act<P>, w': World<P>, rs: seq<Record<P>>, tail: seq<Byte>)
    requires Inv(cfg, w, rs, tail) && Step(cfg, w, act) == Some(w')
    ensures act.Release? ==> w.lock == Some(act.p)
  {
    if act.Release? {
      assert w.procs[act.p].pc.Releasing? by { hide Inv, ScanBytes; }
      hide Step, Knows, FileHolds, Owners, Authored;
      OthersOutside(w, act.p);
    }
  }

  /**
   * A process that is refused has changed nothing: from the moment it took the lock until it reports the
   * rejection, the committed records are the same.
   */
  lemma {:induction false} RejectionCommitsNothing<P(!new)>(
    cfg: Config<P>, w: World<P>, acts: seq<Act<P>>, w': World<P>, p: Pid, rs: seq<Record<P>>, tail: seq<Byte>)
    returns (tail': seq<Byte>)
    requires Faithful(cfg.codec) && Inv(cfg, w, rs, tail) && Run(cfg, w, acts) == Some(w')
    requires p in w.procs && Inside(w.procs[p].pc)
    requires p in w'.procs && Inside(w'.procs[p].pc) && Begun(w'.procs[p].pc).None?
    ensures Inv(cfg, w', rs, tail')
    ensures Begun(w.procs[p].pc).None?
  {
    if acts == [] {
      tail' := tail;
    } else {
      hide Inv, Run, Step, CommitsBy, Faithful, Begun;
      var act := acts[|acts| - 1];
      var u := RunLast(cfg, w, acts, w');
      var rs1, tail1 := CommittedOnlyGrows(cfg, w, acts[..|acts| - 1], u, rs, tail);
      NotIdleAgain(cfg, w, acts[..|acts| - 1], u, p, rs, tail);
      ReleaserHoldsLock(cfg, u, act, w', rs1, tail1);
      ProcessMoves(cfg, u, act, w', p);
      assert Inside(u.procs[p].pc);
      var tail2 := RejectionCommitsNothing(cfg, w, acts[..|acts| - 1], u, p, rs, tail);
      var rs', t := StepKeepsInv(cfg, u, act, w', rs, tail2);
      if r :| CommitsBy(cfg, u, act, r) && rs' == rs + [r] {
        CommitterHolds(cfg, u, act, r, rs, tail2, p);
      }
      tail' := t;
    }
  }

  lemma {:induction false} CommitterHolds<P(!new)>(
    cfg: Config<P>, w: World<P>, act: Act<P>, r: Record<P>, rs: seq<Record<P>>, tail: seq<Byte>, p: Pid)
    requires Inv(cfg, w, rs, tail) && CommitsBy(cfg, w, act, r) && p in w.procs && Inside(w.procs[p].pc)
    ensures act.p == p && Begun(w.procs[p].pc) == Some(r)
  {
    hide FileHolds, Owners, Authored, Knows, Line;
    OthersOutside(w, p);
  }

  lemma {:induction false} NotIdleAgain<P(!new)>(
    cfg: Config<P>, w: World<P>, acts: seq<Act<P>>, w': World<P>, p: Pid, rs: seq<Record<P>>, tail: seq<Byte>)
    requires Faithful(cfg.codec) && Inv(cfg, w, rs, tail) && Run(cfg, w, acts) == Some(w') && p in w.procs
    ensures p in w'.procs && w'.procs[p].op == w.procs[p].op
    ensures w.procs[p].pc != Idle ==> w'.procs[p].pc != Idle
  {
    if acts == [] {
    } else {
      hide Inv, Run, Step, CommitsBy, Faithful, Begun;
      var act := acts[|acts| - 1];
      var u := RunLast(cfg, w, acts, w');
      var rs1, tail1 := CommittedOnlyGrows(cfg, w, acts[..|acts| - 1], u, rs, tail);
      NotIdleAgain(cfg, w, acts[..|acts| - 1], u, p, rs, tail);
      ReleaserHoldsLock(cfg, u, act, w', rs1, tail1);
      ProcessMoves(cfg, u, act, w', p);
    }
  }

  // ---------------------------------------------------------------- compare and swap

  /** A process only begins a record that names the head it was told to expect, and none ever loses its lock. */
  ghost predicate Honest<P>(w: World<P>) {
    forall p | p in w.procs ::
      && (Begun(w.procs[p].pc).Some? && w.procs[p].op.Append? && w.procs[p].op.expectedHead.Some? ==>
            Begun(w.procs[p].pc).value.prevHash == w.procs[p].op.expectedHead.value)
      && (Begun(w.procs[p].pc).Some? ==>
        w.procs[p].op.Append? && Begun(w.procs[p].pc).value.eventId == w.procs[p].op.eventId)
      && w.procs[p].pc != Finished(LockLost) && w.procs[p].pc != Releasing(LockLost)
  }

  lemma {:induction false} StepStaysHonest<P(!new)>(
    cfg: Config<P>, w: World<P>, act: Act<P>, w': World<P>, rs: seq<Record<P>>, tail: seq<Byte>)
    requires Inv(cfg, w, rs, tail) && Honest(w) && Step(cfg, w, act) == Some(w')
    ensures Honest(w')
  {
    ReleaserHoldsLock(cfg, w, act, w', rs, tail);
    SpawnsOnly(cfg, w, act, w');
    hide Inv, Step, Begun;
    forall p | p in w'.procs && p in w.procs
      ensures Begun(w'.procs[p].pc).Some? ==>
        w'.procs[p].op.Append? && Begun(w'.procs[p].pc).value.eventId == w'.procs[p].op.eventId
      ensures Begun(w'.procs[p].pc).Some? && w'.procs[p].op.Append? && w'.procs[p].op.expectedHead.Some? ==>
                Begun(w'.procs[p].pc).value.prevHash == w'.procs[p].op.expectedHead.value
      ensures w'.procs[p].pc != Finished(LockLost) && w'.procs[p].pc != Releasing(LockLost)
    {
      ProcessMoves(cfg, w, act, w', p);
    }
  }

  lemma {:induction false} SpawnsOnly<P(!new)>(cfg: Config<P>, w: World<P>, act: Act<P>, w': World<P>)
    requires Step(cfg, w, act) == Some(w')
    ensures forall p | p in w'.procs && p !in w.procs :: w'.procs[p].pc == Idle && Begun(w'.procs[p].pc).None?
  {
    hide ScanBytes, Extends, EventIds, Head, MayPropose, Line;
  }

  lemma {:induction false} RunsStayHonest<P(!new)>(cfg: Config<P>, acts: seq<Act<P>>, w: World<P>)
    requires Faithful(cfg.codec) && Run(cfg, Start(), acts) == Some(w)
    ensures Honest(w)
  {
    if acts == [] {
    } else {
      hide Run, Step, Honest, Faithful;
      var u := RunLast(cfg, Start(), acts, w);
      RunsStayHonest(cfg, acts[..|acts| - 1], u);
      var rs, tail := EveryRunScans(cfg, acts[..|acts| - 1], u);
      StepStaysHonest(cfg, u, acts[|acts| - 1], w, rs, tail);
    }
  }

  /**
   * Of all the appends that carry the same expected head, at most one is ever acknowledged.
   */
  lemma {:induction false} ExpectedHeadIsUsedOnce<P(!new)>(
    cfg: Config<P>, acts: seq<Act<P>>, w: World<P>, p: Pid, q: Pid, r: Record<P>, r': Record<P>)
    requires Faithful(cfg.codec) && CollisionFree(cfg.codec) && Run(cfg, Start(), acts) == Some(w)
    requires p in w.procs && q in w.procs && w.procs[p].op.Append? && w.procs[q].op.Append?
    requires w.procs[p].op.expectedHead.Some? && w.procs[p].op.expectedHead == w.procs[q].op.expectedHead
    requires w.procs[p].pc == Finished(Acked(r)) && w.procs[q].pc == Finished(Acked(r'))
    ensures p == q && r == r'
  {
    hide Run, ScanBytes, Encoded, TornScan, Faithful, CollisionFree, LegalChain, ValidChain;
    RunsStayHonest(cfg, acts, w);
    var rs, tail := EveryRunScans(cfg, acts, w);
    assert Begun(w.procs[p].pc) == Some(r) && Begun(w.procs[q].pc) == Some(r');
    assert r.prevHash == r'.prevHash;
    assert Owned(cfg.codec, w.procs[p].pc) == Some(r) && Owned(cfg.codec, w.procs[q].pc) == Some(r');
    var i :| 0 <= i < |rs| && rs[i] == r;
    var j :| 0 <= j < |rs| && rs[j] == r';
    if i < j { PredecessorsDiffer(cfg.codec, rs, i, j); }
    if j < i { PredecessorsDiffer(cfg.codec, rs, j, i); }
  }

  /**
   * Even counting appends that died or could not tell how far they got: of all those that carry the same
   * expected head, at most one record is ever committed.
   */
  lemma {:induction false} ExpectedHeadCommitsOnce<P(!new)>(
    cfg: Config<P>, acts: seq<Act<P>>, w: World<P>, p: Pid, q: Pid, r: Record<P>, r': Record<P>)
    returns (rs: seq<Record<P>>, tail: seq<Byte>)
    requires Faithful(cfg.codec) && CollisionFree(cfg.codec) && Run(cfg, Start(), acts) == Some(w)
    requires p in w.procs && q in w.procs && w.procs[p].op.Append? && w.procs[q].op.Append?
    requires w.procs[p].op.expectedHead.Some? && w.procs[p].op.expectedHead == w.procs[q].op.expectedHead
    requires Begun(w.procs[p].pc) == Some(r) && Begun(w.procs[q].pc) == Some(r')
    ensures ScanBytes(cfg.codec, w.journal, true) == TornScan(rs, |Encoded(cfg.codec, rs)|, tail, true)
    ensures r in rs && r' in rs ==> r == r'
  {
    hide Run, ScanBytes, Encoded, TornScan, Faithful, CollisionFree, Inv;
    RunsStayHonest(cfg, acts, w);
    rs, tail := EveryRunScans(cfg, acts, w);
    assert r.prevHash == r'.prevHash;
    if r in rs && r' in rs {
      var i :| 0 <= i < |rs| && rs[i] == r;
      var j :| 0 <= j < |rs| && rs[j] == r';
      if i < j { PredecessorsDiffer(cfg.codec, rs, i, j); }
      if j < i { PredecessorsDiffer(cfg.codec, rs, j, i); }
    }
  }

  lemma {:induction false} RepairCuts<P(!new)>(
    cfg: Config<P>, w: World<P>, p: Pid, w': World<P>, rs: seq<Record<P>>, tail: seq<Byte>)
    requires Inv(cfg, w, rs, tail) && Step(cfg, w, Truncate(p)) == Some(w')
    ensures w.journal == w'.journal + tail && tail in w'.recovered && w'.journal == Encoded(cfg.codec, rs)
  {
    hide Inv, ScanBytes, Encoded;
    TruncateKeepsInv(cfg, w, w', rs, tail, p);
    TruncatedFile(cfg, w', rs);
  }

  /**
   * The bytes a repair cuts are kept: what was in the file is what is left plus a tail that stays preserved
   * whatever happens next.
   */
  lemma {:induction false} RepairLosesNoByte<P(!new)>(
    cfg: Config<P>, w: World<P>, p: Pid, w': World<P>, rs: seq<Record<P>>, tail: seq<Byte>, acts: seq<Act<P>>,
    u: World<P>)
    requires Inv(cfg, w, rs, tail) && Step(cfg, w, Truncate(p)) == Some(w') && Run(cfg, w', acts) == Some(u)
    ensures w.journal == w'.journal + tail && w'.journal == Encoded(cfg.codec, rs)
    ensures tail in w'.recovered && tail in u.recovered
  {
    hide *;
    RepairCuts(cfg, w, p, w', rs, tail);
    RecoveredForGood(cfg, w', acts, u);
  }

  lemma {:induction false} RecoveredForGood<P(!new)>(cfg: Config<P>, w: World<P>, acts: seq<Act<P>>, u: World<P>)
    requires Run(cfg, w, acts) == Some(u)
    ensures w.recovered <= u.recovered
  {
    if acts == [] {
    } else {
      hide Run, Step;
      var mid := RunLast(cfg, w, acts, u);
      RecoveredForGood(cfg, w, acts[..|acts| - 1], mid);
      RecoveredGrows(cfg, mid, acts[|acts| - 1], u);
    }
  }

  lemma {:induction false} TruncatedFile<P>(cfg: Config<P>, w: World<P>, rs: seq<Record<P>>)
    requires Inv(cfg, w, rs, [])
    ensures w.journal == Encoded(cfg.codec, rs)
  {
    hide Knows, Owners, Authored, LockHeld;
    assert FileHolds(cfg, w.journal, rs, []);
    assert Encoded(cfg.codec, rs) + [] == Encoded(cfg.codec, rs);
  }

  lemma {:induction false} RecoveredGrows<P>(cfg: Config<P>, w: World<P>, act: Act<P>, w': World<P>)
    requires Step(cfg, w, act) == Some(w')
    ensures w.recovered <= w'.recovered
  {
    hide ScanBytes, Extends, EventIds, Head, MayPropose, Line;
  }
}
