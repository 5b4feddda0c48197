/** Nothing gets stuck: after any run appends can still commit, every ending is possible, and verdicts are true. */
module JournalLiveness {
  import opened Common
  import opened JournalRecord
  import opened Journal
  import opened JournalRuns
  import opened JournalSafety
  import opened JournalTheorems

  // ---------------------------------------------------------------- one process by itself

  /** The world with this process in it, holding the lock. */
  function At<P>(w: World<P>, p: Pid, op: Op, journal: seq<Byte>, recovered: set<seq<Byte>>, pc: Pc<P>): World<P> {
    World(journal, recovered, Some(p), w.procs[p := Proc(op, pc)])
  }

  lemma {:induction false} OneMoreStep<P>(
      cfg: Config<P>, w: World<P>, acts: seq<Act<P>>, mid: World<P>, act: Act<P>, w': World<P>)
    requires Run(cfg, w, acts) == Some(mid) && Step(cfg, mid, act) == Some(w')
    ensures Run(cfg, w, acts + [act]) == Some(w')
  {
    assert (acts + [act])[..|acts|] == acts;
    hide Step;
  }

  /** A process that finds the lock free gets in. */
  lemma {:induction false} Enters<P(!new)>(cfg: Config<P>, w: World<P>, p: Pid, op: Op) returns (acts: seq<Act<P>>)
    requires w.lock.None? && p !in w.procs
    ensures Run(cfg, w, acts) == Some(At(w, p, op, w.journal, w.recovered, Locked))
  {
    var waiting := w.(procs := w.procs[p := Proc(op, Idle)]);
    assert Step(cfg, w, Spawn(p, op)) == Some(waiting);
    assert Run(cfg, w, []) == Some(w);
    OneMoreStep(cfg, w, [], w, Spawn(p, op), waiting);
    var inside := At(w, p, op, w.journal, w.recovered, Locked);
    assert waiting.procs[p := Proc(op, Locked)] == inside.procs;
    assert Step(cfg, waiting, Acquire(p)) == Some(inside);
    OneMoreStep(cfg, w, [] + [Spawn(p, op)], waiting, Acquire(p), inside);
    acts := [] + [Spawn(p, op)] + [Acquire(p)];
  }

  lemma {:induction false} Moves<P>(
      w: World<P>, p: Pid, op: Op, journal: seq<Byte>, recovered: set<seq<Byte>>, pc: Pc<P>, pc': Pc<P>)
    ensures Goto(At(w, p, op, journal, recovered, pc), p, pc') == At(w, p, op, journal, recovered, pc')
  {
    assert w.procs[p := Proc(op, pc)][p := Proc(op, pc')] == w.procs[p := Proc(op, pc')];
  }

  /** Scanning with repair leaves exactly the committed records, with the torn tail preserved. */
  lemma {:induction false} Repairs<P(!new)>(
      cfg: Config<P>, w: World<P>, p: Pid, op: Op, rs: seq<Record<P>>, tail: seq<Byte>, acts: seq<Act<P>>)
    returns (more: seq<Act<P>>)
    requires Faithful(cfg.codec) && FileHolds(cfg, w.journal, rs, tail) && (op.Append? || op.repair)
    requires Run(cfg, w, acts) == Some(At(w, p, op, w.journal, w.recovered, Locked))
    ensures Run(cfg, w, more) == Some(At(w, p, op, Encoded(cfg.codec, rs), WithTail(w.recovered, tail), Clean(rs)))
  {
    hide ScanBytes, Encoded, ValidChain, LegalChain, UniqueIds, Faithful, NoBreaks, Run;
    var now, kept := At(w, p, op, w.journal, w.recovered, Locked), |Encoded(cfg.codec, rs)|;
    ScanOfCommitted(cfg.codec, rs, tail, true);
    if tail == [] {
      assert w.journal == Encoded(cfg.codec, rs);
      Moves(w, p, op, w.journal, w.recovered, Locked, Clean(rs));
      var next := At(w, p, op, w.journal, w.recovered, Clean(rs));
      assert Step(cfg, now, Scan(p)) == Some(next);
      OneMoreStep(cfg, w, acts, now, Scan(p), next);
      more := acts + [Scan(p)];
    } else {
      Moves(w, p, op, w.journal, w.recovered, Locked, Torn(rs, kept, tail));
      var torn := At(w, p, op, w.journal, w.recovered, Torn(rs, kept, tail));
      assert Step(cfg, now, Scan(p)) == Some(torn);
      OneMoreStep(cfg, w, acts, now, Scan(p), torn);
      more := acts + [Scan(p)];
      more := Cuts(cfg, w, p, op, rs, tail, more);
    }
  }

  function WithTail(recovered: set<seq<Byte>>, tail: seq<Byte>): set<seq<Byte>> {
    if tail == [] then recovered else recovered + {tail}
  }

  lemma {:induction false} Cuts<P(!new)>(
      cfg: Config<P>, w: World<P>, p: Pid, op: Op, rs: seq<Record<P>>, tail: seq<Byte>, acts: seq<Act<P>>)
    returns (more: seq<Act<P>>)
    requires tail != [] && w.journal == Encoded(cfg.codec, rs) + tail
    requires Run(cfg, w, acts)
          == Some(At(w, p, op, w.journal, w.recovered, Torn(rs, |Encoded(cfg.codec, rs)|, tail)))
    ensures Run(cfg, w, more) == Some(At(w, p, op, Encoded(cfg.codec, rs), WithTail(w.recovered, tail), Clean(rs)))
  {
    hide Encoded, Run;
    var kept := |Encoded(cfg.codec, rs)|;
    var recovered := w.recovered + {tail};
    var torn := At(w, p, op, w.journal, w.recovered, Torn(rs, kept, tail));
    var saved := At(w, p, op, w.journal, recovered, Saved(rs, kept, tail));
    Moves(w, p, op, w.journal, recovered, Torn(rs, kept, tail), Saved(rs, kept, tail));
    assert Step(cfg, torn, Preserve(p)) == Some(saved);
    OneMoreStep(cfg, w, acts, torn, Preserve(p), saved);
    var clean := At(w, p, op, Encoded(cfg.codec, rs), recovered, Clean(rs));
    Moves(w, p, op, Encoded(cfg.codec, rs), recovered, Saved(rs, kept, tail), Clean(rs));
    assert w.journal[..kept] == Encoded(cfg.codec, rs);
    assert Step(cfg, saved, Truncate(p)) == Some(clean);
    OneMoreStep(cfg, w, acts + [Preserve(p)], saved, Truncate(p), clean);
    more := acts + [Preserve(p)] + [Truncate(p)];
  }

  /** Byte by byte the line is written, as far as it goes. */
  lemma {:induction false} Writes<P(!new)>(
      cfg: Config<P>, w: World<P>, p: Pid, op: Op, journal: seq<Byte>, recovered: set<seq<Byte>>, r: Record<P>,
      n: nat, end: nat, acts: seq<Act<P>>)
    returns (more: seq<Act<P>>)
    requires n <= end <= |Line(cfg.codec, r)|
    requires Run(cfg, w, acts) == Some(At(w, p, op, journal + Line(cfg.codec, r)[..n], recovered, Writing(r, n)))
    ensures Run(cfg, w, more) == Some(At(w, p, op, journal + Line(cfg.codec, r)[..end], recovered, Writing(r, end)))
    decreases end - n
  {
    var line := Line(cfg.codec, r);
    hide Line, Run;
    if n == end {
      more := acts;
    } else {
      var now := At(w, p, op, journal + line[..n], recovered, Writing(r, n));
      assert journal + line[..n] + [line[n]] == journal + line[..n + 1];
      Moves(w, p, op, journal + line[..n + 1], recovered, Writing(r, n), Writing(r, n + 1));
      var next := At(w, p, op, journal + line[..n + 1], recovered, Writing(r, n + 1));
      assert Step(cfg, now, Write(p)) == Some(next);
      OneMoreStep(cfg, w, acts, now, Write(p), next);
      more := Writes(cfg, w, p, op, journal, recovered, r, n + 1, end, acts + [Write(p)]);
    }
  }

  /** Once its line is written, an append is synced, projected and acknowledged, and lets go of the lock. */
  lemma {:induction false} Acknowledges<P(!new)>(
      cfg: Config<P>, w: World<P>, p: Pid, op: Op, journal: seq<Byte>, recovered: set<seq<Byte>>, r: Record<P>,
      acts: seq<Act<P>>)
    returns (more: seq<Act<P>>)
    requires Run(cfg, w, acts) == Some(At(w, p, op, journal, recovered, Writing(r, |Line(cfg.codec, r)|)))
    ensures Run(cfg, w, more)
         == Some(World(journal, recovered, None, w.procs[p := Proc(op, Finished(Acked(r)))]))
  {
    hide Line, Run;
    var now := At(w, p, op, journal, recovered, Writing(r, |Line(cfg.codec, r)|));
    var synced := At(w, p, op, journal, recovered, Synced(r));
    Moves(w, p, op, journal, recovered, now.procs[p].pc, Synced(r));
    assert Step(cfg, now, Sync(p)) == Some(synced);
    OneMoreStep(cfg, w, acts, now, Sync(p), synced);
    more := acts + [Sync(p)];
    var leaving := At(w, p, op, journal, recovered, Releasing(Acked(r)));
    Moves(w, p, op, journal, recovered, Synced(r), Releasing(Acked(r)));
    assert Step(cfg, synced, Project(p)) == Some(leaving);
    OneMoreStep(cfg, w, more, synced, Project(p), leaving);
    more := more + [Project(p)];
    more := Leaves(cfg, w, p, op, journal, recovered, Acked(r), more);
  }

  lemma {:induction false} Leaves<P(!new)>(
      cfg: Config<P>, w: World<P>, p: Pid, op: Op, journal: seq<Byte>, recovered: set<seq<Byte>>, v: Verdict<P>,
      acts: seq<Act<P>>)
    returns (more: seq<Act<P>>)
    requires Run(cfg, w, acts) == Some(At(w, p, op, journal, recovered, Releasing(v)))
    ensures Run(cfg, w, more) == Some(World(journal, recovered, None, w.procs[p := Proc(op, Finished(v))]))
  {
    hide Run;
    var leaving := At(w, p, op, journal, recovered, Releasing(v));
    var out := World(journal, recovered, None, w.procs[p := Proc(op, Finished(v))]);
    assert w.procs[p := Proc(op, Releasing(v))][p := Proc(op, Finished(v))] == out.procs;
    assert Step(cfg, leaving, Release(p)) == Some(out);
    OneMoreStep(cfg, w, acts, leaving, Release(p), out);
    more := acts + [Release(p)];
  }

  /** An append that has the journal to itself repairs what it found, and begins its record. */
  lemma {:induction false} LoneAppendBegins<P(!new)>(
      cfg: Config<P>, w: World<P>, rs: seq<Record<P>>, tail: seq<Byte>, p: Pid, op: Op, r: Record<P>, end: nat)
    returns (acts: seq<Act<P>>)
    requires Faithful(cfg.codec) && FileHolds(cfg, w.journal, rs, tail)
    requires w.lock.None? && p !in w.procs && MayPropose(cfg, rs, op, r) && end <= |Line(cfg.codec, r)|
    ensures Run(cfg, w, acts)
         == Some(At(w, p, op, Encoded(cfg.codec, rs) + Line(cfg.codec, r)[..end], WithTail(w.recovered, tail),
                    Writing(r, end)))
  {
    hide Run, Faithful, FileHolds, WithTail;
    assert op.Append?;
    acts := Enters(cfg, w, p, op);
    acts := Repairs(cfg, w, p, op, rs, tail, acts);
    var journal, recovered := Encoded(cfg.codec, rs), WithTail(w.recovered, tail);
    hide Encoded, Line;
    Moves(w, p, op, journal, recovered, Clean(rs), Writing(r, 0));
    var clean, writing := At(w, p, op, journal, recovered, Clean(rs)), At(w, p, op, journal, recovered, Writing(r, 0));
    assert Step(cfg, clean, Propose(p, r)) == Some(writing) by { hide MayPropose; }
    OneMoreStep(cfg, w, acts, clean, Propose(p, r), writing);
    acts := acts + [Propose(p, r)];
    assert journal + Line(cfg.codec, r)[..0] == journal;
    acts := Writes(cfg, w, p, op, journal, recovered, r, 0, end, acts);
  }

  /** An append that has the journal to itself commits its record, and repairs what it found. */
  lemma {:induction false} LoneAppendCommits<P(!new)>(
      cfg: Config<P>, w: World<P>, rs: seq<Record<P>>, tail: seq<Byte>, p: Pid, op: Op, r: Record<P>)
    returns (acts: seq<Act<P>>)
    requires Faithful(cfg.codec) && FileHolds(cfg, w.journal, rs, tail)
    requires w.lock.None? && p !in w.procs && MayPropose(cfg, rs, op, r)
    ensures Run(cfg, w, acts)
         == Some(World(Encoded(cfg.codec, rs + [r]), WithTail(w.recovered, tail), None,
                       w.procs[p := Proc(op, Finished(Acked(r)))]))
  {
    var line := Line(cfg.codec, r);
    assert (rs + [r])[..|rs|] == rs;
    assert Encoded(cfg.codec, rs + [r]) == Encoded(cfg.codec, rs) + line;
    hide *;
    acts := LoneAppendBegins(cfg, w, rs, tail, p, op, r, |line|);
    assert line[..|line|] == line;
    acts := Acknowledges(cfg, w, p, op, Encoded(cfg.codec, rs) + line, WithTail(w.recovered, tail), r, acts);
  }

  /** Its write may fail at any byte, and its projection after the last: it is uncertain, and lets go of the lock. */
  lemma {:induction false} LoneAppendFails<P(!new)>(
      cfg: Config<P>, w: World<P>, rs: seq<Record<P>>, tail: seq<Byte>, p: Pid, op: Op, r: Record<P>, end: nat,
      projecting: bool)
    returns (acts: seq<Act<P>>)
    requires Faithful(cfg.codec) && FileHolds(cfg, w.journal, rs, tail)
    requires w.lock.None? && p !in w.procs && MayPropose(cfg, rs, op, r)
    requires end <= |Line(cfg.codec, r)| && (projecting ==> end == |Line(cfg.codec, r)|)
    ensures Run(cfg, w, acts)
         == Some(World(Encoded(cfg.codec, rs) + Line(cfg.codec, r)[..end], WithTail(w.recovered, tail), None,
                       w.procs[p := Proc(op, Finished(Uncertain(r)))]))
  {
    hide Run, Faithful, FileHolds, WithTail, Encoded, Line, MayPropose;
    acts := LoneAppendBegins(cfg, w, rs, tail, p, op, r, end);
    var journal, recovered := Encoded(cfg.codec, rs) + Line(cfg.codec, r)[..end], WithTail(w.recovered, tail);
    var pc := Writing(r, end);
    if projecting {
      var now := At(w, p, op, journal, recovered, pc);
      pc := Synced(r);
      Moves(w, p, op, journal, recovered, Writing(r, end), pc);
      assert Step(cfg, now, Sync(p)) == Some(At(w, p, op, journal, recovered, pc));
      OneMoreStep(cfg, w, acts, now, Sync(p), At(w, p, op, journal, recovered, pc));
      acts := acts + [Sync(p)];
    }
    var failing := if projecting then ProjectFails(p) else WriteFails(p);
    var now, leaving := At(w, p, op, journal, recovered, pc), At(w, p, op, journal, recovered, Releasing(Uncertain(r)));
    Moves(w, p, op, journal, recovered, pc, Releasing(Uncertain(r)));
    assert Step(cfg, now, failing) == Some(leaving);
    OneMoreStep(cfg, w, acts, now, failing, leaving);
    acts := Leaves(cfg, w, p, op, journal, recovered, Uncertain(r), acts + [failing]);
  }

  /** An append may be rejected, and reports a duplicate when its id is committed: the records stay as they are. */
  lemma {:induction false} LoneAppendEnds<P(!new)>(
      cfg: Config<P>, w: World<P>, rs: seq<Record<P>>, tail: seq<Byte>, p: Pid, op: Op, verdict: Verdict<P>)
    returns (acts: seq<Act<P>>)
    requires Faithful(cfg.codec) && FileHolds(cfg, w.journal, rs, tail)
    requires w.lock.None? && p !in w.procs && op.Append?
    requires verdict.Rejected? || (verdict.Duplicate? && op.eventId in EventIds(rs))
    ensures Run(cfg, w, acts)
         == Some(World(Encoded(cfg.codec, rs), WithTail(w.recovered, tail), None,
                       w.procs[p := Proc(op, Finished(verdict))]))
  {
    hide Run, Faithful, FileHolds, WithTail, Encoded, EventIds;
    acts := Enters(cfg, w, p, op);
    acts := Repairs(cfg, w, p, op, rs, tail, acts);
    var journal, recovered := Encoded(cfg.codec, rs), WithTail(w.recovered, tail);
    var ending := if verdict.Rejected? then Refuse(p) else ReportDuplicate(p);
    Moves(w, p, op, journal, recovered, Clean(rs), Releasing(verdict));
    var clean, leaving := At(w, p, op, journal, recovered, Clean(rs)),
                          At(w, p, op, journal, recovered, Releasing(verdict));
    assert Step(cfg, clean, ending) == Some(leaving);
    OneMoreStep(cfg, w, acts, clean, ending, leaving);
    acts := Leaves(cfg, w, p, op, journal, recovered, verdict, acts + [ending]);
  }

  /** A process that finds the lock taken may give up, and changes nothing. */
  lemma {:induction false} WaitsInVain<P(!new)>(cfg: Config<P>, w: World<P>, p: Pid, op: Op) returns (acts: seq<Act<P>>)
    requires w.lock.Some? && p !in w.procs
    ensures Run(cfg, w, acts) == Some(w.(procs := w.procs[p := Proc(op, Finished(TimedOut))]))
  {
    var waiting := w.(procs := w.procs[p := Proc(op, Idle)]);
    var out := w.(procs := w.procs[p := Proc(op, Finished(TimedOut))]);
    assert Step(cfg, w, Spawn(p, op)) == Some(waiting);
    assert Run(cfg, w, []) == Some(w);
    OneMoreStep(cfg, w, [], w, Spawn(p, op), waiting);
    assert waiting.procs[p := Proc(op, Finished(TimedOut))] == out.procs;
    assert Step(cfg, waiting, Timeout(p)) == Some(out);
    OneMoreStep(cfg, w, [] + [Spawn(p, op)], waiting, Timeout(p), out);
    acts := [] + [Spawn(p, op)] + [Timeout(p)];
  }

  /** A reader that has the journal to itself repairs it if it may, and is refused exactly when it may not but must. */
  lemma {:induction false} LoneReadEnds<P(!new)>(
      cfg: Config<P>, w: World<P>, rs: seq<Record<P>>, tail: seq<Byte>, p: Pid, repair: bool)
    returns (acts: seq<Act<P>>)
    requires Faithful(cfg.codec) && FileHolds(cfg, w.journal, rs, tail) && w.lock.None? && p !in w.procs
    ensures var refused := !repair && tail != [];
      var verdict := if refused then ScanRefused else ReadDone;
      Run(cfg, w, acts)
        == Some(World(if refused then w.journal else Encoded(cfg.codec, rs),
                      if refused then w.recovered else WithTail(w.recovered, tail), None,
                      w.procs[p := Proc(Read(repair), Finished(verdict))]))
  {
    var op := Read(repair);
    acts := Enters(cfg, w, p, op);
    if !repair {
      acts := PlainScan(cfg, w, p, rs, tail, acts);
    } else {
      hide FileHolds, Encoded, WithTail, Run;
      acts := Repairs(cfg, w, p, op, rs, tail, acts);
      var journal, recovered := Encoded(cfg.codec, rs), WithTail(w.recovered, tail);
      var clean := At(w, p, op, journal, recovered, Clean(rs));
      var leaving := At(w, p, op, journal, recovered, Releasing(ReadDone));
      Moves(w, p, op, journal, recovered, Clean(rs), Releasing(ReadDone));
      assert Step(cfg, clean, FinishRead(p)) == Some(leaving);
      OneMoreStep(cfg, w, acts, clean, FinishRead(p), leaving);
      acts := Leaves(cfg, w, p, op, journal, recovered, ReadDone, acts + [FinishRead(p)]);
    }
  }

  lemma {:induction false} PlainScan<P(!new)>(
      cfg: Config<P>, w: World<P>, p: Pid, rs: seq<Record<P>>, tail: seq<Byte>, acts: seq<Act<P>>)
    returns (more: seq<Act<P>>)
    requires Faithful(cfg.codec) && FileHolds(cfg, w.journal, rs, tail)
    requires Run(cfg, w, acts) == Some(At(w, p, Read(false), w.journal, w.recovered, Locked))
    ensures Run(cfg, w, more) == Some(World(w.journal, w.recovered, None,
      w.procs[p := Proc(Read(false), Finished(if tail == [] then ReadDone else ScanRefused))]))
    ensures tail == [] ==> w.journal == Encoded(cfg.codec, rs)
  {
    hide ScanBytes, Encoded, ValidChain, LegalChain, UniqueIds, Faithful, NoBreaks, Run;
    var op, now := Read(false), At(w, p, Read(false), w.journal, w.recovered, Locked);
    ScanOfCommitted(cfg.codec, rs, tail, false);
    if tail == [] {
      var clean := At(w, p, op, w.journal, w.recovered, Clean(rs));
      Moves(w, p, op, w.journal, w.recovered, Locked, Clean(rs));
      assert Step(cfg, now, Scan(p)) == Some(clean);
      OneMoreStep(cfg, w, acts, now, Scan(p), clean);
      var leaving := At(w, p, op, w.journal, w.recovered, Releasing(ReadDone));
      Moves(w, p, op, w.journal, w.recovered, Clean(rs), Releasing(ReadDone));
      assert Step(cfg, clean, FinishRead(p)) == Some(leaving);
      OneMoreStep(cfg, w, acts + [Scan(p)], clean, FinishRead(p), leaving);
      more := Leaves(cfg, w, p, op, w.journal, w.recovered, ReadDone, acts + [Scan(p)] + [FinishRead(p)]);
    } else {
      var leaving := At(w, p, op, w.journal, w.recovered, Releasing(ScanRefused));
      Moves(w, p, op, w.journal, w.recovered, Locked, Releasing(ScanRefused));
      assert Step(cfg, now, Scan(p)) == Some(leaving);
      OneMoreStep(cfg, w, acts, now, Scan(p), leaving);
      more := Leaves(cfg, w, p, op, w.journal, w.recovered, ScanRefused, acts + [Scan(p)]);
    }
  }

  // ---------------------------------------------------------------- after any run

  /** However the lock is held, the death of its owner lets it be recovered, and the file stays as it is. */
  lemma {:induction false} LockComesFree<P(!new)>(
      cfg: Config<P>, w: World<P>, rs: seq<Record<P>>, tail: seq<Byte>)
    returns (acts: seq<Act<P>>, w': World<P>)
    requires Inv(cfg, w, rs, tail)
    ensures Run(cfg, w, acts) == Some(w') && w'.lock.None? && w'.journal == w.journal
    ensures w'.recovered == w.recovered && w'.procs.Keys == w.procs.Keys
  {
    assert LockHeld(w);
    hide FileHolds, Owners, Authored, Knows, Begun;
    assert Run(cfg, w, []) == Some(w);
    if w.lock.None? {
      acts, w' := [], w;
    } else {
      var p := w.lock.value;
      var dead := w;
      acts := [];
      if !w.procs[p].pc.Dead? {
        assert Inside(w.procs[p].pc);
        dead := Goto(w, p, Dead(Begun(w.procs[p].pc)));
        assert Step(cfg, w, Kill(p)) == Some(dead);
        OneMoreStep(cfg, w, [], w, Kill(p), dead);
        acts := [] + [Kill(p)];
      }
      w' := dead.(lock := None);
      assert Step(cfg, dead, Recover) == Some(w');
      OneMoreStep(cfg, w, acts, dead, Recover, w');
      acts := acts + [Recover];
    }
  }

  lemma {:induction false} RunsConcat<P(!new)>(
      cfg: Config<P>, w: World<P>, acts: seq<Act<P>>, mid: World<P>, more: seq<Act<P>>, w': World<P>)
    requires Run(cfg, w, acts) == Some(mid) && Run(cfg, mid, more) == Some(w')
    ensures Run(cfg, w, acts + more) == Some(w')
  {
    if more == [] {
      assert acts + more == acts;
    } else {
      var front, last := more[..|more| - 1], more[|more| - 1];
      var before := RunLast(cfg, mid, more, w');
      RunsConcat(cfg, w, acts, mid, front, before);
      OneMoreStep(cfg, w, acts + front, before, last, w');
      assert acts + more == acts + front + [last];
    }
  }

  /** The run ends with this record committed and acknowledged, nothing else in the file, and the lock free. */
  ghost predicate RunsToCommit<P>(
    cfg: Config<P>, w: World<P>, acts: seq<Act<P>>, w': World<P>, p: Pid, rs: seq<Record<P>>, r: Record<P>)
  {
    && Run(cfg, w, acts) == Some(w') && w'.journal == Encoded(cfg.codec, rs + [r]) && w'.lock.None?
    && p in w'.procs && w'.procs[p].pc == Finished(Acked(r))
  }

  /**
   * Whatever has happened, with crashes anywhere, a new append of a record that may follow the committed ones can
   * still be run until it is acknowledged, and the file is then exactly those records and this one.
   */
  lemma {:induction false} AppendsStayPossible<P(!new)>(
      cfg: Config<P>, before: seq<Act<P>>, w: World<P>, p: Pid, op: Op)
    returns (rs: seq<Record<P>>, tail: seq<Byte>)
    requires Faithful(cfg.codec) && Run(cfg, Start(), before) == Some(w) && p !in w.procs
    ensures ScanBytes(cfg.codec, w.journal, true) == TornScan(rs, |Encoded(cfg.codec, rs)|, tail, true)
    ensures forall r | MayPropose(cfg, rs, op, r) :: exists acts, w' :: RunsToCommit(cfg, w, acts, w', p, rs, r)
  {
    hide Run, ScanBytes, Encoded, TornScan, MayPropose;
    rs, tail := EveryRunScans(cfg, before, w);
    assert FileHolds(cfg, w.journal, rs, tail);
    var free, mid := LockComesFree(cfg, w, rs, tail);
    hide Inv, FileHolds, Faithful;
    forall r | MayPropose(cfg, rs, op, r)
      ensures exists acts, w' :: RunsToCommit(cfg, w, acts, w', p, rs, r)
    {
      var acts := LoneAppendCommits(cfg, mid, rs, tail, p, op, r);
      var w' := Run(cfg, mid, acts).value;
      RunsConcat(cfg, w, free, mid, acts, w');
      assert RunsToCommit(cfg, w, free + acts, w', p, rs, r);
    }
  }

  // ---------------------------------------------------------------- verdicts are true

  /** What a process may report, given the records committed by now. */
  predicate TrueVerdict<P>(op: Op, v: Verdict<P>, rs: seq<Record<P>>) {
    match v
    case Duplicate => op.Append? && op.eventId in EventIds(rs)
    case Rejected => op.Append?
    case ReadDone => op.Read?
    case ScanRefused => op == Read(false)
    case _ => true
  }

  /** The verdict a process has reached, whether or not it has let go of the lock. */
  function Reached<P>(pc: Pc<P>): Option<Verdict<P>> {
    match pc
    case Releasing(v) => Some(v)
    case Finished(v) => Some(v)
    case _ => None
  }

  ghost predicate Truthful<P>(w: World<P>, rs: seq<Record<P>>) {
    forall p | p in w.procs && Reached(w.procs[p].pc).Some? ::
      TrueVerdict(w.procs[p].op, Reached(w.procs[p].pc).value, rs)
  }

  lemma {:induction false} VerdictsStay<P>(op: Op, v: Verdict<P>, rs: seq<Record<P>>, rs': seq<Record<P>>)
    requires TrueVerdict(op, v, rs) && rs <= rs'
    ensures TrueVerdict(op, v, rs')
  {
    forall id | id in EventIds(rs) ensures id in EventIds(rs') {
      var i :| 0 <= i < |rs| && rs[i].eventId == id;
      assert rs'[i] == rs[i];
    }
  }

  /** A verdict is reached from what the process knows of the committed records. */
  lemma {:induction false} ReachesTruth<P(!new)>(
      cfg: Config<P>, w: World<P>, act: Act<P>, w': World<P>, rs: seq<Record<P>>, tail: seq<Byte>, p: Pid)
    requires Faithful(cfg.codec) && Inv(cfg, w, rs, tail) && Step(cfg, w, act) == Some(w')
    requires p in w'.procs && Reached(w'.procs[p].pc).Some?
    requires p in w.procs && Reached(w.procs[p].pc).None?
    ensures TrueVerdict(w'.procs[p].op, Reached(w'.procs[p].pc).value, rs)
  {
    assert FileHolds(cfg, w.journal, rs, tail) && Knows(cfg, w, rs, tail, w.procs[p].pc);
    if act.Spawn? || act.Recover? || act.p != p {
      hide Inv, Step;
      OthersStay(cfg, w, act, w', p);
    } else {
      var op, pc := w.procs[p].op, w.procs[p].pc;
      assert StepProcess(cfg, w, act, p, op, pc) == Some(w');
      if act.Scan? { ScanOfCommitted(cfg.codec, rs, tail, op.Append? || op.repair); }
      hide Inv, FileHolds, ScanBytes, Encoded, MayPropose, Line, EventIds, Step, Faithful;
    }
  }

  lemma {:induction false} KeepsVerdict<P(!new)>(
      cfg: Config<P>, w: World<P>, act: Act<P>, w': World<P>, p: Pid)
    requires Step(cfg, w, act) == Some(w') && p in w.procs && Reached(w.procs[p].pc).Some?
    requires act.Release? && act.p == p ==> w.lock == Some(p)
    requires p in w'.procs && Reached(w'.procs[p].pc).Some?
    ensures Reached(w'.procs[p].pc) == Reached(w.procs[p].pc) && w'.procs[p].op == w.procs[p].op
  {
    hide ScanBytes, Extends, EventIds, Head, MayPropose, Line;
    if act.Spawn? || act.Recover? || act.p != p {
      OthersStay(cfg, w, act, w', p);
    } else {
      var op, pc := w.procs[p].op, w.procs[p].pc;
      assert StepProcess(cfg, w, act, p, op, pc) == Some(w');
      hide Step;
    }
  }

  /**
   * Over any run: a duplicate is reported only of an event that is committed, and stays committed; only a plain
   * reader is ever refused by the scan.
   */
  lemma {:induction false} VerdictsAreTrue<P(!new)>(cfg: Config<P>, acts: seq<Act<P>>, w: World<P>)
    returns (rs: seq<Record<P>>, tail: seq<Byte>)
    requires Faithful(cfg.codec) && Run(cfg, Start(), acts) == Some(w)
    ensures Inv(cfg, w, rs, tail) && Truthful(w, rs)
  {
    if acts == [] {
      StartKeepsInv(cfg);
      rs, tail := [], [];
    } else {
      hide Inv, Run, Step, CommitsBy, Faithful, TrueVerdict, Reached;
      var u := RunLast(cfg, Start(), acts, w);
      var act := acts[|acts| - 1];
      var rs0, tail0 := VerdictsAreTrue(cfg, acts[..|acts| - 1], u);
      rs, tail := StepKeepsInv(cfg, u, act, w, rs0, tail0);
      SpawnsOnly(cfg, u, act, w);
      ReleaserHoldsLock(cfg, u, act, w, rs0, tail0);
      forall p | p in w.procs && Reached(w.procs[p].pc).Some?
        ensures TrueVerdict(w.procs[p].op, Reached(w.procs[p].pc).value, rs)
      {
        NotNew(u, w, p);
        if Reached(u.procs[p].pc).Some? {
          KeepsVerdict(cfg, u, act, w, p);
          VerdictsStay(u.procs[p].op, Reached(u.procs[p].pc).value, rs0, rs);
        } else {
          ReachesTruth(cfg, u, act, w, rs0, tail0, p);
          VerdictsStay(w.procs[p].op, Reached(w.procs[p].pc).value, rs0, rs);
        }
      }
    }
  }

  lemma {:induction false} NotNew<P(!new)>(u: World<P>, w: World<P>, p: Pid)
    requires forall p | p in w.procs && p !in u.procs :: w.procs[p].pc == Idle
    requires p in w.procs && Reached(w.procs[p].pc).Some?
    ensures p in u.procs
  {
  }
}
