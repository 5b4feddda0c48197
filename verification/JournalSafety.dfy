/** What every interleaving of appenders and readers, with crashes anywhere, keeps true of the journal. */
module JournalSafety {
  import opened Common
  import opened JournalRecord
  import opened Journal
  import opened JournalRuns

  // ---------------------------------------------------------------- steps that leave the file alone

  /** A step that keeps the file and the lock, and does not let the process in. */
  ghost predicate QuietMove<P>(cfg: Config<P>, w: World<P>, w': World<P>, p: Pid, pc': Pc<P>) {
    && p in w.procs && w'.procs == w.procs[p := w.procs[p].(pc := pc')]
    && w'.journal == w.journal && w'.lock == w.lock && w.recovered <= w'.recovered
    && var pc := w.procs[p].pc;
    && (Inside(pc') ==> Inside(pc)) && (Inside(pc) ==> Inside(pc') || pc'.Dead?) && (pc.Dead? ==> pc'.Dead?)
    && (Begun(pc).Some? ==> Begun(pc') == Begun(pc))
    && (Owned(cfg.codec, pc').Some? ==> Owned(cfg.codec, pc') == Owned(cfg.codec, pc))
  }

  lemma {:induction false} KnowsMonotone<P>(
    cfg: Config<P>, w: World<P>, w': World<P>, rs: seq<Record<P>>, tail: seq<Byte>, pc: Pc<P>)
    requires Knows(cfg, w, rs, tail, pc) && w.recovered <= w'.recovered
    ensures Knows(cfg, w', rs, tail, pc)
  {
    hide Encoded, Line, Extends;
  }

  lemma {:induction false} OutsideKnows<P>(cfg: Config<P>, w: World<P>, rs: seq<Record<P>>, tail: seq<Byte>, pc: Pc<P>)
    requires !Inside(pc)
    ensures Knows(cfg, w, rs, tail, pc)
  {
  }

  lemma {:induction false} AuthorsKept<P>(w: World<P>, w': World<P>, rs: seq<Record<P>>)
    requires Authored(w, rs) && w.procs.Keys <= w'.procs.Keys
    requires forall p | p in w.procs && Begun(w.procs[p].pc).Some? :: Begun(w'.procs[p].pc) == Begun(w.procs[p].pc)
    ensures Authored(w', rs)
  {
    forall i | 0 <= i < |rs| ensures HasAuthor(w', rs[i]) {
      assert HasAuthor(w, rs[i]);
      var p :| p in w.procs && Begun(w.procs[p].pc) == Some(rs[i]);
      assert Begun(w'.procs[p].pc) == Some(rs[i]);
    }
  }

  lemma {:induction false} OwnersKept<P>(cfg: Config<P>, w: World<P>, w': World<P>, rs: seq<Record<P>>)
    requires Owners(cfg, w, rs)
    requires forall q | q in w'.procs && Owned(cfg.codec, w'.procs[q].pc).Some? ::
               q in w.procs && Owned(cfg.codec, w.procs[q].pc) == Owned(cfg.codec, w'.procs[q].pc)
    ensures Owners(cfg, w', rs)
  {
    hide Owned;
  }

  lemma {:induction false} QuietKeepsLock<P>(cfg: Config<P>, w: World<P>, w': World<P>, p: Pid, pc': Pc<P>)
    requires LockHeld(w) && QuietMove(cfg, w, w', p, pc')
    ensures LockHeld(w')
  {
    hide Inside, Owned, Begun;
  }

  lemma {:induction false} QuietKeepsInv<P>(
    cfg: Config<P>, w: World<P>, w': World<P>, rs: seq<Record<P>>, tail: seq<Byte>, p: Pid, pc': Pc<P>)
    requires Inv(cfg, w, rs, tail) && QuietMove(cfg, w, w', p, pc') && Knows(cfg, w', rs, tail, pc')
    ensures Inv(cfg, w', rs, tail)
  {
    QuietKeepsLock(cfg, w, w', p, pc');
    hide Knows, FileHolds, LockHeld, Begun, Owned, Authored, Owners, Inside;
    AuthorsKept(w, w', rs);
    OwnersKept(cfg, w, w', rs);
    forall q | q in w'.procs ensures Knows(cfg, w', rs, tail, w'.procs[q].pc) {
      if q != p { KnowsMonotone(cfg, w, w', rs, tail, w.procs[q].pc); }
    }
  }

  // ---------------------------------------------------------------- steps that change the file

  lemma {:induction false} OthersOutside<P>(w: World<P>, p: Pid)
    requires LockHeld(w) && p in w.procs && Inside(w.procs[p].pc)
    ensures w.lock == Some(p)
    ensures forall q | q in w.procs && q != p :: !Inside(w.procs[q].pc)
  {
    hide Inside;
  }

  /** The lock holder changes the file and moves on, still inside; everybody else is outside. */
  lemma {:induction false} HolderKeepsInv<P>(
    cfg: Config<P>, w: World<P>, w': World<P>, rs: seq<Record<P>>, tail: seq<Byte>, p: Pid, pc': Pc<P>,
    rs': seq<Record<P>>, tail': seq<Byte>)
    requires Inv(cfg, w, rs, tail) && p in w.procs && Inside(w.procs[p].pc) && Inside(pc')
    requires w'.procs == w.procs[p := w.procs[p].(pc := pc')] && w'.lock == w.lock && w'.recovered == w.recovered
    requires FileHolds(cfg, w'.journal, rs', tail') && Knows(cfg, w', rs', tail', pc')
    requires Owners(cfg, w', rs') && Authored(w', rs')
    ensures Inv(cfg, w', rs', tail')
  {
    hide FileHolds, Begun, Owned, Authored, Owners;
    OthersOutside(w, p);
    assert LockHeld(w') by { hide Knows, Inside; }
    forall q | q in w'.procs ensures Knows(cfg, w', rs', tail', w'.procs[q].pc) {
      if q != p { OutsideKnows(cfg, w', rs', tail', w.procs[q].pc); }
    }
  }

  lemma {:induction false} TruncateKeepsInv<P>(
    cfg: Config<P>, w: World<P>, w': World<P>, rs: seq<Record<P>>, tail: seq<Byte>, p: Pid)
    requires Inv(cfg, w, rs, tail) && p in w.procs && w.procs[p].pc.Saved?
    requires w.procs[p].pc.kept <= |w.journal|
    requires w' == Goto(w.(journal := w.journal[..w.procs[p].pc.kept]), p, Clean(w.procs[p].pc.rs))
    ensures Inv(cfg, w', rs, []) && tail in w'.recovered && w.journal == w'.journal + tail
  {
    var pc := w.procs[p].pc;
    assert Knows(cfg, w, rs, tail, pc);
    assert w'.journal == Encoded(cfg.codec, rs) && Encoded(cfg.codec, rs) + [] == Encoded(cfg.codec, rs);
    assert FileHolds(cfg, w'.journal, rs, []);
    assert Inside(pc) && Inside<P>(Clean(pc.rs)) && Knows(cfg, w', rs, [], Clean(pc.rs));
    assert Owned(cfg.codec, Clean(pc.rs)) == None && Begun(pc) == None;
    hide FileHolds, Begun, Owned, Authored, Owners, Inside, LockHeld, Encoded, Knows;
    OwnersKept(cfg, w, w', rs);
    AuthorsKept(w, w', rs);
    HolderKeepsInv(cfg, w, w', rs, tail, p, Clean(pc.rs), rs, []);
  }

  lemma {:induction false} LineBytes<P(!new)>(c: Codec<P>, rs: seq<Record<P>>, r: Record<P>, n: nat)
    requires Faithful(c) && n < |Line(c, r)|
    ensures n + 1 < |Line(c, r)| ==> NoBreaks(Line(c, r)[..n + 1])
    ensures Line(c, r)[..n] + [Line(c, r)[n]] == Line(c, r)[..n + 1]
    ensures n + 1 == |Line(c, r)| ==> Encoded(c, rs) + Line(c, r)[..n + 1] == Encoded(c, rs + [r])
  {
    assert NoBreaks(c.encode(r));
    var line := Line(c, r);
    if n + 1 < |line| {
      assert line[..n + 1] == c.encode(r)[..n + 1];
      assert forall b | b in c.encode(r)[..n + 1] :: b in c.encode(r);
    } else {
      assert (rs + [r])[..|rs|] == rs && line[..n + 1] == line;
    }
  }

  lemma {:induction false} CommitHolds<P(!new)>(cfg: Config<P>, rs: seq<Record<P>>, r: Record<P>)
    requires ValidChain(cfg.codec, rs) && UniqueIds(rs) && LegalChain(cfg.legal, rs)
    requires Extends(cfg.codec, rs, r) && r.eventId !in EventIds(rs) && cfg.legal(rs, r)
    ensures ValidChain(cfg.codec, rs + [r]) && UniqueIds(rs + [r]) && LegalChain(cfg.legal, rs + [r])
  {
    assert (rs + [r])[..|rs|] == rs;
    ChainExtends(cfg.codec, rs, r);
    forall i | 0 <= i < |rs| ensures rs[i].eventId != r.eventId { assert rs[i].eventId in EventIds(rs); }
  }

  /** The byte that completes a line turns the record in flight into a committed one. */
  lemma {:induction false} LastByteKeepsInv<P(!new)>(
    cfg: Config<P>, w: World<P>, w': World<P>, rs: seq<Record<P>>, tail: seq<Byte>, p: Pid, r: Record<P>, n: nat)
    requires Faithful(cfg.codec) && Inv(cfg, w, rs, tail) && p in w.procs && w.procs[p].pc == Writing(r, n)
    requires n + 1 == |Line(cfg.codec, r)|
    requires w' == Goto(w.(journal := w.journal + [Line(cfg.codec, r)[n]]), p, Writing(r, n + 1))
    ensures Inv(cfg, w', rs + [r], [])
  {
    assert Knows(cfg, w, rs, tail, w.procs[p].pc);
    LineBytes(cfg.codec, rs, r, n);
    CommitHolds(cfg, rs, r);
    assert w'.journal == Encoded(cfg.codec, rs + [r]) + [];
    assert Knows(cfg, w', rs + [r], [], Writing(r, n + 1)) && Inside(w.procs[p].pc) && Inside(Writing(r, n + 1));
    assert FileHolds(cfg, w'.journal, rs + [r], []);
    CommitOwners(cfg, w, w', rs, p, r, n);
    CommitAuthored(w, w', rs, p, r, n);
    hide FileHolds, Begun, Owned, Authored, Owners, Inside, LockHeld, Encoded, Knows, Line;
    HolderKeepsInv(cfg, w, w', rs, tail, p, Writing(r, n + 1), rs + [r], []);
  }

  lemma {:induction false} CommitOwners<P>(
    cfg: Config<P>, w: World<P>, w': World<P>, rs: seq<Record<P>>, p: Pid, r: Record<P>, n: nat)
    requires Owners(cfg, w, rs) && p in w.procs && r.eventId !in EventIds(rs) && n + 1 == |Line(cfg.codec, r)|
    requires w'.procs == w.procs[p := w.procs[p].(pc := Writing(r, n + 1))]
    ensures Owners(cfg, w', rs + [r])
  {
    assert Owned(cfg.codec, Writing(r, n + 1)) == Some(r);
    hide Owned, Line;
    assert (rs + [r])[|rs|] == r;
    forall q | q in w'.procs && Owned(cfg.codec, w'.procs[q].pc).Some?
      ensures exists i :: 0 <= i < |rs + [r]| && (rs + [r])[i] == Owned(cfg.codec, w'.procs[q].pc).value
      ensures q != p ==> Owned(cfg.codec, w'.procs[q].pc).value != r
    {
      if q != p {
        var i :| 0 <= i < |rs| && rs[i] == Owned(cfg.codec, w.procs[q].pc).value;
        assert (rs + [r])[i] == rs[i] && rs[i].eventId in EventIds(rs);
      }
    }
  }

  lemma {:induction false} CommitAuthored<P>(
      w: World<P>, w': World<P>, rs: seq<Record<P>>, p: Pid, r: Record<P>, n: nat)
    requires Authored(w, rs) && p in w.procs && w.procs[p].pc == Writing(r, n)
    requires w'.procs == w.procs[p := w.procs[p].(pc := Writing(r, n + 1))]
    ensures Authored(w', rs + [r])
  {
    AuthorsKept(w, w', rs);
    assert Begun(w'.procs[p].pc) == Some(r);
    forall i | 0 <= i < |rs + [r]| ensures HasAuthor(w', (rs + [r])[i]) {
      if i < |rs| { assert (rs + [r])[i] == rs[i] && HasAuthor(w', rs[i]); }
    }
  }

  lemma {:induction false} OtherByteKeepsInv<P(!new)>(
    cfg: Config<P>, w: World<P>, w': World<P>, rs: seq<Record<P>>, tail: seq<Byte>, p: Pid, r: Record<P>, n: nat)
    requires Faithful(cfg.codec) && Inv(cfg, w, rs, tail) && p in w.procs && w.procs[p].pc == Writing(r, n)
    requires n + 1 < |Line(cfg.codec, r)|
    requires w' == Goto(w.(journal := w.journal + [Line(cfg.codec, r)[n]]), p, Writing(r, n + 1))
    ensures Inv(cfg, w', rs, Line(cfg.codec, r)[..n + 1])
  {
    assert Knows(cfg, w, rs, tail, w.procs[p].pc);
    LineBytes(cfg.codec, rs, r, n);
    var tail' := Line(cfg.codec, r)[..n + 1];
    assert w'.journal == Encoded(cfg.codec, rs) + tail';
    assert Knows(cfg, w', rs, tail', Writing(r, n + 1)) && Inside(w.procs[p].pc) && Inside(Writing(r, n + 1));
    assert FileHolds(cfg, w'.journal, rs, tail');
    assert Owned(cfg.codec, Writing(r, n + 1)) == None && Begun(w.procs[p].pc) == Begun(Writing(r, n + 1));
    hide FileHolds, Begun, Owned, Authored, Owners, Inside, LockHeld, Encoded, Knows, Line;
    OwnersKept(cfg, w, w', rs);
    AuthorsKept(w, w', rs);
    HolderKeepsInv(cfg, w, w', rs, tail, p, Writing(r, n + 1), rs, tail');
  }

  // ---------------------------------------------------------------- the remaining steps

  lemma {:induction false} SpawnKeepsInv<P>(
    cfg: Config<P>, w: World<P>, rs: seq<Record<P>>, tail: seq<Byte>, p: Pid, op: Op)
    requires Inv(cfg, w, rs, tail) && p !in w.procs
    ensures Inv(cfg, w.(procs := w.procs[p := Proc(op, Idle)]), rs, tail)
  {
    var w' := w.(procs := w.procs[p := Proc(op, Idle)]);
    assert !Inside<P>(Idle) && Owned(cfg.codec, Idle) == None;
    assert LockHeld(w') by { hide Knows; }
    hide FileHolds, LockHeld, Begun, Owned, Authored, Owners, Inside;
    OwnersKept(cfg, w, w', rs);
    AuthorsKept(w, w', rs);
    forall q | q in w'.procs ensures Knows(cfg, w', rs, tail, w'.procs[q].pc) {
      if q != p { KnowsMonotone(cfg, w, w', rs, tail, w.procs[q].pc); } else { OutsideKnows(cfg, w', rs, tail, Idle); }
    }
  }

  lemma {:induction false} RecoverKeepsInv<P>(cfg: Config<P>, w: World<P>, rs: seq<Record<P>>, tail: seq<Byte>)
    requires Inv(cfg, w, rs, tail) && w.lock.Some? && w.lock.value in w.procs && w.procs[w.lock.value].pc.Dead?
    ensures Inv(cfg, w.(lock := None), rs, tail)
  {
    var w' := w.(lock := None);
    assert LockHeld(w');
    hide FileHolds, LockHeld, Begun, Owned, Inside;
    OwnersKept(cfg, w, w', rs);
    AuthorsKept(w, w', rs);
    forall q | q in w'.procs ensures Knows(cfg, w', rs, tail, w'.procs[q].pc) {
      KnowsMonotone(cfg, w, w', rs, tail, w.procs[q].pc);
    }
  }

  /** Taking and releasing the lock move only the lock and one process. */
  lemma {:induction false} LockMoveKeepsInv<P>(
    cfg: Config<P>, w: World<P>, w': World<P>, rs: seq<Record<P>>, tail: seq<Byte>, p: Pid, pc': Pc<P>)
    requires Inv(cfg, w, rs, tail) && p in w.procs && w' == Goto(w.(lock := w'.lock), p, pc')
    requires (w.lock == None && w'.lock == Some(p) && w.procs[p].pc == Idle && pc' == Locked)
          || (w.lock == Some(p) && w'.lock == None && w.procs[p].pc.Releasing?
            && pc' == Finished(w.procs[p].pc.verdict))
    ensures Inv(cfg, w', rs, tail)
  {
    var pc := w.procs[p].pc;
    assert LockHeld(w') by { hide Knows; }
    assert Begun(pc') == Begun(pc) && Owned(cfg.codec, pc') == Owned(cfg.codec, pc);
    assert Knows(cfg, w', rs, tail, pc');
    hide FileHolds, LockHeld, Begun, Owned, Authored, Owners, Inside, Knows;
    OwnersKept(cfg, w, w', rs);
    AuthorsKept(w, w', rs);
    forall q | q in w'.procs ensures Knows(cfg, w', rs, tail, w'.procs[q].pc) {
      if q != p { KnowsMonotone(cfg, w, w', rs, tail, w.procs[q].pc); }
    }
  }

  lemma {:induction false} ScanKeepsInv<P(!new)>(
    cfg: Config<P>, w: World<P>, rs: seq<Record<P>>, tail: seq<Byte>, p: Pid, op: Op, w': World<P>)
    requires Faithful(cfg.codec) && Inv(cfg, w, rs, tail) && p in w.procs && w.procs[p] == Proc(op, Locked)
    requires StepProcess(cfg, w, Scan(p), p, op, Locked) == Some(w')
    ensures Inv(cfg, w', rs, tail)
  {
    var repair := op.Append? || op.repair;
    assert FileHolds(cfg, w.journal, rs, tail);
    ScanOfCommitted(cfg.codec, rs, tail, repair);
    var result := ScanBytes(cfg.codec, w.journal, repair);
    assert result == TornScan(rs, |Encoded(cfg.codec, rs)|, tail, repair);
    hide ScanBytes, Encoded, FileHolds, LockHeld, Authored, Owners;
    var pc' := w'.procs[p].pc;
    assert w' == Goto(w, p, pc') && Knows(cfg, w', rs, tail, pc') && QuietMove(cfg, w, w', p, pc');
    hide Knows, QuietMove;
    QuietKeepsInv(cfg, w, w', rs, tail, p, pc');
  }

  predicate Quiet(act: Act) {
    || act.Timeout? || act.Preserve? || act.Refuse? || act.ReportDuplicate? || act.FinishRead? || act.Propose?
    || act.WriteFails? || act.Sync? || act.Project? || act.ProjectFails? || act.Kill?
  }

  lemma {:induction false} QuietActMoves<P(!new)>(
    cfg: Config<P>, w: World<P>, act: Act<P>, rs: seq<Record<P>>, tail: seq<Byte>, p: Pid, op: Op, pc: Pc<P>,
      w': World<P>)
    requires p in w.procs && w.procs[p] == Proc(op, pc) && Knows(cfg, w, rs, tail, pc) && Quiet(act)
    requires StepProcess(cfg, w, act, p, op, pc) == Some(w')
    ensures p in w'.procs && QuietMove(cfg, w, w', p, w'.procs[p].pc) && Knows(cfg, w', rs, tail, w'.procs[p].pc)
  {
    hide ScanBytes, Encoded, Extends, EventIds, Head;
  }

  lemma {:induction false} QuietActKeepsInv<P(!new)>(
    cfg: Config<P>, w: World<P>, act: Act<P>, rs: seq<Record<P>>, tail: seq<Byte>, p: Pid, w': World<P>)
    requires Inv(cfg, w, rs, tail) && p in w.procs && Quiet(act)
    requires StepProcess(cfg, w, act, p, w.procs[p].op, w.procs[p].pc) == Some(w')
    ensures Inv(cfg, w', rs, tail)
  {
    hide StepProcess, FileHolds, LockHeld, Authored, Owners, Knows;
    QuietActMoves(cfg, w, act, rs, tail, p, w.procs[p].op, w.procs[p].pc, w');
    QuietKeepsInv(cfg, w, w', rs, tail, p, w'.procs[p].pc);
  }

  /** The record whose last byte this step writes, if it is one. */
  ghost predicate CommitsBy<P>(cfg: Config<P>, w: World<P>, act: Act<P>, r: Record<P>) {
    act.Write? && act.p in w.procs && w.procs[act.p].pc == Writing(r, |Line(cfg.codec, r)| - 1)
  }

  /**
   * Every step keeps the invariant; it leaves the committed records alone, or adds exactly the record
   * whose last byte it wrote.
   */
  lemma {:induction false} StepKeepsInv<P(!new)>(
    cfg: Config<P>, w: World<P>, act: Act<P>, w': World<P>, rs: seq<Record<P>>, tail: seq<Byte>)
    returns (rs': seq<Record<P>>, tail': seq<Byte>)
    requires Faithful(cfg.codec) && Inv(cfg, w, rs, tail) && Step(cfg, w, act) == Some(w')
    ensures Inv(cfg, w', rs', tail')
    ensures rs' == rs || (exists r :: CommitsBy(cfg, w, act, r) && rs' == rs + [r])
  {
    rs', tail' := rs, tail;
    if act.Spawn? {
      hide Inv;
      SpawnKeepsInv(cfg, w, rs, tail, act.p, act.op);
    } else if act.Recover? {
      hide Inv;
      RecoverKeepsInv(cfg, w, rs, tail);
    } else if Quiet(act) {
      hide Inv, StepProcess;
      QuietActKeepsInv(cfg, w, act, rs, tail, act.p, w');
    } else if act.Scan? {
      hide Inv;
      ScanKeepsInv(cfg, w, rs, tail, act.p, w.procs[act.p].op, w');
    } else {
      rs', tail' := HolderStepKeepsInv(cfg, w, act, w', rs, tail, act.p);
    }
  }

  lemma {:induction false} HolderStepKeepsInv<P(!new)>(
    cfg: Config<P>, w: World<P>, act: Act<P>, w': World<P>, rs: seq<Record<P>>, tail: seq<Byte>, p: Pid)
    returns (rs': seq<Record<P>>, tail': seq<Byte>)
    requires Faithful(cfg.codec) && Inv(cfg, w, rs, tail) && p in w.procs
    requires act.Acquire? || act.Release? || act.Truncate? || act.Write?
    requires act.p == p && StepProcess(cfg, w, act, p, w.procs[p].op, w.procs[p].pc) == Some(w')
    ensures Inv(cfg, w', rs', tail')
    ensures rs' == rs || (exists r :: CommitsBy(cfg, w, act, r) && rs' == rs + [r])
  {
    rs', tail' := rs, tail;
    var pc := w.procs[p].pc;
    if act.Release? { OthersOutside(w, p); }
    hide Inv, ScanBytes, Faithful;
    if act.Acquire? || act.Release? {
      LockMoveKeepsInv(cfg, w, w', rs, tail, p, w'.procs[p].pc);
    } else if act.Truncate? {
      TruncateKeepsInv(cfg, w, w', rs, tail, p);
      tail' := [];
    } else if pc.n + 1 == |Line(cfg.codec, pc.r)| {
      LastByteKeepsInv(cfg, w, w', rs, tail, p, pc.r, pc.n);
      assert CommitsBy(cfg, w, act, pc.r);
      rs', tail' := rs + [pc.r], [];
    } else {
      OtherByteKeepsInv(cfg, w, w', rs, tail, p, pc.r, pc.n);
      tail' := Line(cfg.codec, pc.r)[..pc.n + 1];
    }
  }
}
