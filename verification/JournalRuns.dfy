/**
 * Any number of appenders and readers over one journal file: lock, scan, repair, byte-wise append,
 * projection and release, interleaved in any order, with a crash possible at every step.
 */
module JournalRuns {
  import opened Common
  import opened JournalRecord
  import opened Journal

  type Pid = nat

  datatype Op = Append(eventId: string, expectedHead: Option<string>) | Read(repair: bool)

  /** What a process finally reports. */
  datatype Verdict<P> =
    | TimedOut | ScanRefused | Rejected | Duplicate | ReadDone | LockLost
    | Acked(record: Record<P>)
    | Uncertain(record: Record<P>)

  /** Where a process is. `Dead` remembers the record whose bytes it had begun to append. */
  datatype Pc<P> =
    | Idle
    | Locked
    | Torn(rs: seq<Record<P>>, kept: nat, tail: seq<Byte>)
    | Saved(rs: seq<Record<P>>, kept: nat, tail: seq<Byte>)
    | Clean(rs: seq<Record<P>>)
    | Writing(r: Record<P>, n: nat)
    | Synced(r: Record<P>)
    | Releasing(verdict: Verdict<P>)
    | Finished(verdict: Verdict<P>)
    | Dead(effect: Option<Record<P>>)

  datatype Proc<P> = Proc(op: Op, pc: Pc<P>)

  /** The shared files and the processes. The lock file names its owner. */
  datatype World<P> = World(journal: seq<Byte>, recovered: set<seq<Byte>>, lock: Option<Pid>, procs: map<Pid, Proc<P>>)

  datatype Act<P> =
    | Spawn(p: Pid, op: Op) | Acquire(p: Pid) | Timeout(p: Pid) | Scan(p: Pid) | Preserve(p: Pid) | Truncate(p: Pid)
    | Refuse(p: Pid) | ReportDuplicate(p: Pid) | FinishRead(p: Pid) | Propose(p: Pid, r: Record<P>) | Write(p: Pid)
    | WriteFails(p: Pid) | Sync(p: Pid) | Project(p: Pid) | ProjectFails(p: Pid) | Release(p: Pid) | Kill(p: Pid)
    | Recover

  /** `legal` is the transition oracle: which records may follow which journal. */
  datatype Config<!P> = Config(codec: Codec<P>, legal: (seq<Record<P>>, Record<P>) -> bool)

  function Goto<P>(w: World<P>, p: Pid, pc: Pc<P>): World<P>
    requires p in w.procs
  {
    w.(procs := w.procs[p := w.procs[p].(pc := pc)])
  }

  /** The record a process would leave behind if it died here. */
  function Begun<P>(pc: Pc<P>): Option<Record<P>> {
    match pc
    case Writing(r, _) => Some(r)
    case Synced(r) => Some(r)
    case Releasing(Acked(r)) => Some(r)
    case Releasing(Uncertain(r)) => Some(r)
    case Finished(Acked(r)) => Some(r)
    case Finished(Uncertain(r)) => Some(r)
    case Dead(e) => e
    case _ => None
  }

  predicate MayPropose<P(==)>(cfg: Config<P>, rs: seq<Record<P>>, op: Op, r: Record<P>) {
    && op.Append? && r.eventId == op.eventId && r.eventId !in EventIds(rs)
    && (op.expectedHead.Some? ==> op.expectedHead.value == Head(rs))
    && Extends(cfg.codec, rs, r) && cfg.legal(rs, r)
  }

  /** One atomic step of one process; `None` when the step is not enabled. */
  function Step<P(==)>(cfg: Config<P>, w: World<P>, act: Act<P>): Option<World<P>> {
    if act.Spawn? then
      if act.p in w.procs then None else Some(w.(procs := w.procs[act.p := Proc(act.op, Idle)]))
    else if act.Recover? then
      if w.lock.Some? && w.lock.value in w.procs && w.procs[w.lock.value].pc.Dead? then Some(w.(lock := None)) else None
    else if act.p !in w.procs then None
    else StepProcess(cfg, w, act, act.p, w.procs[act.p].op, w.procs[act.p].pc)
  }

  function StepProcess<P(==)>(cfg: Config<P>, w: World<P>, act: Act<P>, p: Pid, op: Op, pc: Pc<P>): Option<World<P>>
    requires p in w.procs
  {
    match (act, pc)
    case (Acquire(_), Idle) => if w.lock.None? then Some(Goto(w.(lock := Some(p)), p, Locked)) else None
    case (Timeout(_), Idle) => if w.lock.Some? then Some(Goto(w, p, Finished(TimedOut))) else None
    case (Scan(_), Locked) =>
      (match ScanBytes(cfg.codec, w.journal, op.Append? || op.repair)
       case ScanFailed(_) => Some(Goto(w, p, Releasing(ScanRefused)))
       case Scanned(rs, _, None) => Some(Goto(w, p, Clean(rs)))
       case Scanned(rs, kept, Some(tail)) => Some(Goto(w, p, Torn(rs, kept, tail))))
    case (Preserve(_), Torn(rs, kept, tail)) =>
      Some(Goto(w.(recovered := w.recovered + {tail}), p, Saved(rs, kept, tail)))
    case (Truncate(_), Saved(rs, kept, tail)) =>
      if kept <= |w.journal| then Some(Goto(w.(journal := w.journal[..kept]), p, Clean(rs))) else None
    case (Refuse(_), Clean(_)) => if op.Append? then Some(Goto(w, p, Releasing(Rejected))) else None
    case (ReportDuplicate(_), Clean(rs)) =>
      if op.Append? && op.eventId in EventIds(rs) then Some(Goto(w, p, Releasing(Duplicate))) else None
    case (FinishRead(_), Clean(_)) => if op.Read? then Some(Goto(w, p, Releasing(ReadDone))) else None
    case (Propose(_, r), Clean(rs)) => if MayPropose(cfg, rs, op, r) then Some(Goto(w, p, Writing(r, 0))) else None
    case (Write(_), Writing(r, n)) =>
      if n < |Line(cfg.codec, r)|
      then Some(Goto(w.(journal := w.journal + [Line(cfg.codec, r)[n]]), p, Writing(r, n + 1))) else None
    case (WriteFails(_), Writing(r, _)) => Some(Goto(w, p, Releasing(Uncertain(r))))
    case (Sync(_), Writing(r, n)) => if n == |Line(cfg.codec, r)| then Some(Goto(w, p, Synced(r))) else None
    case (Project(_), Synced(r)) => Some(Goto(w, p, Releasing(Acked(r))))
    case (ProjectFails(_), Synced(r)) => Some(Goto(w, p, Releasing(Uncertain(r))))
    case (Release(_), Releasing(v)) =>
      if w.lock == Some(p) then Some(Goto(w.(lock := None), p, Finished(v))) else Some(Goto(w, p, Finished(LockLost)))
    case (Kill(_), _) => if pc.Finished? || pc.Dead? then None else Some(Goto(w, p, Dead(Begun(pc))))
    case _ => None
  }

  function Run<P(==)>(cfg: Config<P>, w: World<P>, acts: seq<Act<P>>): Option<World<P>> {
    if acts == [] then Some(w) else
      var mid := Run(cfg, w, acts[..|acts| - 1]);
      if mid.None? then None else Step(cfg, mid.value, acts[|acts| - 1])
  }

  function Start<P>(): World<P> {
    World([], {}, None, map[])
  }

  // ---------------------------------------------------------------- the invariant

  predicate Inside<P>(pc: Pc<P>) {
    pc.Locked? || pc.Torn? || pc.Saved? || pc.Clean? || pc.Writing? || pc.Synced? || pc.Releasing?
  }

  /** Every record was legal after the records before it. */
  predicate LegalChain<P>(legal: (seq<Record<P>>, Record<P>) -> bool, rs: seq<Record<P>>) {
    rs == [] || (LegalChain(legal, rs[..|rs| - 1]) && legal(rs[..|rs| - 1], rs[|rs| - 1]))
  }

  /** The file holds the committed records and then part of at most one more line. */
  ghost predicate FileHolds<P>(cfg: Config<P>, journal: seq<Byte>, rs: seq<Record<P>>, tail: seq<Byte>) {
    && journal == Encoded(cfg.codec, rs) + tail && NoBreaks(tail)
    && ValidChain(cfg.codec, rs) && UniqueIds(rs) && LegalChain(cfg.legal, rs)
  }

  ghost predicate LockHeld<P>(w: World<P>) {
    && (forall p | p in w.procs && Inside(w.procs[p].pc) :: w.lock == Some(p))
    && (w.lock.Some? ==>
      w.lock.value in w.procs && (Inside(w.procs[w.lock.value].pc) || w.procs[w.lock.value].pc.Dead?))
  }

  /** A record whose last byte is in the file, held by the process that wrote it. */
  function Owned<P>(c: Codec<P>, pc: Pc<P>): Option<Record<P>> {
    match pc
    case Writing(r, n) => if n == |Line(c, r)| then Some(r) else None
    case Synced(r) => Some(r)
    case Releasing(Acked(r)) => Some(r)
    case Finished(Acked(r)) => Some(r)
    case _ => None
  }

  /** What a process believes about the file is true while it holds the lock. */
  ghost predicate Knows<P>(cfg: Config<P>, w: World<P>, rs: seq<Record<P>>, tail: seq<Byte>, pc: Pc<P>) {
    match pc
    case Torn(rs', kept, t) => rs' == rs && t == tail && kept == |Encoded(cfg.codec, rs)|
    case Saved(rs', kept, t) => rs' == rs && t == tail && kept == |Encoded(cfg.codec, rs)| && t in w.recovered
    case Clean(rs') => rs' == rs && tail == []
    case Writing(r, n) =>
      if n < |Line(cfg.codec, r)|
      then tail == Line(cfg.codec, r)[..n] && Extends(cfg.codec, rs, r) && r.eventId !in EventIds(rs) &&
        cfg.legal(rs, r)
      else n == |Line(cfg.codec, r)| && tail == []
    case Synced(_) => tail == []
    case _ => true
  }

  ghost predicate Owners<P>(cfg: Config<P>, w: World<P>, rs: seq<Record<P>>) {
    && (forall p | p in w.procs && Owned(cfg.codec, w.procs[p].pc).Some? ::
          exists i :: 0 <= i < |rs| && rs[i] == Owned(cfg.codec, w.procs[p].pc).value)
    && (forall p, q | p in w.procs && q in w.procs && p != q && Owned(cfg.codec, w.procs[p].pc).Some?
          && Owned(cfg.codec, w.procs[q].pc).Some? ::
          Owned(cfg.codec, w.procs[p].pc).value != Owned(cfg.codec, w.procs[q].pc).value)
  }

  ghost predicate HasAuthor<P>(w: World<P>, r: Record<P>) {
    exists p :: p in w.procs && Begun(w.procs[p].pc) == Some(r)
  }

  /** Every committed record was begun by a process that acknowledged it, reported it uncertain, or died. */
  ghost predicate Authored<P>(w: World<P>, rs: seq<Record<P>>) {
    forall i | 0 <= i < |rs| :: HasAuthor(w, rs[i])
  }

  ghost predicate Inv<P>(cfg: Config<P>, w: World<P>, rs: seq<Record<P>>, tail: seq<Byte>) {
    && FileHolds(cfg, w.journal, rs, tail) && LockHeld(w) && Owners(cfg, w, rs) && Authored(w, rs)
    && forall p | p in w.procs :: Knows(cfg, w, rs, tail, w.procs[p].pc)
  }
}
