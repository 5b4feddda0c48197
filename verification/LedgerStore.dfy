/** The ledger's files, and the methods that read, repair, lock and extend them step by step. */
module LedgerStore {
  import opened Common
  import opened Journal
  import opened LedgerModel
  import opened LedgerReplay
  import opened LedgerAppend

  /** The bytes of a line that a write leaves in the file. */
  function Written(line: seq<Byte>, accepted: nat): seq<Byte> {
    if accepted < |line| then line[..accepted] else line
  }

  /** How far an append had got, for the report when the lock cannot be released cleanly. */
  datatype EffectStage = AppendUncertain | Committed | Projected

  datatype AppendOutcome =
    | LockTimeout
    | ScanRefused(error: ScanError)
    | Rejected(refusal: Refusal)
    | RejectedUnrecorded(refusal: Refusal)
    | DuplicateReported(existing: Entry)
    | DuplicateUnprojected(existing: Entry)
    | Appended(record: Entry)
    | AppendedUnprojected(record: Entry)
    | UncertainAppend(record: Entry)
  {
    /** The write of a record had begun. */
    predicate Began() { Appended? || AppendedUnprojected? || UncertainAppend? }
  }

  /** What is raised, or returned, when the lock could or could not be released cleanly. */
  datatype AppendReport =
    | Plain(outcome: AppendOutcome)
    | FaultAfterEffect(outcome: AppendOutcome, stage: EffectStage)
    | FaultWithoutEffect(outcome: AppendOutcome)

  /**
   * What the file system does with an append: how many bytes of the line it takes, whether they reach the
   * disk, and whether the projection and the evidence of a rejection can be written.
   */
  datatype Fate = Fate(accepted: nat, synced: bool, projects: bool, evident: bool)

  /** The ledger's files besides its lock. */
  datatype Files = Files(
    journal: seq<Byte>, recovered: set<seq<Byte>>, rejections: seq<Refusal>, projection: Option<State>)

  /** One append under the lock: scan with repair, decide by full replay, write the line, project. */
  ghost predicate AppendsAs(
    c: Codec<Event>, env: Surroundings, a: Attempt, fate: Fate, s: Files, out: AppendOutcome, t: Files,
    effect: Option<EffectStage>)
  {
    match ScanBytes(c, s.journal, true)
    case ScanFailed(e) => out == ScanRefused(e) && t == s && effect.None?
    case Scanned(rs, kept, tail) =>
      && kept <= |s.journal|
      && t.recovered == s.recovered + (if tail.Some? then {tail.value} else {})
      && match Decide(c.hash, env, rs, a)
         case Err(refusal) => RejectsAs(refusal, fate, s, kept, out, t) && effect.None?
         case Ok(Duplicate(existing)) => RepeatsAs(env, rs, existing, fate, s, kept, out, t) && effect.None?
         case Ok(Commit(r, state)) => CommitsAs(c, r, state, fate, s, kept, out, t, effect)
  }

  predicate RejectsAs(refusal: Refusal, fate: Fate, s: Files, kept: nat, out: AppendOutcome, t: Files)
    requires kept <= |s.journal|
  {
    && t.journal == s.journal[..kept] && t.projection == s.projection
    && if fate.evident then out == Rejected(refusal) && t.rejections == s.rejections + [refusal]
       else out == RejectedUnrecorded(refusal) && t.rejections == s.rejections
  }

  predicate RepeatsAs(
    env: Surroundings, rs: seq<Entry>, existing: Entry, fate: Fate, s: Files, kept: nat, out: AppendOutcome, t: Files)
    requires kept <= |s.journal|
  {
    && t.journal == s.journal[..kept] && t.rejections == s.rejections
    && if fate.projects then
         out == DuplicateReported(existing) && t.projection.Some? && ReadState(env, rs) == Ok(t.projection.value)
       else out == DuplicateUnprojected(existing) && t.projection == s.projection
  }

  predicate CommitsAs(
    c: Codec<Event>, r: Entry, state: State, fate: Fate, s: Files, kept: nat, out: AppendOutcome, t: Files,
    effect: Option<EffectStage>)
    requires kept <= |s.journal|
  {
    && t.rejections == s.rejections && t.journal == s.journal[..kept] + Written(Line(c, r), fate.accepted)
    && if fate.accepted < |Line(c, r)| || !fate.synced then
         out == UncertainAppend(r) && effect == Some(AppendUncertain) && t.projection == s.projection
       else if fate.projects then out == Appended(r) && effect == Some(Projected) && t.projection == Some(state)
       else out == AppendedUnprojected(r) && effect == Some(Committed) && t.projection == s.projection
  }

  lemma {:induction false} DropLine(raw: seq<Byte>, kept: nat, line: seq<Byte>, rest: seq<Byte>)
    requires kept <= |raw| && raw[kept..] == line + rest
    ensures kept + |line| <= |raw| && raw[kept + |line|..] == rest
    ensures rest == [] ==> raw == raw[..kept] + line
  {
    assert raw == raw[..kept] + raw[kept..];
    assert raw[kept + |line|..] == raw[kept..][|line|..];
  }

  /** Before line `i`, with the records and the length kept so far, the rest of the scan decides its result. */
  predicate ScanAt(
    c: Codec<Event>, raw: seq<Byte>, lines: seq<seq<Byte>>, i: nat, rs: seq<Entry>, kept: nat, repair: bool)
  {
    && i <= |lines| && kept <= |raw| && raw[kept..] == Flatten(lines[i..])
    && ScanFrom(c, lines[i..], rs, kept, repair) == ScanBytes(c, raw, repair)
  }

  lemma {:induction false} ScanFits(
    c: Codec<Event>, raw: seq<Byte>, lines: seq<seq<Byte>>, i: nat, rs: seq<Entry>, kept: nat, repair: bool)
    requires ScanAt(c, raw, lines, i, rs, kept, repair)
    ensures i <= |lines| && kept <= |raw|
  {
  }

  lemma {:induction false} ScanStarts(c: Codec<Event>, raw: seq<Byte>, repair: bool)
    ensures ScanAt(c, raw, SplitLines(raw), 0, [], 0, repair)
  {
    hide ScanFrom;
    var lines := SplitLines(raw);
    assert lines[0..] == lines && raw[0..] == raw;
  }

  /** A whole line whose record is in order: the scan goes on after it. */
  lemma {:induction false} ScanPasses(
    c: Codec<Event>, raw: seq<Byte>, lines: seq<seq<Byte>>, i: nat, rs: seq<Entry>, kept: nat, repair: bool, r: Entry)
    requires ScanAt(c, raw, lines, i, rs, kept, repair) && i < |lines| && Complete(lines[i])
    requires c.decode(lines[i][..|lines[i]| - 1]) == Some(r) && CheckRecord(c, rs, r).Ok?
    ensures ScanAt(c, raw, lines, i + 1, rs + [r], kept + |lines[i]|, repair)
  {
    hide ScanFrom, ScanBytes, CheckRecord, Flatten;
    var line, rest := lines[i], lines[i + 1..];
    assert lines[i..] == [line] + rest;
    ScanUnfolds(c, line, rest, rs, kept, repair);
    FlattenHead(line, rest);
    DropLine(raw, kept, line, Flatten(rest));
  }

  /** Any other line: the scan ends there, with a torn last line to cut or a fault. */
  lemma {:induction false} ScanStops(
    c: Codec<Event>, raw: seq<Byte>, lines: seq<seq<Byte>>, i: nat, rs: seq<Entry>, kept: nat, repair: bool)
    requires ScanAt(c, raw, lines, i, rs, kept, repair) && i < |lines|
    ensures var line := lines[i];
      if !Complete(line) then
        && (i + 1 == |lines| ==> raw == raw[..kept] + line)
        && ScanBytes(c, raw, repair) ==
          if i + 1 == |lines| && repair then Scanned(rs, kept, Some(line)) else ScanFailed(ParseFailure)
      else
        var decoded := c.decode(line[..|line| - 1]);
        && (decoded.None? ==> ScanBytes(c, raw, repair) == ScanFailed(ParseFailure))
        && (decoded.Some? && CheckRecord(c, rs, decoded.value).Err? ==>
          ScanBytes(c, raw, repair) == ScanFailed(CheckRecord(c, rs, decoded.value).error))
  {
    hide ScanFrom, ScanBytes, CheckRecord, Flatten;
    var line, rest := lines[i], lines[i + 1..];
    assert lines[i..] == [line] + rest;
    ScanUnfolds(c, line, rest, rs, kept, repair);
    FlattenHead(line, rest);
    DropLine(raw, kept, line, Flatten(rest));
    if i + 1 == |lines| { NothingIsEmpty(rest); }
  }

  lemma {:induction false} NothingIsEmpty(lines: seq<seq<Byte>>)
    requires lines == []
    ensures Flatten(lines) == []
  {
  }

  lemma {:induction false} ScanEnds(
    c: Codec<Event>, raw: seq<Byte>, lines: seq<seq<Byte>>, rs: seq<Entry>, kept: nat, repair: bool)
    requires ScanAt(c, raw, lines, |lines|, rs, kept, repair)
    ensures ScanBytes(c, raw, repair) == Scanned(rs, kept, None) && kept == |raw|
  {
    hide ScanBytes;
    assert lines[|lines|..] == [] && Flatten<Byte>([]) == [];
  }

  lemma {:induction false} DecidedIsReadable(hash: Entry -> string, env: Surroundings, rs: seq<Entry>, a: Attempt)
    requires Decide(hash, env, rs, a).Ok?
    ensures ReadState(env, rs).Ok?
  {
    hide Replay, Attach, Normalise, FindEvent, SafeId, Upper, DependentSources;
  }

  /** Committing to the journal that is left after cutting a torn tail. */
  lemma {:induction false} SameCommit(
    c: Codec<Event>, r: Entry, state: State, fate: Fate, s: Files, kept: nat, cut: Files, out: AppendOutcome,
    t: Files, effect: Option<EffectStage>)
    requires kept <= |s.journal| && cut.journal == s.journal[..kept]
    requires cut.rejections == s.rejections && cut.projection == s.projection
    requires CommitsAs(c, r, state, fate, cut, |cut.journal|, out, t, effect)
    ensures CommitsAs(c, r, state, fate, s, kept, out, t, effect)
  {
    assert cut.journal[..|cut.journal|] == cut.journal;
    hide Line, Written;
  }

  lemma {:induction false} EffectTellsBegun(
    c: Codec<Event>, env: Surroundings, a: Attempt, fate: Fate, s: Files, out: AppendOutcome, t: Files,
    effect: Option<EffectStage>)
    requires AppendsAs(c, env, a, fate, s, out, t, effect)
    ensures effect.Some? <==> out.Began()
    ensures effect.Some? ==> (effect.value.AppendUncertain? <==> out.UncertainAppend?)
  {
    hide ScanBytes, Decide, ReadState, Line, Written;
  }

  class Ledger {
    var journal: seq<Byte>
    var recovered: set<seq<Byte>>
    var lock: Option<string>
    var effect: Option<EffectStage>
    var rejections: seq<Refusal>
    var projection: Option<State>

    constructor ()
      ensures journal == [] && recovered == {} && lock == None && effect == None && rejections == []
      ensures projection == None
    {
      journal, recovered, lock, effect, rejections, projection := [], {}, None, None, [], None;
    }

    /** Creates the lock file exclusively. */
    method Acquire(token: string) returns (ok: bool)
      modifies this`lock, this`effect
      ensures ok == old(lock).None?
      ensures ok ==> lock == Some(token) && effect == None
      ensures !ok ==> lock == old(lock) && effect == old(effect)
    {
      ok := lock.None?;
      if ok { lock, effect := Some(token), None; }
    }

    /** Removes the lock file if it is still this owner's; otherwise reports a cleanup fault. */
    method Release(token: string) returns (fault: bool)
      modifies this`lock
      ensures fault == (old(lock) != Some(token))
      ensures lock == if fault then old(lock) else None
    {
      fault := lock != Some(token);
      if !fault { lock := None; }
    }

    /** Reads every line, checks the chain, and with `repair` cuts a torn last line after preserving it. */
    method ScanJournal(c: Codec<Event>, repair: bool) returns (s: Scan<Event>)
      modifies this`journal, this`recovered
      ensures s == ScanBytes(c, old(journal), repair)
      ensures s.Scanned? ==> s.kept <= |old(journal)| && journal == old(journal)[..s.kept]
      ensures s.Scanned? && s.tail.None? ==> journal == old(journal) && recovered == old(recovered)
      ensures s.Scanned? && s.tail.Some? ==>
        old(journal) == journal + s.tail.value && recovered == old(recovered) + {s.tail.value}
      ensures s.ScanFailed? ==> journal == old(journal) && recovered == old(recovered)
    {
      hide ScanBytes, ScanAt, CheckRecord, SplitLines;
      var raw, lines := journal, SplitLines(journal);
      ScanStarts(c, raw, repair);
      var records: seq<Entry>, kept, i := [], 0, 0;
      while i < |lines|
        invariant 0 <= i <= |lines| && 0 <= kept <= |raw|
        invariant ScanAt(c, raw, lines, i, records, kept, repair)
        invariant journal == raw && recovered == old(recovered)
      {
        var line := lines[i];
        ScanStops(c, raw, lines, i, records, kept, repair);
        if !Complete(line) {
          if i + 1 == |lines| && repair {
            recovered := recovered + {line};
            journal := raw[..kept];
            return Scanned(records, kept, Some(line));
          }
          return ScanFailed(ParseFailure);
        }
        var decoded := c.decode(line[..|line| - 1]);
        if decoded.None? { return ScanFailed(ParseFailure); }
        var checked := CheckRecord(c, records, decoded.value);
        if checked.Err? { return ScanFailed(checked.error); }
        ScanPasses(c, raw, lines, i, records, kept, repair, decoded.value);
        ScanFits(c, raw, lines, i + 1, records + [decoded.value], kept + |line|, repair);
        records := records + [decoded.value];
        kept := kept + |line|;
        i := i + 1;
      }
      ScanEnds(c, raw, lines, records, kept, repair);
      s := Scanned(records, kept, None);
    }

    /**
     * Appends the record's line. A write that is short, or is not synced, leaves what bytes it wrote behind
     * and is uncertain.
     */
    method WriteLine(c: Codec<Event>, r: Entry, accepted: nat, synced: bool) returns (written: bool)
      modifies this`journal, this`effect
      ensures journal == old(journal) + Written(Line(c, r), accepted)
      ensures written <==> accepted >= |Line(c, r)| && synced
      ensures effect == Some(if written then Committed else AppendUncertain)
    {
      effect := Some(AppendUncertain);
      var line := Line(c, r);
      journal := journal + Written(line, accepted);
      if accepted < |line| || !synced { return false; }
      effect := Some(Committed);
      written := true;
    }

    function Snapshot(): Files
      reads this
    {
      Files(journal, recovered, rejections, projection)
    }

    /** Writes an accepted record's line and then the projection of its state. */
    method WriteRecord(c: Codec<Event>, r: Entry, t: State, fate: Fate) returns (out: AppendOutcome)
      modifies this`journal, this`effect, this`projection
      ensures CommitsAs(c, r, t, fate, old(Snapshot()), |old(journal)|, out, Snapshot(), effect)
      ensures recovered == old(recovered)
    {
      var written := WriteLine(c, r, fate.accepted, fate.synced);
      if !written {
        out := UncertainAppend(r);
      } else if fate.projects {
        projection := Some(t);
        effect := Some(Projected);
        out := Appended(r);
      } else {
        out := AppendedUnprojected(r);
      }
    }

    /** The part of an append that runs under the lock. */
    method AppendLocked(c: Codec<Event>, env: Surroundings, a: Attempt, fate: Fate) returns (out: AppendOutcome)
      requires effect.None?
      modifies this`journal, this`recovered, this`rejections, this`projection, this`effect
      ensures AppendsAs(c, env, a, fate, old(Snapshot()), out, Snapshot(), effect)
      ensures !out.LockTimeout?
    {
      hide Decide, ScanBytes, ReadState, CommitsAs;
      var s := ScanJournal(c, true);
      if s.ScanFailed? { return ScanRefused(s.error); }
      var decision := Decide(c.hash, env, s.records, a);
      if decision.Err? {
        if fate.evident {
          rejections := rejections + [decision.error];
          out := Rejected(decision.error);
        } else {
          out := RejectedUnrecorded(decision.error);
        }
      } else if decision.value.Duplicate? {
        if fate.projects {
          DecidedIsReadable(c.hash, env, s.records, a);
          projection := Some(ReadState(env, s.records).value);
          out := DuplicateReported(decision.value.existing);
        } else {
          out := DuplicateUnprojected(decision.value.existing);
        }
      } else {
        ghost var cut := Snapshot();
        out := WriteRecord(c, decision.value.record, decision.value.state, fate);
        SameCommit(c, decision.value.record, decision.value.state, fate, old(Snapshot()), s.kept, cut, out,
          Snapshot(), effect);
      }
    }

    /**
     * `append_event`: takes the lock, appends and releases the lock. `seized` is what somebody else may have
     * put in place of the lock before its release. The report tells exactly whether a write had begun, and how
     * far it got.
     */
    method AppendEvent(
      c: Codec<Event>, env: Surroundings, a: Attempt, token: string, fate: Fate, seized: Option<Option<string>>)
      returns (report: AppendReport)
      modifies this
      ensures old(lock).Some? ==> report == Plain(LockTimeout) && lock == old(lock) && Snapshot() == old(Snapshot())
      ensures old(lock).None? ==> AppendsAs(c, env, a, fate, old(Snapshot()), report.outcome, Snapshot(), effect)
      ensures old(lock).None? ==>
        var fault := seized.Some? && seized.value != Some(token);
        && lock == (if fault then seized.value else None)
        && (report.Plain? <==> !fault)
        && (report.FaultAfterEffect? <==> fault && report.outcome.Began())
      ensures report.FaultAfterEffect? ==> Some(report.stage) == effect
    {
      var ok := Acquire(token);
      if !ok { return Plain(LockTimeout); }
      var out := AppendLocked(c, env, a, fate);
      EffectTellsBegun(c, env, a, fate, old(Snapshot()), out, Snapshot(), effect);
      hide AppendsAs;
      if seized.Some? { lock := seized.value; }
      var fault := Release(token);
      report := if !fault then Plain(out) else if effect.Some? then FaultAfterEffect(out, effect.value)
                else FaultWithoutEffect(out);
    }
  }
}
