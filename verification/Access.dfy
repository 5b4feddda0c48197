/** User-selected tool permissions: what one request decides, and what every run of requests keeps. */
module Access {
  import opened Common
  import Paths

  datatype Mode = Workspace | Ask | ReadOnly | FullAccess

  datatype Tool =
    | FileRead | FileList | HistoryRead | KnowledgeRead | AttachmentRead | HarnessInfo | HarnessRead
    | FileWrite | RunPython | RunTests | RunCommand | PrepareProgram | Exec
    | CapabilityRequest | HarnessPropose | HarnessVerify | HarnessApply | HarnessRollback
    | WebFetch | BrowserInspect
    | Other(name: string)

  predicate Reads(t: Tool) {
    t in {FileRead, FileList, HistoryRead, KnowledgeRead, AttachmentRead, HarnessInfo, HarnessRead}
  }

  predicate Writes(t: Tool) {
    t in {FileWrite, RunPython, RunTests, RunCommand, PrepareProgram, Exec,
          CapabilityRequest, HarnessPropose, HarnessVerify, HarnessApply, HarnessRollback}
  }

  datatype Grant = Grant(mode: Mode, revision: nat)

  /** Everything an approval is for. Its digest is taken as injective, so the binding is its own identity. */
  datatype Binding = Binding(task: string, source: string, revision: nat, operation: string, tool: Tool,
    arguments: string)

  datatype Status = Awaiting | Approved | Rejected
  datatype Row = Row(status: Status, purpose: string, reason: string)

  /** The stored records: tasks with their current source, grants, earlier grants, and approval rows in order. */
  datatype Store = Store(
    tasks: map<string, string>,
    access: map<string, Grant>,
    history: map<string, Grant>,
    rows: map<Binding, Row>,
    order: seq<Binding>)

  datatype Decision = Approve | Reject

  datatype Why =
    | UnknownMode | UnknownTask | AccessConflict | ConfirmationRequired
    | UnknownTool | FullAccessNeeded | OnlyReading | RejectedByUser
    | Mismatch | Stale | AlreadyAnswered

  datatype Outcome = Passed | AwaitsUser | Refused(why: Why)

  datatype Action =
    | SetMode(task: string, mode: Option<Mode>, revision: int, confirmed: bool)
    | CheckTool(task: string, source: string, tool: Tool, arguments: string, operation: string, purpose: string)
    | Resolve(identity: Binding, decision: Option<Decision>, hash: Binding, reason: string)
    | ReviseSource(task: string, source: string)

  // ---------------------------------------------------------------- one request

  /** `get` */
  function GrantOf(s: Store, task: string): Grant {
    if task in s.access then s.access[task] else Grant(Workspace, 0)
  }

  function HistoryKey(task: string, revision: nat): string {
    task + ":" + Paths.Decimal(revision)
  }

  /** `set` */
  function SetStep(s: Store, task: string, mode: Option<Mode>, revision: int, confirmed: bool): (Store, Outcome) {
    var previous := GrantOf(s, task);
    if mode.None? then (s, Refused(UnknownMode))
    else if task !in s.tasks then (s, Refused(UnknownTask))
    else if previous.revision != revision then (s, Refused(AccessConflict))
    else if mode.value.FullAccess? && !previous.mode.FullAccess? && !confirmed then (s, Refused(ConfirmationRequired))
    else
      (s.(history := s.history[HistoryKey(task, previous.revision) := previous],
          access := s.access[task := Grant(mode.value, previous.revision + 1)]), Passed)
  }

  function BindingOf(s: Store, a: Action): Binding
    requires a.CheckTool?
  {
    Binding(a.task, a.source, GrantOf(s, a.task).revision, a.operation, a.tool, a.arguments)
  }

  /** `check` */
  function CheckStep(s: Store, a: Action): (Store, Outcome)
    requires a.CheckTool?
  {
    var grant, b := GrantOf(s, a.task), BindingOf(s, a);
    if a.tool.Other? then (s, Refused(UnknownTool))
    else if a.tool.RunCommand? && !grant.mode.FullAccess? then (s, Refused(FullAccessNeeded))
    else if Reads(a.tool) then (s, Passed)
    else if grant.mode.ReadOnly? && Writes(a.tool) then (s, Refused(OnlyReading))
    else if !grant.mode.Ask? then (s, Passed)
    else if b in s.rows && s.rows[b].status.Approved? then (s, Passed)
    else if b in s.rows && s.rows[b].status.Rejected? then (s, Refused(RejectedByUser))
    else if b in s.rows then (s, AwaitsUser)
    else (s.(rows := s.rows[b := Row(Awaiting, a.purpose, "")], order := s.order + [b]), AwaitsUser)
  }

  predicate Current(s: Store, b: Binding) {
    b.task in s.tasks && s.tasks[b.task] == b.source && GrantOf(s, b.task).revision == b.revision
  }

  /** `resolve` */
  function ResolveStep(
      s: Store, identity: Binding, decision: Option<Decision>, hash: Binding, reason: string): (Store, Outcome) {
    if identity !in s.rows || hash != identity || decision.None? then (s, Refused(Mismatch))
    else if identity.task !in s.tasks then (s, Refused(UnknownTask))
    else if !Current(s, identity) then (s, Refused(Stale))
    else
      var row, status := s.rows[identity], if decision.value.Approve? then Approved else Rejected;
      if row.status.Awaiting? then (s.(rows := s.rows[identity := row.(status := status, reason := reason)]), Passed)
      else if row.status != status then (s, Refused(AlreadyAnswered))
      else (s, Passed)
  }

  function Do(s: Store, a: Action): (Store, Outcome) {
    match a
    case SetMode(task, mode, revision, confirmed) => SetStep(s, task, mode, revision, confirmed)
    case CheckTool(_, _, _, _, _, _) => CheckStep(s, a)
    case Resolve(identity, decision, hash, reason) => ResolveStep(s, identity, decision, hash, reason)
    case ReviseSource(task, source) => (s.(tasks := s.tasks[task := source]), Passed)
  }

  /** `pending`: the rows still waiting that an answer would be accepted for. */
  predicate Answerable(s: Store, task: Option<string>, b: Binding) {
    && b in s.rows && s.rows[b].status.Awaiting? && (task.None? || b.task == task.value)
    && Current(s, b)
  }

  /** The listed rows are exactly those, of that task, that an answer would change. */
  lemma {:induction false} AnswerableIffResolvable(s: Store, b: Binding, decision: Decision, reason: string)
    ensures Answerable(s, None, b) <==>
      ResolveStep(s, b, Some(decision), b, reason).1.Passed? &&
        ResolveStep(s, b, Some(decision), b, reason).0.rows != s.rows
  {
    if Answerable(s, None, b) {
      var rows := ResolveStep(s, b, Some(decision), b, reason).0.rows;
      assert rows[b].status != s.rows[b].status;
    }
  }

  // ---------------------------------------------------------------- what each request means

  /** A task nobody has set has workspace access, at revision zero. */
  lemma {:induction false} UnsetIsWorkspace(s: Store, task: string)
    requires task !in s.access
    ensures GrantOf(s, task).mode == Workspace && GrantOf(s, task).revision == 0
  {
  }

  /**
   * A permission is set if and only if its mode and task are known, the caller saw the current revision, and
   * full access is confirmed or already held. Then the task has exactly that mode, one revision on; no other
   * task's permission, no source and no approval changes. A refused request changes nothing.
   */
  lemma {:induction false} SetExactly(
      s: Store, task: string, mode: Option<Mode>, revision: int, confirmed: bool, t: Store, out: Outcome)
    requires Do(s, SetMode(task, mode, revision, confirmed)) == (t, out)
    ensures out.Passed? <==>
      && mode.Some? && task in s.tasks && GrantOf(s, task).revision == revision
      && (mode == Some(FullAccess) ==> confirmed || GrantOf(s, task).mode == FullAccess)
    ensures out.Passed? ==>
      GrantOf(t, task).mode == mode.value && GrantOf(t, task).revision == GrantOf(s, task).revision + 1
    ensures forall other | other != task :: GrantOf(t, other) == GrantOf(s, other)
    ensures t.tasks == s.tasks && t.rows == s.rows && t.order == s.order
    ensures !out.Passed? ==> out.Refused? && t == s
  {
  }

  /**
   * Exactly when a check passes, for each mode: under full access every known tool; in the workspace every
   * known tool but commands; when only reading is allowed, reading and looking at the web; and when the user
   * is to be asked, reading, and what was approved for this task, source, revision, operation, tool and
   * arguments.
   */
  lemma {:induction false} PassesExactlyWhen(s: Store, a: Action)
    requires a.CheckTool?
    ensures CheckStep(s, a).1.Passed? <==>
      !a.tool.Other? &&
      match GrantOf(s, a.task).mode
      case FullAccess => true
      case Workspace => a.tool != RunCommand
      case ReadOnly => OnlyLooks(a.tool) || a.tool in {WebFetch, BrowserInspect}
      case Ask =>
        || OnlyLooks(a.tool)
        || var b := Binding(
             a.task, a.source, GrantOf(s, a.task).revision, a.operation, a.tool, a.arguments);
           a.tool != RunCommand && b in s.rows && s.rows[b].status == Approved
  {
  }

  /** The tools that change nothing and reach nothing outside. */
  predicate OnlyLooks(t: Tool) {
    match t
    case FileRead | FileList | HistoryRead | KnowledgeRead | AttachmentRead | HarnessInfo | HarnessRead => true
    case _ => false
  }

  /**
   * What does not pass waits for the user exactly when it is asked for in ask mode and not yet answered. A
   * first such request leaves one waiting row, with its purpose and no answer; nothing else changes anything.
   */
  lemma {:induction false} ChecksExactly(s: Store, a: Action, t: Store, out: Outcome)
    requires a.CheckTool? && Do(s, a) == (t, out)
    ensures var b := Binding(a.task, a.source, GrantOf(s, a.task).revision, a.operation, a.tool, a.arguments);
      && (out.AwaitsUser? <==>
        && GrantOf(s, a.task).mode == Ask && !a.tool.Other? && a.tool != RunCommand && !OnlyLooks(a.tool)
        && (b in s.rows ==> s.rows[b].status == Awaiting))
      && (if out.AwaitsUser? && b !in s.rows then
            && t.rows.Keys == s.rows.Keys + {b} && t.rows[b] == Row(Awaiting, a.purpose, "")
            && (forall other | other in s.rows :: t.rows[other] == s.rows[other]) && t.order == s.order + [b]
          else t.rows == s.rows && t.order == s.order)
    ensures t.tasks == s.tasks && t.access == s.access && t.history == s.history
  {
  }

  /**
   * An answer is taken if and only if it is one, names an existing row by its own digest, the task still has
   * the row's source and revision, and the row was not answered otherwise. A first answer is recorded as
   * given, with its reason; nothing else changes.
   */
  lemma {:induction false} AnswersExactly(
      s: Store, b: Binding, decision: Option<Decision>, hash: Binding, reason: string, t: Store, out: Outcome)
    requires Do(s, Resolve(b, decision, hash, reason)) == (t, out)
    ensures out.Passed? <==>
      && b in s.rows && hash == b && decision.Some?
      && b.task in s.tasks && s.tasks[b.task] == b.source && GrantOf(s, b.task).revision == b.revision
      && (s.rows[b].status == Awaiting
          || s.rows[b].status == (if decision == Some(Approve) then Approved else Rejected))
    ensures out.Passed? && s.rows[b].status == Awaiting ==>
      && t.rows.Keys == s.rows.Keys && t.rows[b].purpose == s.rows[b].purpose && t.rows[b].reason == reason
      && (decision == Some(Approve) ==> t.rows[b].status == Approved)
      && (decision == Some(Reject) ==> t.rows[b].status == Rejected)
      && forall other | other in s.rows && other != b :: t.rows[other] == s.rows[other]
    ensures !out.Passed? || s.rows[b].status != Awaiting ==> t == s
    ensures t.tasks == s.tasks && t.access == s.access && t.history == s.history && t.order == s.order
    ensures !out.Passed? ==> out.Refused?
  {
  }

  // ---------------------------------------------------------------- the gate

  /** The gate itself, over the records it reads and overwrites. */
  class Gate {
    var tasks: map<string, string>
    var access: map<string, Grant>
    var history: map<string, Grant>
    var rows: map<Binding, Row>
    var order: seq<Binding>

    ghost function State(): Store
      reads this
    {
      Store(tasks, access, history, rows, order)
    }

    constructor (tasks: map<string, string>)
      ensures State() == Fresh(tasks)
    {
      this.tasks, access, history, rows, order := tasks, map[], map[], map[], [];
    }

    method Get(task: string) returns (grant: Grant)
      ensures grant == GrantOf(State(), task)
    {
      grant := if task in access then access[task] else Grant(Workspace, 0);
    }

    method Set(task: string, mode: Option<Mode>, revision: int, confirmed: bool) returns (r: Outcome)
      modifies `access, `history
      ensures (State(), r) == SetStep(old(State()), task, mode, revision, confirmed)
    {
      if mode.None? { return Refused(UnknownMode); }
      if task !in tasks { return Refused(UnknownTask); }
      var previous := Get(task);
      if previous.revision != revision { return Refused(AccessConflict); }
      if mode.value.FullAccess? && !previous.mode.FullAccess? && !confirmed { return Refused(ConfirmationRequired); }
      history := history[HistoryKey(task, previous.revision) := previous];
      access := access[task := Grant(mode.value, previous.revision + 1)];
      r := Passed;
    }

    method Check(task: string, source: string, tool: Tool, arguments: string, operation: string, purpose: string)
      returns (r: Outcome)
      modifies `rows, `order
      ensures (State(), r) == CheckStep(old(State()), CheckTool(task, source, tool, arguments, operation, purpose))
    {
      var grant := Get(task);
      if tool.Other? { return Refused(UnknownTool); }
      if tool.RunCommand? && !grant.mode.FullAccess? { return Refused(FullAccessNeeded); }
      if Reads(tool) { return Passed; }
      if grant.mode.ReadOnly? && Writes(tool) { return Refused(OnlyReading); }
      if !grant.mode.Ask? { return Passed; }
      var b := Binding(task, source, grant.revision, operation, tool, arguments);
      if b in rows {
        if rows[b].status.Approved? { return Passed; }
        if rows[b].status.Rejected? { return Refused(RejectedByUser); }
      } else {
        rows, order := rows[b := Row(Awaiting, purpose, "")], order + [b];
      }
      r := AwaitsUser;
    }

    method Pending(task: Option<string>) returns (listed: seq<Binding>)
      ensures forall b :: b in listed <==> b in order && Answerable(State(), task, b)
    {
      listed := [];
      var i := 0;
      while i < |order|
        invariant 0 <= i <= |order|
        invariant forall b :: b in listed <==> b in order[..i] && Answerable(State(), task, b)
      {
        var b := order[i];
        assert order[..i + 1] == order[..i] + [b];
        if b in rows && rows[b].status.Awaiting? && (task.None? || b.task == task.value) {
          var grant := Get(b.task);
          if b.task in tasks && tasks[b.task] == b.source && grant.revision == b.revision { listed := listed + [b]; }
        }
        i := i + 1;
      }
      assert order[..i] == order;
    }

    method Answer(identity: Binding, decision: Option<Decision>, hash: Binding, reason: string) returns (r: Outcome)
      modifies `rows
      ensures (State(), r) == ResolveStep(old(State()), identity, decision, hash, reason)
    {
      if identity !in rows || hash != identity || decision.None? { return Refused(Mismatch); }
      if identity.task !in tasks { return Refused(UnknownTask); }
      var grant := Get(identity.task);
      if tasks[identity.task] != identity.source || grant.revision != identity.revision { return Refused(Stale); }
      var status := if decision.value.Approve? then Approved else Rejected;
      if !rows[identity].status.Awaiting? {
        return if rows[identity].status != status then Refused(AlreadyAnswered) else Passed;
      }
      rows := rows[identity := rows[identity].(status := status, reason := reason)];
      r := Passed;
    }
  }

  // ---------------------------------------------------------------- whole runs

  function Fresh(tasks: map<string, string>): Store {
    Store(tasks, map[], map[], map[], [])
  }

  ghost predicate Run(states: seq<Store>, actions: seq<Action>) {
    && |states| == |actions| + 1
    && states[0] == Fresh(states[0].tasks)
    && forall i | 0 <= i < |actions| :: states[i + 1] == Do(states[i], actions[i]).0
  }

  /** The user approved exactly this, while it could still be answered. */
  predicate Approves(s: Store, a: Action, b: Binding) {
    && a.Resolve? && a.identity == b && a.decision == Some(Approve)
    && Current(s, b) && b in s.rows && s.rows[b].status.Awaiting?
  }

  /** Everything approved was approved by the user at some point of the run. */
  lemma {:induction false} ApprovalsAreAnswers(states: seq<Store>, actions: seq<Action>, n: nat, b: Binding)
    requires Run(states, actions) && n <= |actions| && b in states[n].rows && states[n].rows[b].status.Approved?
    ensures exists k :: 0 <= k < n && Approves(states[k], actions[k], b)
  {
    if n == 0 {
    } else {
      assert states[n] == Do(states[n - 1], actions[n - 1]).0;
      if b in states[n - 1].rows && states[n - 1].rows[b].status.Approved? {
        ApprovalsAreAnswers(states, actions, n - 1, b);
      } else {
        assert Approves(states[n - 1], actions[n - 1], b);
      }
    }
  }

  lemma {:induction false} RevisionsGrow(states: seq<Store>, actions: seq<Action>, k: nat, n: nat, task: string)
    requires Run(states, actions) && k <= n <= |actions|
    ensures GrantOf(states[k], task).revision <= GrantOf(states[n], task).revision
    ensures GrantOf(states[k], task).revision == GrantOf(states[n], task).revision ==>
      GrantOf(states[k], task) == GrantOf(states[n], task)
  {
    if k == n {
    } else {
      RevisionsGrow(states, actions, k, n - 1, task);
      assert states[n] == Do(states[n - 1], actions[n - 1]).0;
    }
  }

  predicate ChangesGrant(s: Store, a: Action, task: string) {
    a.SetMode? && a.task == task && Do(s, a).1.Passed?
  }

  /**
   * In ask mode, anything but reading passes only if the user approved exactly this task, source, revision,
   * operation, tool and arguments, and the permission has not been set since.
   */
  lemma {:induction false} AskNeedsApproval(states: seq<Store>, actions: seq<Action>, n: nat)
    requires Run(states, actions) && n < |actions| && actions[n].CheckTool?
    requires GrantOf(states[n], actions[n].task).mode.Ask? && !OnlyLooks(actions[n].tool)
    requires Do(states[n], actions[n]).1.Passed?
    ensures var a := actions[n];
      var b := Binding(a.task, a.source, GrantOf(states[n], a.task).revision, a.operation, a.tool, a.arguments);
      exists k :: 0 <= k < n && Approves(states[k], actions[k], b)
              && (forall j | k <= j < n :: !ChangesGrant(states[j], actions[j], actions[n].task))
  {
    var a, b := actions[n], BindingOf(states[n], actions[n]);
    PassesExactlyWhen(states[n], a);
    ApprovalsAreAnswers(states, actions, n, b);
    var k :| 0 <= k < n && Approves(states[k], actions[k], b);
    forall j | k <= j < n ensures !ChangesGrant(states[j], actions[j], a.task) {
      RevisionsGrow(states, actions, k, j, a.task);
      RevisionsGrow(states, actions, j + 1, n, a.task);
      assert states[j + 1] == Do(states[j], actions[j]).0;
    }
  }

  /** A change of permission kills every earlier approval for good, whatever the modes that follow. */
  lemma {:induction false} ChangeKillsApprovals(states: seq<Store>, actions: seq<Action>, m: nat, n: nat, b: Binding)
    requires Run(states, actions) && m < n < |actions| && ChangesGrant(states[m], actions[m], b.task)
    requires b in states[m].rows && actions[n].CheckTool? && actions[n].task == b.task
    ensures BindingOf(states[n], actions[n]) != b
    ensures !Current(states[n], b)
  {
    RowsAreOld(states, actions, m, b);
    RevisionsGrow(states, actions, m + 1, n, b.task);
    assert states[m + 1] == Do(states[m], actions[m]).0;
  }

  /** A row never names a revision that has not been reached. */
  lemma {:induction false} RowsAreOld(states: seq<Store>, actions: seq<Action>, n: nat, b: Binding)
    requires Run(states, actions) && n <= |actions| && b in states[n].rows
    ensures b.revision <= GrantOf(states[n], b.task).revision
  {
    if n == 0 {
    } else {
      assert states[n] == Do(states[n - 1], actions[n - 1]).0;
      RevisionsGrow(states, actions, n - 1, n, b.task);
      if b in states[n - 1].rows { RowsAreOld(states, actions, n - 1, b); }
    }
  }

  /** An answer never changes, and a row never disappears. */
  lemma {:induction false} AnswersAreFinal(states: seq<Store>, actions: seq<Action>, m: nat, n: nat, b: Binding)
    requires Run(states, actions) && m <= n <= |actions| && b in states[m].rows
    ensures b in states[n].rows && states[n].rows[b].purpose == states[m].rows[b].purpose
    ensures !states[m].rows[b].status.Awaiting? ==> states[n].rows[b] == states[m].rows[b]
  {
    if m == n {
    } else {
      AnswersAreFinal(states, actions, m, n - 1, b);
      assert states[n] == Do(states[n - 1], actions[n - 1]).0;
    }
  }

  /** The rows are listed once each, so `pending` overlooks none. */
  lemma {:induction false} RowsAreListed(states: seq<Store>, actions: seq<Action>, n: nat)
    requires Run(states, actions) && n <= |actions|
    ensures Elements(states[n].order) == states[n].rows.Keys && Distinct(states[n].order)
  {
    if n == 0 {
    } else {
      RowsAreListed(states, actions, n - 1);
      var s, s' := states[n - 1], states[n];
      assert s' == Do(s, actions[n - 1]).0;
      if s'.order != s.order {
        var b := BindingOf(s, actions[n - 1]);
        assert s'.order == s.order + [b];
        assert b !in Elements(s.order);
        assert Elements(s'.order) == Elements(s.order) + {b};
      }
    }
  }

  // ---------------------------------------------------------------- permissions over a run

  /** The `k`-th request of a run sets this task's permission, and is accepted. */
  predicate Sets(states: seq<Store>, actions: seq<Action>, k: nat, task: string)
    requires k < |actions| && k < |states|
  {
    ChangesGrant(states[k], actions[k], task)
  }

  lemma {:induction false} GrantMoves(s: Store, a: Action, task: string)
    ensures ChangesGrant(s, a, task) ==> a.mode.Some? && GrantOf(Do(s, a).0, task).mode == a.mode.value
    ensures ChangesGrant(s, a, task) && a.mode == Some(FullAccess) ==>
      a.confirmed || GrantOf(s, task).mode == FullAccess
    ensures !ChangesGrant(s, a, task) ==> GrantOf(Do(s, a).0, task) == GrantOf(s, task)
  {
  }

  /** At any moment a task's mode is that of the last accepted request to set it, or workspace before any. */
  lemma {:induction false} ModeIsTheLastSet(states: seq<Store>, actions: seq<Action>, n: nat, task: string)
    requires Run(states, actions) && n <= |actions|
    ensures (exists k :: 0 <= k < n && Sets(states, actions, k, task)
              && actions[k].mode == Some(GrantOf(states[n], task).mode)
              && forall j | k < j < n :: !Sets(states, actions, j, task))
         || (GrantOf(states[n], task) == Grant(Workspace, 0)
              && forall j | 0 <= j < n :: !Sets(states, actions, j, task))
  {
    if n == 0 {
      UnsetIsWorkspace(states[0], task);
    } else {
      var s, a := states[n - 1], actions[n - 1];
      assert states[n] == Do(s, a).0;
      GrantMoves(s, a, task);
      hide Do, ChangesGrant, GrantOf;
      if Sets(states, actions, n - 1, task) {
        assert actions[n - 1].mode == Some(GrantOf(states[n], task).mode);
      } else {
        ModeIsTheLastSet(states, actions, n - 1, task);
        assert forall j | 0 <= j < n :: !Sets(states, actions, j, task) || j < n - 1;
      }
    }
  }

  /** Full access was confirmed when it was taken up, and has been held without a break since. */
  lemma {:induction false} FullAccessWasConfirmed(states: seq<Store>, actions: seq<Action>, n: nat, task: string)
    returns (k: nat)
    requires Run(states, actions) && n <= |actions| && GrantOf(states[n], task).mode == FullAccess
    ensures k < n && Sets(states, actions, k, task) && actions[k].mode == Some(FullAccess) && actions[k].confirmed
    ensures forall j | k < j <= n :: GrantOf(states[j], task).mode == FullAccess
  {
    if n == 0 {
      assert false;
    } else {
      var s, a := states[n - 1], actions[n - 1];
      assert states[n] == Do(s, a).0;
      GrantMoves(s, a, task);
      hide Do, ChangesGrant;
      if GrantOf(s, task).mode == FullAccess {
        k := FullAccessWasConfirmed(states, actions, n - 1, task);
      } else {
        k := n - 1;
      }
    }
  }

  // ---------------------------------------------------------------- history

  lemma {:induction false} NoColon(revision: nat)
    ensures ':' !in Paths.Decimal(revision)
  {
    if revision < 10 {
    } else {
      NoColon(revision / 10);
    }
  }

  lemma {:induction false} LastColon(task: string, digits: string)
    requires ':' !in digits
    ensures (task + ":" + digits)[|task|] == ':'
    ensures forall i | |task| < i < |task + ":" + digits| :: (task + ":" + digits)[i] != ':'
  {
    forall i | |task| < i < |task + ":" + digits| ensures (task + ":" + digits)[i] != ':' {
      assert (task + ":" + digits)[i] == digits[i - |task| - 1];
    }
  }

  /** The key of an earlier grant is read back uniquely, even when task identities contain colons. */
  lemma {:induction false} HistoryKeysDiffer(task: string, revision: nat, task': string, revision': nat)
    requires HistoryKey(task, revision) == HistoryKey(task', revision')
    ensures task == task' && revision == revision'
  {
    var d, d' := Paths.Decimal(revision), Paths.Decimal(revision');
    var key := HistoryKey(task, revision);
    NoColon(revision);
    NoColon(revision');
    LastColon(task, d);
    LastColon(task', d');
    assert |task| == |task'|;
    assert task == key[..|task|] == task';
    assert d == key[|task| + 1..] == d';
    Paths.ParseDecimal(revision);
    Paths.ParseDecimal(revision');
  }

  /**
   * History holds every earlier revision without gaps: each grant that was ever current and no longer is,
   * exactly as it was.
   */
  lemma {:induction false} HistoryHasNoGaps(
      states: seq<Store>, actions: seq<Action>, n: nat, task: string, revision: nat)
    requires Run(states, actions) && n <= |actions|
    ensures revision < GrantOf(states[n], task).revision <==> HistoryKey(task, revision) in states[n].history
    ensures HistoryKey(task, revision) in states[n].history ==>
      states[n].history[HistoryKey(task, revision)].revision == revision
    ensures forall k |
      0 <= k <= n && GrantOf(states[k], task).revision == revision && HistoryKey(task, revision) in states[n].history ::
              states[n].history[HistoryKey(task, revision)] == GrantOf(states[k], task)
  {
    if n == 0 {
    } else {
      HistoryHasNoGaps(states, actions, n - 1, task, revision);
      HistoryStep(states[n - 1], actions[n - 1], states[n], task, revision);
      forall k |
        0 <= k <= n && GrantOf(states[k], task).revision == revision && HistoryKey(task, revision) in states[n].history
        ensures states[n].history[HistoryKey(task, revision)] == GrantOf(states[k], task)
      {
        RevisionsGrow(states, actions, k, n, task);
        if k < n { RevisionsGrow(states, actions, k, n - 1, task); }
      }
    }
  }

  lemma {:induction false} HistoryStep(s: Store, a: Action, s': Store, task: string, revision: nat)
    requires s' == Do(s, a).0
    ensures var key := HistoryKey(task, revision);
      if GrantOf(s', task) != GrantOf(s, task) && GrantOf(s, task).revision == revision
      then key in s'.history && s'.history[key] == GrantOf(s, task) && GrantOf(s', task).revision == revision + 1
      else (key in s'.history <==> key in s.history) && (key in s.history ==> s'.history[key] == s.history[key])
    ensures GrantOf(s', task) != GrantOf(s, task) ==> GrantOf(s', task).revision == GrantOf(s, task).revision + 1
  {
    if a.SetMode? && Do(s, a).1.Passed? {
      var previous := GrantOf(s, a.task).revision;
      if HistoryKey(a.task, previous) == HistoryKey(task, revision) {
        HistoryKeysDiffer(a.task, previous, task, revision);
      }
    }
  }
}
