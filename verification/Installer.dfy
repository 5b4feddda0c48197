/**
 * Installing, updating and rolling back, one atomic effect at a time. Every effect may complete, raise
 * before or after taking place, or be where the process dies; whatever holds for every schedule of these
 * fates holds at every point of a run.
 */
module Installer {
  import opened Common
  import opened InstallerModel

  datatype Fate = Done | FailBefore | FailAfter | Crash
  datatype Signal = Completed | Raised | Crashed

  /** An effect takes place though it is reported as failed, or not. */
  predicate TakesPlace(f: Fate) {
    f.Done? || f.FailAfter?
  }

  /** What the process sees of an effect, if it still sees anything. */
  function Seen(f: Fate): Signal {
    match f
    case Done => Completed
    case FailBefore => Raised
    case FailAfter => Raised
    case Crash => Crashed
  }

  datatype Refusal =
    | UpdateNeedsComplete
    | NoBaseline
    | UnresolvedHistory
    | DuplicateMember
    | NoOwnedMembers
    | InvalidMember(path: string)
    | LocalChange(path: string)
    | UnownedFile(path: string)
    | PlanDiffers
    | Locked
    | BaselineChanged
    | DestinationChanged(path: string)
    | NoManifest
    | EmptyInventory
    | BackupDamaged(path: string)
    | Conflict(path: string)

  /** What a preview binds: digests make equal plans equal inventories. */
  datatype PlanId = PlanId(complete: bool, entries: multiset<Entry>, updateFrom: Option<Origin>)

  /** `owned` is what an update may replace or delete; it is empty for a first installation. */
  datatype Plan = Plan(entries: seq<Entry>, payloads: Files, owned: map<string, Digest>, updateFrom: Option<Origin>)

  datatype Outcome = Preview(id: PlanId) | Refused(why: Refusal) | Finished | Failed | Died

  // ---------------------------------------------------------------- baselines

  /** The latest complete installation that has not been rolled back, and is fully applied. */
  ghost predicate IsBaseline(backups: seq<Backup>, b: nat) {
    && b < |backups| && backups[b].manifest.Some?
    && backups[b].manifest.value.complete && backups[b].manifest.value.phase.Applied?
    && forall k | b < k < |backups| ::
         backups[k].manifest.Some? &&
           (!backups[k].manifest.value.complete || backups[k].manifest.value.phase.RolledBack?)
  }

  predicate Standing(b: Backup) {
    b.manifest.Some? && b.manifest.value.complete && !b.manifest.value.phase.RolledBack?
  }

  predicate Owning(e: Entry) {
    PackageMember(e.path) && !(e.installed.None? && e.delete)
  }

  /** Every owned member still has its recorded content, and there is one. */
  ghost predicate Unmodified(files: Files, entries: seq<Entry>) {
    && Distinct(PathsOf(entries))
    && (forall i | 0 <= i < |entries| && Owning(entries[i]) ::
          entries[i].installed.Some? && Fingerprint(Content(files, entries[i].path)) == entries[i].installed)
    && exists i :: 0 <= i < |entries| && Owning(entries[i])
  }

  ghost predicate OwnedBy(owned: map<string, Digest>, files: Files, entries: seq<Entry>) {
    && (forall path | path in owned :: PackageMember(path) && Fingerprint(Content(files, path)) == Some(owned[path]))
    && (forall i | 0 <= i < |entries| && Owning(entries[i]) ::
          entries[i].path in owned && entries[i].installed == Some(owned[entries[i].path]))
    && (forall path | path in owned :: exists i :: 0 <= i < |entries| && Owning(entries[i]) && entries[i].path == path)
  }

  // ---------------------------------------------------------------- plans

  /** The entries own this path. */
  predicate OwnsPath(entries: seq<Entry>, path: string) {
    exists k :: 0 <= k < |entries| && Owning(entries[k]) && entries[k].path == path
  }

  /** Every package member that would be replaced is one these entries own. */
  predicate ReplacesOwn(files: Files, planned: seq<Planned>, entries: seq<Entry>) {
    forall i | 0 <= i < |planned| && PackageMember(planned[i].path) && planned[i].path in files ::
      OwnsPath(entries, planned[i].path)
  }

  /**
   * A plan can be made: always for an installation, and for an update if it is complete, over an unmodified
   * baseline, and replaces nothing it does not own.
   */
  ghost predicate Plannable(files: Files, backups: seq<Backup>, planned: seq<Planned>, complete: bool, update: bool) {
    update ==>
      && complete
      && exists b: nat ::
           && IsBaseline(backups, b) && Unmodified(files, backups[b].manifest.value.entries)
           && ReplacesOwn(files, planned, backups[b].manifest.value.entries)
  }

  /** There is at most one baseline. */
  lemma {:induction false} OneBaseline(backups: seq<Backup>, a: nat, b: nat)
    requires IsBaseline(backups, a) && IsBaseline(backups, b)
    ensures a == b
  {
  }

  lemma {:induction false} OwnedOwns(owned: map<string, Digest>, files: Files, entries: seq<Entry>, path: string)
    requires OwnedBy(owned, files, entries)
    ensures path in owned <==> OwnsPath(entries, path)
  {
  }

  datatype Planned = Planned(path: string, data: string)

  function PlannedPaths(planned: seq<Planned>): (paths: seq<string>)
    ensures |paths| == |planned| && forall i | 0 <= i < |planned| :: paths[i] == planned[i].path
  {
    seq(|planned|, i requires 0 <= i < |planned| => planned[i].path)
  }

  /** What the plan delivers: an update leaves everything outside the package alone. */
  function Payloads(planned: seq<Planned>, update: bool): (m: Files)
    ensures forall path :: path in m ==> (update ==> PackageMember(path)) && path in PlannedPaths(planned)
  {
    if planned == [] then map[] else
      var front, last := planned[..|planned| - 1], planned[|planned| - 1];
      assert planned == front + [last];
      assert PlannedPaths(planned) == PlannedPaths(front) + [last.path];
      if update && !PackageMember(last.path) then Payloads(front, update)
      else Payloads(front, update)[last.path := last.data]
  }

  /** Everything planned is delivered as planned; an update delivers what of it is in the package. */
  lemma {:induction false} PayloadsAre(planned: seq<Planned>, update: bool)
    requires Distinct(PlannedPaths(planned))
    ensures forall path :: path in Payloads(planned, update) <==>
      path in PlannedPaths(planned) && (update ==> PackageMember(path))
    ensures forall i | 0 <= i < |planned| && (update ==> PackageMember(planned[i].path)) ::
      planned[i].path in Payloads(planned, update)
      && Payloads(planned, update)[planned[i].path] == planned[i].data
  {
    if planned == [] {
    } else {
      var front, last := planned[..|planned| - 1], planned[|planned| - 1];
      assert Payloads(planned, update) ==
        if update && !PackageMember(last.path) then Payloads(front, update)
        else Payloads(front, update)[last.path := last.data];
      hide *;
      FrontPlanned(planned);
      PayloadsAre(front, update);
      forall i | 0 <= i < |planned| && (update ==> PackageMember(planned[i].path))
        ensures planned[i].path in Payloads(planned, update)
        ensures Payloads(planned, update)[planned[i].path] == planned[i].data
      {
        if i < |front| { assert front[i] == planned[i] && planned[i].path in PlannedPaths(front); }
      }
    }
  }

  lemma {:induction false} FrontPlanned(planned: seq<Planned>)
    requires planned != [] && Distinct(PlannedPaths(planned))
    ensures var front, last := planned[..|planned| - 1], planned[|planned| - 1];
      && PlannedPaths(planned) == PlannedPaths(front) + [last.path]
      && Distinct(PlannedPaths(front)) && last.path !in PlannedPaths(front)
      && forall i | 0 <= i < |front| :: planned[i].path in PlannedPaths(front)
  {
    var front, last := planned[..|planned| - 1], planned[|planned| - 1];
    assert forall i | 0 <= i < |front| ::
      PlannedPaths(planned)[i] == planned[i].path && PlannedPaths(front)[i] == planned[i].path;
    assert PlannedPaths(planned)[|front|] == last.path;
  }

  /** An entry does what the plan says to its member, from the content that is there now. */
  ghost predicate EntryFor(files: Files, payloads: Files, owned: map<string, Digest>, e: Entry) {
    && e.before == Fingerprint(Content(files, e.path))
    && (if e.path in payloads then !e.delete && e.installed == Some(Sha256(payloads[e.path]))
        else e.delete && e.installed.None? && e.path in owned)
  }

  ghost predicate PlanFor(files: Files, plan: Plan) {
    && plan.entries != [] && Distinct(PathsOf(plan.entries))
    && Elements(PathsOf(plan.entries)) == plan.payloads.Keys + plan.owned.Keys
    && (forall i | 0 <= i < |plan.entries| :: EntryFor(files, plan.payloads, plan.owned, plan.entries[i]))
    && (forall path | path in plan.owned ::
      PackageMember(path) && Fingerprint(Content(files, path)) == Some(plan.owned[path]))
  }

  /** An update touches package members only, and replaces only members it owns unmodified. */
  ghost predicate UpdatesOwnOnly(files: Files, plan: Plan) {
    forall path | path in plan.payloads || path in plan.owned ::
      PackageMember(path) && (path in files ==> path in plan.owned && plan.owned[path] == Sha256(files[path]))
  }

  function Identify(complete: bool, plan: Plan): PlanId {
    PlanId(complete, multiset(plan.entries), plan.updateFrom)
  }

  /** The content a finished plan leaves at a path. */
  function Delivered(files: Files, plan: Plan, path: string): Option<string> {
    if path in plan.payloads then Some(plan.payloads[path])
    else if path in plan.owned then None
    else Content(files, path)
  }

  lemma {:induction false} SharedEntry(a: seq<Entry>, b: seq<Entry>, path: string) returns (i: nat, k: nat)
    requires multiset(a) == multiset(b) && path in PathsOf(a)
    ensures i < |a| && k < |b| && a[i] == b[k] && a[i].path == path && path in PathsOf(b)
  {
    i :| 0 <= i < |a| && PathsOf(a)[i] == path;
    assert a[i] in multiset(b);
    k :| 0 <= k < |b| && b[k] == a[i];
    assert PathsOf(b)[k] == path;
  }

  lemma {:induction false} EntryTells(files: Files, plan: Plan, i: nat)
    requires PlanFor(files, plan) && i < |plan.entries|
    ensures Fingerprint(Content(files, plan.entries[i].path)) == plan.entries[i].before
    ensures Fingerprint(Delivered(files, plan, plan.entries[i].path)) == plan.entries[i].installed
  {
    assert EntryFor(files, plan.payloads, plan.owned, plan.entries[i]);
  }

  lemma {:induction false} DigestTells(a: Option<string>, b: Option<string>)
    requires Fingerprint(a) == Fingerprint(b)
    ensures a == b
  {
  }

  /** A plan that still matches its preview changes exactly the content the preview was made from. */
  lemma {:induction false} PreviewBinds(
    files: Files, plan: Plan, files': Files, plan': Plan, complete: bool, complete': bool, path: string)
    requires PlanFor(files, plan) && PlanFor(files', plan') && Identify(complete, plan) == Identify(complete', plan')
    ensures path in PathsOf(plan.entries) <==> path in PathsOf(plan'.entries)
    ensures path in PathsOf(plan.entries) ==>
              && Content(files, path) == Content(files', path)
              && Delivered(files, plan, path) == Delivered(files', plan', path)
  {
    hide PlanFor, Delivered;
    if path in PathsOf(plan.entries) {
      var i, k := SharedEntry(plan.entries, plan'.entries, path);
      EntryTells(files, plan, i);
      EntryTells(files', plan', k);
      DigestTells(Content(files, path), Content(files', path));
      DigestTells(Delivered(files, plan, path), Delivered(files', plan', path));
    } else if path in PathsOf(plan'.entries) {
      var i, k := SharedEntry(plan'.entries, plan.entries, path);
    }
  }

  /** Rollback will accept every entry of a plan. */
  lemma {:induction false} PlanEntriesValid(files: Files, plan: Plan)
    requires PlanFor(files, plan)
    ensures forall i | 0 <= i < |plan.entries| :: EntryValid(plan.entries[i])
  {
    forall i | 0 <= i < |plan.entries| ensures EntryValid(plan.entries[i]) {
      assert EntryFor(files, plan.payloads, plan.owned, plan.entries[i]);
    }
  }

  /** The entries drafted so far, for the payloads gathered so far. */
  ghost predicate Draft(files: Files, payloads: Files, owned: map<string, Digest>, entries: seq<Entry>) {
    && Distinct(PathsOf(entries))
    && forall i | 0 <= i < |entries| :: EntryFor(files, payloads, owned, entries[i])
  }

  function WithPayload(payloads: Files, path: string, data: Option<string>): Files {
    if data.Some? then payloads[path := data.value] else payloads
  }

  lemma {:induction false} DraftEntry(
    files: Files, payloads: Files, data: Option<string>, owned: map<string, Digest>, entries: seq<Entry>, e: Entry)
    requires Draft(files, payloads, owned, entries) && e.path !in Elements(PathsOf(entries))
    requires EntryFor(files, WithPayload(payloads, e.path, data), owned, e)
    ensures Draft(files, WithPayload(payloads, e.path, data), owned, entries + [e])
    ensures Elements(PathsOf(entries + [e])) == Elements(PathsOf(entries)) + {e.path}
  {
    var payloads' := WithPayload(payloads, e.path, data);
    assert PathsOf(entries + [e]) == PathsOf(entries) + [e.path];
    forall i | 0 <= i < |entries| ensures EntryFor(files, payloads', owned, entries[i]) && entries[i].path != e.path {
      assert PathsOf(entries)[i] in Elements(PathsOf(entries));
      assert EntryFor(files, payloads, owned, entries[i]);
    }
    hide EntryFor;
    assert forall x :: x in PathsOf(entries) + [e.path] <==> x in PathsOf(entries) || x == e.path;
  }

  lemma {:induction false} NextPlanned(planned: seq<Planned>, update: bool, i: nat)
    requires i < |planned| && Distinct(PlannedPaths(planned))
    ensures planned[i].path !in Payloads(planned[..i], update)
    ensures Payloads(planned[..i + 1], update)
         == if update && !PackageMember(planned[i].path) then Payloads(planned[..i], update)
            else Payloads(planned[..i], update)[planned[i].path := planned[i].data]
  {
    assert planned[..i + 1][..i] == planned[..i];
    forall k | 0 <= k < i ensures PlannedPaths(planned[..i])[k] != planned[i].path {
      assert PlannedPaths(planned)[k] != PlannedPaths(planned)[i];
    }
  }

  datatype Request = Request(planned: seq<Planned>, complete: bool, update: bool)

  lemma {:induction false} TopRecoverable(layers: seq<Layer>, files: Files, backups: seq<Backup>)
    requires Stack(layers, files, backups) && layers != []
    ensures layers[|layers| - 1].backup < |backups|
    ensures Recoverable(layers[|layers| - 1].before, files, backups[layers[|layers| - 1].backup])
  {
    hide Recoverable;
    assert After(layers, files, |layers| - 1) == files;
  }

  /** The backups of the layers, in their order. */
  ghost predicate Listed(indexes: seq<nat>, layers: seq<Layer>) {
    |indexes| == |layers| && forall i | 0 <= i < |layers| :: indexes[i] == layers[i].backup
  }

  /** A rollback of the top layer that did not finish leaves a stack of the same layers. */
  lemma {:induction false} KeepLayers(
    layers: seq<Layer>, files: Files, backups: seq<Backup>, files': Files, backups': seq<Backup>)
    requires Stack(layers, files, backups) && layers != []
    requires var b := layers[|layers| - 1].backup;
      && OnlyManifest(backups, backups', b)
      && Recoverable(layers[|layers| - 1].before, files', backups'[b])
    ensures Stack(layers, files', backups')
  {
    hide Recoverable;
    forall i | 0 <= i < |layers|
      ensures Recoverable(layers[i].before, After(layers, files', i), backups'[layers[i].backup])
    {
      if i < |layers| - 1 { assert After(layers, files', i) == After(layers, files, i); }
    }
  }

  /** The stack after an installation that got as far as a backup. */
  lemma {:induction false} NextLayer(layers: seq<Layer>, before: Files, backups: seq<Backup>, files: Files, b: Backup)
    returns (stack: seq<Layer>)
    requires Stack(layers, before, backups) && WriteAhead(before, files, b)
    ensures Stack(stack, files, backups + [b]) && layers <= stack
    ensures b.manifest.Some? ==> stack == layers + [Layer(|backups|, before)]
    ensures b.manifest.None? ==> stack == layers && files == before
  {
    hide Recoverable;
    if b.manifest.Some? {
      WriteAheadIsRecoverable(before, files, b);
      PushLayer(layers, before, backups, files, b);
      stack := layers + [Layer(|backups|, before)];
    } else {
      stack := layers;
    }
  }

  /** Between two states only the manifest of one backup has changed. */
  ghost predicate OnlyManifest(old_: seq<Backup>, now: seq<Backup>, b: nat) {
    && |now| == |old_| && b < |now| && now[b].copies == old_[b].copies
    && forall k | 0 <= k < |now| && k != b :: now[k] == old_[k]
  }

  /** Every member still has the content it had when the entries were made. */
  ghost predicate AsBefore(files: Files, entries: seq<Entry>) {
    forall i | 0 <= i < |entries| :: entries[i].before == Fingerprint(Content(files, entries[i].path))
  }

  /** The saved manifest of this installation is ahead of the files. */
  ghost predicate SavedAhead(original: Files, files: Files, m: Manifest, backups: seq<Backup>, b: nat) {
    && b < |backups| && backups[b].manifest.Some? && SameInstall(backups[b].manifest.value, m)
    && Ahead(original, files, backups[b].manifest.value)
  }

  ghost predicate SameInstall(m: Manifest, n: Manifest) {
    m.entries == n.entries && m.complete == n.complete && m.updateFrom == n.updateFrom && m.attempts == n.attempts
  }

  /** The manifest in memory after `i` members. */
  ghost predicate Reached(original: Files, files: Files, m: Manifest, i: nat) {
    && i <= |m.entries| && m.applied == PathsOf(m.entries[..i]) && m.pending.None? && PhaseFits(m)
    && Stage(original, files, m.entries, i)
  }

  lemma {:induction false} Declared(original: Files, files: Files, m: Manifest)
    requires Distinct(PathsOf(m.entries)) && Reached(original, files, m, |m.entries|)
    ensures Reached(original, files, m.(phase := Applied), |m.entries|)
    ensures Ahead(original, files, m) && Ahead(original, files, m.(phase := Applied))
  {
    hide Ahead, Stage, Distinct;
    assert m.entries[..|m.entries|] == m.entries;
    StageAhead(original, files, m, |m.entries|);
    StageAhead(original, files, m.(phase := Applied), |m.entries|);
  }

  lemma {:induction false} OneMorePath(entries: seq<Entry>, i: nat)
    requires i < |entries|
    ensures PathsOf(entries[..i + 1]) == PathsOf(entries[..i]) + [entries[i].path]
  {
  }

  lemma {:induction false} DeliverableData(e: Entry, payloads: Files)
    requires Deliverable(e, payloads)
    ensures e.delete || e.path in payloads
    ensures Fingerprint(if e.delete then None else Some(payloads[e.path])) == e.installed
  {
  }

  lemma {:induction false} AheadInterrupted(original: Files, files: Files, m: Manifest)
    requires Ahead(original, files, m)
    ensures Ahead(original, files, m.(phase := Interrupted))
  {
  }

  /** The manifest an update was planned from is still the one on disk. */
  predicate OriginStands(backups: seq<Backup>, from: Option<Origin>) {
    from.None? || (from.value.backup < |backups| && backups[from.value.backup].manifest == Some(from.value.manifest))
  }

  /** The new backup says that its installation was interrupted. */
  predicate LeftInterrupted(earlier: seq<Backup>, backups: seq<Backup>) {
    && |backups| > |earlier| && backups[|earlier|].manifest.Some?
    && backups[|earlier|].manifest.value.phase.Interrupted?
  }

  /** The plan is delivered everywhere, and its manifest says so. */
  ghost predicate FullyApplied(original: Files, files: Files, plan: Plan, complete: bool, b: Backup) {
    && b.manifest.Some? && b.manifest.value.entries == plan.entries && b.manifest.value.complete == complete
    && b.manifest.value.phase.Applied? && b.manifest.value.applied == PathsOf(plan.entries)
    && b.manifest.value.updateFrom == plan.updateFrom && b.manifest.value.attempts == []
    && forall path :: Content(files, path) == Delivered(original, plan, path)
  }

  /** All members of a plan delivered is the plan delivered everywhere. */
  lemma {:induction false} StageDelivers(previewed: Files, original: Files, files: Files, plan: Plan)
    requires PlanFor(previewed, plan) && Stage(original, files, plan.entries, |plan.entries|)
    ensures forall path :: Content(files, path) == Delivered(original, plan, path)
  {
    forall path ensures Content(files, path) == Delivered(original, plan, path) {
      if path in PathsOf(plan.entries) {
        var i :| 0 <= i < |plan.entries| && PathsOf(plan.entries)[i] == path;
        assert EntryFor(previewed, plan.payloads, plan.owned, plan.entries[i]);
        assert Fingerprint(Content(files, path)) == plan.entries[i].installed;
      } else {
        assert path !in Elements(PathsOf(plan.entries));
      }
    }
  }

  lemma {:induction false} PlanDeliverable(files: Files, plan: Plan)
    requires PlanFor(files, plan)
    ensures forall i | 0 <= i < |plan.entries| :: Deliverable(plan.entries[i], plan.payloads)
  {
    forall i | 0 <= i < |plan.entries| ensures Deliverable(plan.entries[i], plan.payloads) {
      assert EntryFor(files, plan.payloads, plan.owned, plan.entries[i]);
    }
  }

  lemma {:induction false} Prepare(original: Files, plan: Plan, copies: Files, m: Manifest)
    requires plan.entries != [] && Distinct(PathsOf(plan.entries)) && AsBefore(original, plan.entries)
    requires forall i | 0 <= i < |plan.entries| :: EntryValid(plan.entries[i]) && CopyHolds(copies, plan.entries[i])
    requires m.entries == plan.entries && m.applied == [] && m.pending.None? && m.phase.Prepared?
    ensures Inventory(original, m.entries, copies) && Reached(original, original, m, 0) && Ahead(original, original, m)
  {
    hide Ahead, EntryValid, CopyHolds;
    assert PathsOf(m.entries[..0]) == [];
    StageAhead(original, original, m, 0);
  }

  lemma {:induction false} PlanAsBefore(files: Files, plan: Plan)
    requires PlanFor(files, plan)
    ensures AsBefore(files, plan.entries)
  {
    forall i | 0 <= i < |plan.entries|
      ensures plan.entries[i].before == Fingerprint(Content(files, plan.entries[i].path))
    {
      assert EntryFor(files, plan.payloads, plan.owned, plan.entries[i]);
    }
  }

  // ---------------------------------------------------------------- rolling back

  /** The manifest and its latest attempt say that a rollback was interrupted. */
  predicate SaysInterrupted(b: Backup) {
    && b.manifest.Some? && b.manifest.value.phase.RollbackInterrupted? && b.manifest.value.attempts != []
    && Latest(b.manifest.value).phase.RollbackInterrupted?
  }

  /** An entry rollback may restore: its copy is sound, and its member holds a content rollback knows. */
  predicate Restorable(files: Files, e: Entry, copies: Files) {
    EntryValid(e) && CopyHolds(copies, e) && Fingerprint(Content(files, e.path)) in [e.before, e.installed]
  }

  predicate AllRestorable(files: Files, entries: seq<Entry>, copies: Files) {
    forall i | 0 <= i < |entries| :: Restorable(files, entries[i], copies)
  }

  /** Some member or copy is not what the inventory knows. */
  predicate Blocked(files: Files, b: Backup) {
    b.manifest.Some? && !AllRestorable(files, b.manifest.value.entries, b.copies)
  }

  lemma {:induction false} NothingBlocks(files: Files, b: Backup)
    ensures Blocked(files, b) ==> forall original :: !Recoverable(original, files, b)
  {
    forall original | Recoverable(original, files, b) ensures !Blocked(files, b) {
      var entries := b.manifest.value.entries;
      forall i | 0 <= i < |entries| ensures Restorable(files, entries[i], b.copies) {
        assert EntryValid(entries[i]) && CopyHolds(b.copies, entries[i]);
        assert Fingerprint(Content(files, entries[i].path)) in [entries[i].before, entries[i].installed];
      }
    }
  }

  lemma {:induction false} StillRecoverable(start: Files, files: Files, b: Backup, b': Backup)
    requires b.manifest.Some? && b'.manifest.Some? && b'.manifest.value.entries == b.manifest.value.entries
    requires b'.copies == b.copies
    requires RolledTo(start, files, b.manifest.value.entries)
    ensures forall original | Recoverable(original, start, b) :: Recoverable(original, files, b')
    ensures SameOutside(start, files, b.manifest.value.entries)
  {
    var i: nat :| i <= |b.manifest.value.entries| && Back(start, files, b.manifest.value.entries, i);
    forall original | Recoverable(original, start, b) ensures Recoverable(original, files, b') {
      BackIsRecoverable(original, start, files, b, i);
    }
  }

  lemma {:induction false} FilesReturn(start: Files, files: Files, b: Backup)
    requires b.manifest.Some? && Back(start, files, b.manifest.value.entries, 0)
    ensures forall original | Recoverable(original, start, b) :: files == original
  {
    forall original | Recoverable(original, start, b)
      ensures files == original
    { BackIsOriginal(original, start, files, b); }
  }

  function Latest(m: Manifest): Attempt
    requires m.attempts != []
  {
    m.attempts[|m.attempts| - 1]
  }

  /** The manifest with its latest attempt as it is now; its phase is the attempt's. */
  function WithLatest(m: Manifest, a: Attempt): (r: Manifest)
    requires m.attempts != []
    ensures r.attempts != [] && Latest(r) == a && r.phase == a.phase && SameRollback(r, m)
  {
    m.(attempts := m.attempts[|m.attempts| - 1 := a], phase := a.phase)
  }

  predicate SameRollback(m: Manifest, n: Manifest) {
    && m.entries == n.entries && m.complete == n.complete && m.updateFrom == n.updateFrom
    && m.applied == n.applied && m.pending == n.pending
    && |m.attempts| == |n.attempts| > 0 && m.attempts[..|m.attempts| - 1] == n.attempts[..|n.attempts| - 1]
  }

  /** The attempt in memory: handled exactly from `i` on, and the files agree. */
  ghost predicate BackAt(start: Files, files: Files, entries: seq<Entry>, a: Attempt, i: nat) {
    a.phase.RollingBack? && a.pending.None? && Back(start, files, entries, i) && Handled(start, entries, a, i)
  }

  /** The saved attempt is ahead of the files. */
  ghost predicate SavedAttempt(start: Files, files: Files, m: Manifest, backups: seq<Backup>, b: nat) {
    && b < |backups| && backups[b].manifest.Some? && SameRollback(backups[b].manifest.value, m)
    && backups[b].manifest.value.phase == Latest(backups[b].manifest.value).phase
    && AttemptAhead(start, files, m.entries, Latest(backups[b].manifest.value))
  }

  lemma {:induction false} AnnouncedHandled(
      start: Files, entries: seq<Entry>, a: Attempt, pending: Option<string>, i: nat)
    requires Handled(start, entries, a, i)
    ensures Handled(start, entries, a.(pending := pending), i)
  {
  }

  /** Whose attempt it is in memory does not matter to what is saved. */
  lemma {:induction false} SavedSame(start: Files, files: Files, m: Manifest, n: Manifest, backups: seq<Backup>, b: nat)
    requires SavedAttempt(start, files, m, backups, b) && (SameRollback(m, n) || SameRollback(n, m))
    ensures SavedAttempt(start, files, n, backups, b)
  {
    hide AttemptAhead;
  }

  lemma {:induction false} SavedNow(start: Files, files: Files, m: Manifest, n: Manifest, backups: seq<Backup>, b: nat)
    requires b < |backups| && backups[b].manifest == Some(m) && SameRollback(m, n) && m.attempts != []
    requires m.phase == Latest(m).phase
    requires AttemptAhead(start, files, m.entries, Latest(m))
    ensures SavedAttempt(start, files, n, backups, b)
  {
    hide AttemptAhead;
  }

  lemma {:induction false} OnlyCopies(old_: seq<Backup>, now: seq<Backup>, b: nat)
    requires b < |old_| && OnlyManifest(old_, now, b)
    ensures b < |now| && now[b].copies == old_[b].copies
  {
  }

  lemma {:induction false} OnlyTwice(a: seq<Backup>, b: seq<Backup>, c: seq<Backup>, k: nat)
    requires OnlyManifest(a, b, k) && OnlyManifest(b, c, k)
    ensures OnlyManifest(a, c, k)
  {
  }

  lemma {:induction false} SameItself(m: Manifest)
    requires m.attempts != []
    ensures SameRollback(m, m)
  {
  }

  lemma {:induction false} SomeAttempt(m: Manifest, n: Manifest)
    requires SameRollback(m, n)
    ensures m.attempts != [] && m.entries == n.entries
  {
  }

  lemma {:induction false} SameTwice(m: Manifest, n: Manifest, k: Manifest)
    requires SameRollback(m, n) && SameRollback(n, k)
    ensures SameRollback(m, k) && m.attempts != [] && m.entries == k.entries
  {
  }

  lemma {:induction false} AttemptInterrupted(start: Files, files: Files, entries: seq<Entry>, a: Attempt)
    requires AttemptAhead(start, files, entries, a)
    ensures AttemptAhead(start, files, entries, a.(phase := RollbackInterrupted))
  {
  }

  lemma {:induction false} AttemptEnds(start: Files, files: Files, entries: seq<Entry>, a: Attempt)
    requires Distinct(PathsOf(entries)) && BackAt(start, files, entries, a, 0)
    ensures AttemptAhead(start, files, entries, a.(phase := RolledBack))
  {
    hide AttemptAhead, Back, Distinct;
    BackAhead(start, files, entries, a.(phase := RolledBack), 0);
  }

  lemma {:induction false} AttemptStarts(start: Files, entries: seq<Entry>)
    ensures AttemptAhead(start, start, entries, Attempt(RollingBack, [], [], None))
    ensures Handled(start, entries, Attempt(RollingBack, [], [], None), |entries|)
  {
  }

  lemma {:induction false} StartSaved(start: Files, m: Manifest, backups: seq<Backup>, b: nat)
    requires b < |backups| && backups[b].manifest == Some(m) && m.attempts != []
    requires Latest(m) == Attempt(RollingBack, [], [], None) && m.phase.RollingBack?
    ensures SavedAttempt(start, start, m, backups, b) && BackAt(start, start, m.entries, Latest(m), |m.entries|)
  {
    AttemptStarts(start, m.entries);
    BackStarts(start, m.entries);
    SameItself(m);
  }

  lemma {:induction false} RestorableCopies(files: Files, entries: seq<Entry>, copies: Files)
    requires AllRestorable(files, entries, copies)
    ensures forall i | 0 <= i < |entries| :: CopyHolds(copies, entries[i])
  {
  }

  /** Rollback stands between two members. */
  ghost predicate RolledTo(start: Files, files: Files, entries: seq<Entry>) {
    exists i: nat :: i <= |entries| && Back(start, files, entries, i)
  }

  lemma {:induction false} RolledHere(start: Files, files: Files, entries: seq<Entry>, i: nat)
    requires i <= |entries| && Back(start, files, entries, i)
    ensures RolledTo(start, files, entries)
  {
  }

  lemma {:induction false} RolledEither(start: Files, files: Files, entries: seq<Entry>, i: nat)
    requires 0 < i <= |entries| && (Back(start, files, entries, i) || Back(start, files, entries, i - 1))
    ensures RolledTo(start, files, entries)
  {
  }

  lemma {:induction false} BackHere(start: Files, files: Files, entries: seq<Entry>, i: nat)
    requires i <= |entries| && Back(start, files, entries, i)
    ensures i < |entries| ==> Fingerprint(Content(files, entries[i].path)) == entries[i].before
    ensures 0 < i ==>
      Fingerprint(Content(files, entries[i - 1].path)) == Fingerprint(Content(start, entries[i - 1].path))
  {
  }

  lemma {:induction false} CopyData(copies: Files, e: Entry)
    requires CopyHolds(copies, e)
    ensures e.before.Some? ==> e.path in copies
    ensures Fingerprint(if e.path in copies && e.before.Some? then Some(copies[e.path]) else None) == e.before
  {
  }

  /** What applying an entry writes has the digest the entry records. */
  ghost predicate Deliverable(e: Entry, payloads: Files) {
    if e.delete then e.installed.None? else e.path in payloads && e.installed == Some(Sha256(payloads[e.path]))
  }

  lemma {:induction false} CopyKept(copies: Files, entries: seq<Entry>, i: nat, data: string)
    requires i < |entries| && Distinct(PathsOf(entries)) && entries[i].before == Some(Sha256(data))
    requires forall j | 0 <= j < i :: CopyHolds(copies, entries[j])
    ensures forall j | 0 <= j <= i :: CopyHolds(copies[entries[i].path := data], entries[j])
  {
    forall j | 0 <= j < i ensures CopyHolds(copies[entries[i].path := data], entries[j]) {
      assert PathsOf(entries)[j] != PathsOf(entries)[i];
      assert CopyHolds(copies, entries[j]);
    }
  }

  lemma {:induction false} DeliverEntry(files: Files, payloads: Files, owned: map<string, Digest>, e: Entry)
    requires e.before == Fingerprint(Content(files, e.path))
    requires e.path in payloads ==> !e.delete && e.installed == Some(Sha256(payloads[e.path]))
    requires e.path !in payloads ==> e.delete && e.installed.None? && e.path in owned
    ensures EntryFor(files, payloads, owned, e)
  {
  }

  lemma {:induction false} DraftIsPlan(files: Files, planned: seq<Planned>, update: bool, plan: Plan)
    requires Draft(files, plan.payloads, plan.owned, plan.entries) && plan.payloads == Payloads(planned, update)
    requires Elements(PathsOf(plan.entries)) == plan.payloads.Keys + plan.owned.Keys
    requires if update then plan.owned != map[] else planned != [] && plan.owned == map[]
    requires forall path | path in plan.owned ::
      PackageMember(path) && Fingerprint(Content(files, path)) == Some(plan.owned[path])
    requires update ==> forall path | path in plan.payloads && path in files :: path in plan.owned
    ensures PlanFor(files, plan) && (update ==> UpdatesOwnOnly(files, plan))
  {
    hide EntryFor;
    if update {
      var path :| path in plan.owned;
      assert path in Elements(PathsOf(plan.entries));
    } else {
      assert planned[|planned| - 1].path in plan.payloads;
      assert planned[|planned| - 1].path in Elements(PathsOf(plan.entries));
    }
    forall path | path in plan.owned && path in files ensures plan.owned[path] == Sha256(files[path]) {
      assert Fingerprint(Content(files, path)) == Some(plan.owned[path]);
    }
  }

  /** Over its baseline, an update can be planned exactly when every member it would replace is owned. */
  lemma {:induction false} UpdatePlannable(
      files: Files, backups: seq<Backup>, planned: seq<Planned>, complete: bool, owned: map<string, Digest>,
      from: Origin)
    requires complete && IsBaseline(backups, from.backup) && backups[from.backup].manifest == Some(from.manifest)
    requires OwnedBy(owned, files, from.manifest.entries) && Unmodified(files, from.manifest.entries)
    ensures Plannable(files, backups, planned, complete, true) <==>
      forall i | 0 <= i < |planned| && PackageMember(planned[i].path) && planned[i].path in files ::
        planned[i].path in owned
  {
    hide Unmodified, IsBaseline, OwnedBy, OwnsPath;
    forall i | 0 <= i < |planned|
      ensures planned[i].path in owned <==> OwnsPath(from.manifest.entries, planned[i].path)
    {
      OwnedOwns(owned, files, from.manifest.entries, planned[i].path);
    }
    forall b: nat | IsBaseline(backups, b) ensures b == from.backup { OneBaseline(backups, b, from.backup); }
  }

  lemma {:induction false} PlannedIsOwned(
      files: Files, planned: seq<Planned>, owned: map<string, Digest>, payloads: Files)
    requires payloads == Payloads(planned, true) && Distinct(PlannedPaths(planned))
    requires forall path | path in payloads && path in files :: path in owned
    ensures forall i | 0 <= i < |planned| && PackageMember(planned[i].path) && planned[i].path in files ::
      planned[i].path in owned
  {
    PayloadsAre(planned, true);
    hide Payloads, PackageMember, Distinct;
  }

  lemma {:induction false} OnlyUpdatesNeedMore(
      files: Files, backups: seq<Backup>, planned: seq<Planned>, complete: bool)
    ensures Plannable(files, backups, planned, complete, false)
  {
  }

  lemma {:induction false} NotPlannable(
      files: Files, backups: seq<Backup>, planned: seq<Planned>, complete: bool)
    requires !complete
      || !exists b: nat :: IsBaseline(backups, b) && Unmodified(files, backups[b].manifest.value.entries)
    ensures !Plannable(files, backups, planned, complete, true)
  {
    hide IsBaseline, Unmodified, ReplacesOwn;
  }

  /** Only the latest backup that is complete and not rolled back can be a baseline. */
  lemma {:induction false} OnlyBaseline(backups: seq<Backup>, b: nat)
    requires b < |backups|
    requires forall k | b < k < |backups| ::
               backups[k].manifest.Some? &&
                 (!backups[k].manifest.value.complete || backups[k].manifest.value.phase.RolledBack?)
    ensures forall c: nat | IsBaseline(backups, c) :: c <= b
    ensures backups[b].manifest.None? ==> forall c: nat :: !IsBaseline(backups, c)
    ensures forall c: nat | IsBaseline(backups, c) :: Standing(backups[b]) ==> c == b
  {
  }

  lemma {:induction false} SeenOrNew(entries: seq<Entry>, i: nat)
    requires i < |entries| && Distinct(PathsOf(entries[..i]))
    ensures entries[i].path in PathsOf(entries[..i]) ==> !Distinct(PathsOf(entries))
    ensures entries[i].path !in PathsOf(entries[..i]) ==> Distinct(PathsOf(entries[..i + 1]))
  {
    assert PathsOf(entries[..i + 1]) == PathsOf(entries[..i]) + [entries[i].path];
    if entries[i].path in PathsOf(entries[..i]) {
      var k :| 0 <= k < i && PathsOf(entries[..i])[k] == entries[i].path;
      assert PathsOf(entries)[k] == PathsOf(entries)[i];
    }
  }

  lemma {:induction false} OwnNext(owned: map<string, Digest>, files: Files, entries: seq<Entry>, i: nat)
    requires i < |entries| && OwnedBy(owned, files, entries[..i]) && Owning(entries[i]) && entries[i].installed.Some?
    requires Fingerprint(Content(files, entries[i].path)) == entries[i].installed
    requires Distinct(PathsOf(entries[..i + 1]))
    ensures OwnedBy(owned[entries[i].path := entries[i].installed.value], files, entries[..i + 1])
  {
    var owned' := owned[entries[i].path := entries[i].installed.value];
    var less, more := entries[..i], entries[..i + 1];
    assert forall k | 0 <= k < i :: more[k] == less[k];
    forall path | path in owned' ensures exists k :: 0 <= k < |more| && Owning(more[k]) && more[k].path == path {
      if path == entries[i].path {
        assert more[i] == entries[i];
      } else {
        var k :| 0 <= k < i && Owning(less[k]) && less[k].path == path;
        assert more[k] == less[k];
      }
    }
    forall k | 0 <= k < |more| && Owning(more[k])
      ensures more[k].path in owned' && more[k].installed == Some(owned'[more[k].path])
    {
      if k < i {
        assert more[k] == less[k];
        assert PathsOf(more)[k] != PathsOf(more)[i];
      }
    }
  }

  lemma {:induction false} OwnSkip(owned: map<string, Digest>, files: Files, entries: seq<Entry>, i: nat)
    requires i < |entries| && OwnedBy(owned, files, entries[..i]) && !Owning(entries[i])
    ensures OwnedBy(owned, files, entries[..i + 1])
  {
    var less, more := entries[..i], entries[..i + 1];
    assert forall k | 0 <= k < i :: more[k] == less[k];
    forall path | path in owned ensures exists k :: 0 <= k < |more| && Owning(more[k]) && more[k].path == path {
      var k :| 0 <= k < i && Owning(less[k]) && less[k].path == path;
      assert more[k] == less[k];
    }
  }

  /** What becomes of a plan: refused if another one was previewed, shown, refused under a lock, or carried out. */
  predicate Goes(locked: bool, apply: bool, wanted: Option<PlanId>, id: PlanId, r: Outcome) {
    if wanted.Some? && (!apply || wanted.value != id) then r == Refused(PlanDiffers)
    else if !apply then r == Preview(id)
    else if locked then r == Refused(Locked)
    else r.Finished? || r.Failed? || r.Died?
  }

  // ---------------------------------------------------------------- the project

  class Project {
    var files: Files
    var lock: bool
    var backups: seq<Backup>
    var clock: nat
    const fate: nat -> Fate

    constructor (files: Files, fate: nat -> Fate)
      ensures this.files == files && !lock && backups == [] && clock == 0 && this.fate == fate
    {
      this.files, lock, backups, clock, this.fate := files, false, [], 0, fate;
    }

    /** From here on every effect completes. */
    ghost predicate Calm()
      reads `clock
    {
      forall t: nat | t >= clock :: fate(t).Done?
    }

    /** Only effects before the `n`-th can go wrong. */
    ghost predicate CalmFrom(n: nat) {
      forall t: nat | t >= n :: fate(t).Done?
    }

    /** Effects past the last that can go wrong complete. */
    lemma {:induction false} StillCalm(failed: nat)
      requires clock >= failed
      ensures CalmFrom(failed) ==> Calm()
    {
    }

    /** Of the effects since the `from`-th, the last one and no other was the death of the process, if it died. */
    ghost predicate DiedSince(from: nat, died: bool)
      reads `clock
    {
      && from <= clock && (died ==> from < clock)
      && forall k | from <= k < clock :: fate(k).Crash? <==> died && k == clock - 1
    }

    // -------------------------------------------------------------- single effects

    /** `atomic_write` on a member, or `unlink` when there is no data. */
    method Change(path: string, data: Option<string>) returns (s: Signal)
      modifies `files, `clock
      ensures files == if TakesPlace(fate(old(clock))) then Put(old(files), path, data) else old(files)
      ensures clock == old(clock) + 1 && s == Seen(fate(old(clock))) && DiedSince(old(clock), s.Crashed?)
      ensures old(Calm()) ==> s.Completed? && Calm()
    {
      var f := fate(clock);
      clock := clock + 1;
      if f.Done? || f.FailAfter? { files := Put(files, path, data); }
      s := if f.Done? then Completed else if f.Crash? then Crashed else Raised;
    }

    /** `save_manifest` */
    method Save(b: nat, m: Manifest) returns (s: Signal)
      requires b < |backups|
      modifies `backups, `clock
      ensures backups ==
        if TakesPlace(fate(old(clock)))
        then old(backups)[b := Backup(Some(m), old(backups)[b].copies)] else old(backups)
      ensures clock == old(clock) + 1 && s == Seen(fate(old(clock))) && DiedSince(old(clock), s.Crashed?)
      ensures old(Calm()) ==> s.Completed? && Calm()
    {
      var f := fate(clock);
      clock := clock + 1;
      if f.Done? || f.FailAfter? { backups := backups[b := Backup(Some(m), backups[b].copies)]; }
      s := if f.Done? then Completed else if f.Crash? then Crashed else Raised;
    }

    method SaveCopy(b: nat, path: string, data: string) returns (s: Signal)
      requires b < |backups|
      modifies `backups, `clock
      ensures backups ==
        if TakesPlace(fate(old(clock)))
        then old(backups)[b := Backup(old(backups)[b].manifest, old(backups)[b].copies[path := data])]
        else old(backups)
      ensures clock == old(clock) + 1 && s == Seen(fate(old(clock))) && DiedSince(old(clock), s.Crashed?)
      ensures old(Calm()) ==> s.Completed? && Calm()
    {
      var f := fate(clock);
      clock := clock + 1;
      if f.Done? || f.FailAfter? {
        backups := backups[b := Backup(backups[b].manifest, backups[b].copies[path := data])];
      }
      s := if f.Done? then Completed else if f.Crash? then Crashed else Raised;
    }

    method NewBackup() returns (s: Signal)
      modifies `backups, `clock
      ensures backups == old(backups) + if TakesPlace(fate(old(clock))) then [Backup(None, map[])] else []
      ensures clock == old(clock) + 1 && s == Seen(fate(old(clock))) && DiedSince(old(clock), s.Crashed?)
      ensures old(Calm()) ==> s.Completed? && Calm()
    {
      var f := fate(clock);
      clock := clock + 1;
      if f.Done? || f.FailAfter? { backups := backups + [Backup(None, map[])]; }
      s := if f.Done? then Completed else if f.Crash? then Crashed else Raised;
    }

    /** The exclusive creation of the lock file; a failure after it was created leaves it behind. */
    method TakeLock() returns (s: Signal)
      requires !lock
      modifies `lock, `clock
      ensures lock <==> TakesPlace(fate(old(clock)))
      ensures clock == old(clock) + 1 && s == Seen(fate(old(clock))) && DiedSince(old(clock), s.Crashed?)
      ensures old(Calm()) ==> s.Completed? && Calm()
    {
      var f := fate(clock);
      clock := clock + 1;
      lock := f.Done? || f.FailAfter?;
      s := if f.Done? then Completed else if f.Crash? then Crashed else Raised;
    }

    /** The end of the locked section: a process that died never gets here. */
    method ReleaseLock(r: Outcome) returns (r': Outcome)
      requires lock
      modifies `lock, `clock
      ensures r.Died? ==> r' == r && lock && clock == old(clock)
      ensures !r.Died? ==> clock == old(clock) + 1 && (lock <==> !TakesPlace(fate(old(clock))))
      ensures !r.Died? ==> r' == match fate(old(clock)) case Done => r case Crash => Died case _ => Failed
      ensures old(Calm()) && !r.Died? ==> r' == r && Calm() && !lock
    {
      if r.Died? { return r; }
      var f := fate(clock);
      clock := clock + 1;
      lock := !(f.Done? || f.FailAfter?);
      r' := if f.Done? then r else if f.Crash? then Died else Failed;
    }

    /** An operator removes the lock of a process that is known to be gone. */
    method RemoveStaleLock()
      modifies `lock
      ensures !lock
    {
      lock := false;
    }

    // -------------------------------------------------------------- update baseline

    /** The owned members recorded by a manifest, checked against the files. */
    method Owned(entries: seq<Entry>) returns (r: Result<map<string, Digest>, Refusal>)
      ensures r.Ok? <==> Unmodified(files, entries)
      ensures r.Ok? ==> OwnedBy(r.value, files, entries)
    {
      var owned: map<string, Digest>, i := map[], 0;
      while i < |entries|
        invariant 0 <= i <= |entries|
        invariant Distinct(PathsOf(entries[..i]))
        invariant forall k | 0 <= k < i && Owning(entries[k]) ::
                    entries[k].installed.Some? && Fingerprint(Content(files, entries[k].path)) == entries[k].installed
        invariant OwnedBy(owned, files, entries[..i])
      {
        var e := entries[i];
        SeenOrNew(entries, i);
        if e.path in PathsOf(entries[..i]) { return Err(DuplicateMember); }
        if Owning(e) {
          if e.installed.None? { return Err(InvalidMember(e.path)); }
          if Fingerprint(Content(files, e.path)) != e.installed { return Err(LocalChange(e.path)); }
          OwnNext(owned, files, entries, i);
          owned := owned[e.path := e.installed.value];
        } else {
          OwnSkip(owned, files, entries, i);
        }
        i := i + 1;
      }
      assert entries[..i] == entries;
      if owned == map[] {
        assert forall k | 0 <= k < |entries| :: !Owning(entries[k]);
        return Err(NoOwnedMembers);
      }
      ghost var path :| path in owned;
      r := Ok(owned);
    }

    /** `update_baseline` */
    method UpdateBaseline() returns (r: Result<(map<string, Digest>, Origin), Refusal>)
      ensures r.Ok? <==> exists b: nat :: IsBaseline(backups, b) && Unmodified(files, backups[b].manifest.value.entries)
      ensures r.Ok? ==>
                && IsBaseline(backups, r.value.1.backup) && Unmodified(files, r.value.1.manifest.entries)
                && backups[r.value.1.backup].manifest == Some(r.value.1.manifest)
                && OwnedBy(r.value.0, files, r.value.1.manifest.entries) && r.value.0 != map[]
    {
      var b := |backups|;
      while b > 0
        invariant 0 <= b <= |backups|
        invariant forall k | b <= k < |backups| ::
                    backups[k].manifest.Some? &&
                      (!backups[k].manifest.value.complete || backups[k].manifest.value.phase.RolledBack?)
      {
        b := b - 1;
        OnlyBaseline(backups, b);
        if backups[b].manifest.None? { return Err(UnresolvedHistory); }
        var m := backups[b].manifest.value;
        if m.complete && !m.phase.RolledBack? {
          if !m.phase.Applied? { return Err(UnresolvedHistory); }
          assert IsBaseline(backups, b);
          var owned := Owned(m.entries);
          if owned.Err? { return Err(owned.error); }
          ghost var i :| 0 <= i < |m.entries| && Owning(m.entries[i]);
          assert m.entries[i].path in owned.value;
          return Ok((owned.value, Origin(b, m)));
        }
      }
      r := Err(NoBaseline);
    }

    // -------------------------------------------------------------- planning

    /** The members to deliver, as `planned_files` lists them, with what an update must not replace. */
    method DraftPlanned(planned: seq<Planned>, update: bool, owned: map<string, Digest>)
      returns (r: Result<(seq<Entry>, Files), Refusal>)
      requires Distinct(PlannedPaths(planned))
      ensures r.Ok? ==> r.value.1 == Payloads(planned, update) && Draft(files, r.value.1, owned, r.value.0)
      ensures r.Ok? ==> Elements(PathsOf(r.value.0)) == r.value.1.Keys
      ensures r.Ok? && update ==> forall path | path in r.value.1 && path in files :: path in owned
      ensures r.Err? ==> update && exists i ::
        0 <= i < |planned| && PackageMember(planned[i].path) && planned[i].path in files && planned[i].path !in owned
        && r.error == UnownedFile(planned[i].path)
    {
      var entries: seq<Entry>, payloads: Files, i := [], map[], 0;
      assert Draft(files, payloads, owned, entries) && payloads == Payloads(planned[..0], update);
      hide EntryFor, Draft, Payloads, Distinct, PackageMember, Content;
      while i < |planned|
        invariant 0 <= i <= |planned| && payloads == Payloads(planned[..i], update)
        invariant Draft(files, payloads, owned, entries) && Elements(PathsOf(entries)) == payloads.Keys
        invariant update ==> forall path | path in payloads && path in files :: path in owned
      {
        var path, data := planned[i].path, planned[i].data;
        NextPlanned(planned, update, i);
        if !update || PackageMember(path) {
          if update && path !in owned && path in files { return Err(UnownedFile(path)); }
          var e := Entry(path, Fingerprint(Content(files, path)), Some(Sha256(data)), false);
          assert EntryFor(files, payloads[path := data], owned, e) by {
            DeliverEntry(files, payloads[path := data], owned, e);
          }
          DraftEntry(files, payloads, Some(data), owned, entries, e);
          entries, payloads := entries + [e], payloads[path := data];
        }
        i := i + 1;
      }
      assert planned[..i] == planned;
      r := Ok((entries, payloads));
    }

    /** The owned members that are no longer delivered, to be deleted in name order. */
    method DraftObsolete(entries: seq<Entry>, payloads: Files, owned: map<string, Digest>) returns (all: seq<Entry>)
      requires Draft(files, payloads, owned, entries) && Elements(PathsOf(entries)) == payloads.Keys
      requires forall path | path in owned :: Fingerprint(Content(files, path)) == Some(owned[path])
      ensures Draft(files, payloads, owned, all) && Elements(PathsOf(all)) == payloads.Keys + owned.Keys
    {
      var obsolete := Sorted(owned.Keys - payloads.Keys);
      all := entries;
      var i := 0;
      hide EntryFor;
      while i < |obsolete|
        invariant 0 <= i <= |obsolete| && Draft(files, payloads, owned, all)
        invariant Elements(PathsOf(all)) == payloads.Keys + Elements(obsolete[..i])
      {
        var path := obsolete[i];
        assert path in Elements(obsolete);
        assert path !in obsolete[..i];
        var e := Entry(path, Some(owned[path]), None, true);
        assert EntryFor(files, payloads, owned, e) by { DeliverEntry(files, payloads, owned, e); }
        DraftEntry(files, payloads, None, owned, all, e);
        all := all + [e];
        assert obsolete[..i + 1] == obsolete[..i] + [path];
        i := i + 1;
      }
      assert obsolete[..i] == obsolete;
    }

    /** Everything `install` decides before it touches the destination. */
    method MakePlan(planned: seq<Planned>, complete: bool, update: bool) returns (r: Result<Plan, Refusal>)
      requires planned != [] && Distinct(PlannedPaths(planned))
      ensures r.Ok? <==> Plannable(files, backups, planned, complete, update)
      ensures r.Ok? ==> PlanFor(files, r.value) && r.value.payloads == Payloads(planned, update)
      ensures r.Ok? && !update ==> r.value.owned == map[] && r.value.updateFrom.None?
      ensures r.Ok? && update ==>
                && UpdatesOwnOnly(files, r.value) && r.value.updateFrom.Some?
                && IsBaseline(backups, r.value.updateFrom.value.backup)
                && backups[r.value.updateFrom.value.backup].manifest == Some(r.value.updateFrom.value.manifest)
                && OwnedBy(r.value.owned, files, r.value.updateFrom.value.manifest.entries)
      ensures update && !complete ==> r == Err(UpdateNeedsComplete)
    {
      hide IsBaseline, Draft, EntryFor, Unmodified, PlanFor, UpdatesOwnOnly, ReplacesOwn;
      if update && !complete {
        NotPlannable(files, backups, planned, complete);
        return Err(UpdateNeedsComplete);
      }
      var owned: map<string, Digest>, from: Option<Origin> := map[], None;
      if update {
        var baseline := UpdateBaseline();
        if baseline.Err? {
          NotPlannable(files, backups, planned, complete);
          return Err(baseline.error);
        }
        owned, from := baseline.value.0, Some(baseline.value.1);
        UpdatePlannable(files, backups, planned, complete, owned, from.value);
      } else {
        assert Plannable(files, backups, planned, complete, update);
      }
      hide Plannable, OwnedBy;
      var drafted := DraftPlanned(planned, update, owned);
      if drafted.Err? { return Err(drafted.error); }
      if update { PlannedIsOwned(files, planned, owned, drafted.value.1); }
      var entries := DraftObsolete(drafted.value.0, drafted.value.1, owned);
      var plan := Plan(entries, drafted.value.1, owned, from);
      DraftIsPlan(files, planned, update, plan);
      r := Ok(plan);
    }

    // -------------------------------------------------------------- installing

    /** Copies of the prior content, into a backup that has no manifest yet. */
    method CopyMembers(b: nat, entries: seq<Entry>) returns (s: Signal)
      requires b < |backups| && backups[b].manifest.None? && Distinct(PathsOf(entries))
      modifies `backups, `clock
      ensures |backups| == |old(backups)| && backups[b].manifest.None?
      ensures forall k | 0 <= k < |backups| && k != b :: backups[k] == old(backups)[k]
      ensures s.Completed? ==> forall i | 0 <= i < |entries| :: CopyHolds(backups[b].copies, entries[i])
      ensures !s.Completed? && AsBefore(files, entries) ==> clock > 0 && !fate(clock - 1).Done?
      ensures old(Calm()) && AsBefore(files, entries) ==> s.Completed? && Calm()
      ensures DiedSince(old(clock), s.Crashed?)
    {
      var i := 0;
      ghost var calm := Calm();
      while i < |entries|
        invariant 0 <= i <= |entries| && |backups| == |old(backups)| && backups[b].manifest.None?
        invariant forall k | 0 <= k < |backups| && k != b :: backups[k] == old(backups)[k]
        invariant forall j | 0 <= j < i :: CopyHolds(backups[b].copies, entries[j])
        invariant DiedSince(old(clock), false)
        invariant calm ==> Calm()
      {
        var e := entries[i];
        if e.before.Some? {
          if Fingerprint(Content(files, e.path)) != e.before { return Raised; }
          ghost var copies := backups[b].copies;
          s := SaveCopy(b, e.path, files[e.path]);
          if !s.Completed? { return; }
          assert backups[b].copies == copies[e.path := files[e.path]];
          CopyKept(copies, entries, i, files[e.path]);
        }
        i := i + 1;
      }
      s := Completed;
    }

    /** One member: announced as pending in a saved manifest, then changed, then read back. */
    method ApplyMember(b: nat, manifest: Manifest, i: nat, payloads: Files, ghost original: Files)
      returns (s: Signal, m: Manifest)
      requires i < |manifest.entries| && Distinct(PathsOf(manifest.entries)) && Reached(original, files, manifest, i)
      requires Deliverable(manifest.entries[i], payloads) && SavedAhead(original, files, manifest, backups, b)
      modifies `files, `backups, `clock
      ensures OnlyManifest(old(backups), backups, b) && SavedAhead(original, files, manifest, backups, b)
      ensures SameInstall(m, manifest) && Ahead(original, files, m)
      ensures s.Completed? ==> Reached(original, files, m, i + 1)
      ensures old(Calm()) ==> s.Completed? && Calm()
      ensures DiedSince(old(clock), s.Crashed?)
    {
      var entries, e := manifest.entries, manifest.entries[i];
      hide Ahead, Stage, Inventory, SameOutside, Content, Put, Fingerprint, Distinct, PathsOf;
      OneMorePath(entries, i);
      m := manifest;
      StageAhead(original, files, m, i);
      StageHere(original, files, entries, i);
      if Fingerprint(Content(files, e.path)) != e.before { return Raised, m; }
      m := m.(phase := Applying, pending := Some(e.path));
      StageAhead(original, files, m, i);
      s := Save(b, m);
      if !s.Completed? { return; }
      var data := if e.delete then None else Some(payloads[e.path]);
      DeliverableData(e, payloads);
      StageStep(original, files, entries, i, data);
      s := Change(e.path, data);
      StageAhead(original, files, m, i);
      if !s.Completed? { return; }
      StageHere(original, files, entries, i + 1);
      if Fingerprint(Content(files, e.path)) != e.installed { return Raised, m; }
      m := m.(applied := m.applied + [e.path], pending := None);
      StageAhead(original, files, m, i + 1);
    }

    /** Every member in turn; the last save declares the installation applied. */
    method ApplyMembers(b: nat, manifest: Manifest, payloads: Files, ghost original: Files)
      returns (s: Signal, m: Manifest)
      requires Distinct(PathsOf(manifest.entries)) && Reached(original, files, manifest, 0)
      requires SavedAhead(original, files, manifest, backups, b)
      requires forall i | 0 <= i < |manifest.entries| :: Deliverable(manifest.entries[i], payloads)
      modifies `files, `backups, `clock
      ensures OnlyManifest(old(backups), backups, b) && SavedAhead(original, files, manifest, backups, b)
      ensures SameInstall(m, manifest) && Ahead(original, files, m)
      ensures s.Completed? ==>
        Reached(original, files, m, |m.entries|) && backups[b].manifest == Some(m) && m.phase.Applied?
      ensures old(Calm()) ==> s.Completed? && Calm()
      ensures DiedSince(old(clock), s.Crashed?)
    {
      m := manifest;
      ghost var calm := Calm();
      var i := 0;
      hide Reached, Deliverable, Ahead, Distinct;
      while i < |manifest.entries|
        invariant 0 <= i <= |manifest.entries|
        invariant OnlyManifest(old(backups), backups, b) && SavedAhead(original, files, manifest, backups, b)
        invariant SameInstall(m, manifest) && Reached(original, files, m, i)
        invariant DiedSince(old(clock), false)
        invariant calm ==> Calm()
      {
        s, m := ApplyMember(b, m, i, payloads, original);
        if !s.Completed? { return; }
        i := i + 1;
      }
      Declared(original, files, m);
      m := m.(phase := Applied);
      s := Save(b, m);
    }

    /** Applying with its fault handler, which records the interruption if it still can. */
    method Apply(b: nat, manifest: Manifest, payloads: Files, ghost original: Files) returns (r: Outcome)
      requires Distinct(PathsOf(manifest.entries)) && Reached(original, files, manifest, 0)
      requires SavedAhead(original, files, manifest, backups, b)
      requires forall i | 0 <= i < |manifest.entries| :: Deliverable(manifest.entries[i], payloads)
      modifies `files, `backups, `clock
      ensures OnlyManifest(old(backups), backups, b) && SavedAhead(original, files, manifest, backups, b)
      ensures r.Finished? || r.Failed? || r.Died?
      ensures r.Finished? ==> Stage(original, files, manifest.entries, |manifest.entries|)
      ensures r.Finished? ==>
        backups[b].manifest.value.phase.Applied? && backups[b].manifest.value.applied == PathsOf(manifest.entries)
      ensures r.Failed? ==> clock > 0 && (fate(clock - 1).Done? ==> backups[b].manifest.value.phase.Interrupted?)
      ensures old(Calm()) ==> r.Finished? && Calm()
      ensures DiedSince(old(clock), r.Died?)
    {
      hide Deliverable, Ahead, Distinct, Stage;
      var s, m := ApplyMembers(b, manifest, payloads, original);
      if s.Raised? {
        AheadInterrupted(original, files, m);
        m := m.(phase := Interrupted);
        s := Save(b, m);
        if s.Completed? { s := Raised; }
      }
      if s.Completed? { assert m.entries[..|m.entries|] == m.entries; }
      r := if s.Completed? then Finished else if s.Raised? then Failed else Died;
    }

    /** The members as they are now against the entries made before the lock was taken. */
    method CheckUnchanged(entries: seq<Entry>) returns (changed: Option<string>)
      ensures changed.None? <==> AsBefore(files, entries)
    {
      var i := 0;
      while i < |entries|
        invariant 0 <= i <= |entries|
        invariant forall j | 0 <= j < i :: entries[j].before == Fingerprint(Content(files, entries[j].path))
      {
        if Fingerprint(Content(files, entries[i].path)) != entries[i].before { return Some(entries[i].path); }
        i := i + 1;
      }
      changed := None;
    }

    /** A new backup with the prior contents, its manifest, and then every member of the plan. */
    method Deploy(plan: Plan, complete: bool, ghost previewed: Files) returns (r: Outcome)
      requires PlanFor(previewed, plan) && AsBefore(files, plan.entries)
      modifies `files, `backups, `clock
      ensures |old(backups)| <= |backups| <= |old(backups)| + 1 && backups[..|old(backups)|] == old(backups)
      ensures |backups| == |old(backups)| ==> files == old(files) && !r.Finished?
      ensures |backups| > |old(backups)| ==> WriteAhead(old(files), files, backups[|old(backups)|])
      ensures !r.Refused? && !r.Preview?
      ensures r.Finished? ==>
        |backups| > |old(backups)| && FullyApplied(old(files), files, plan, complete, backups[|old(backups)|])
      ensures r.Failed? ==> clock > 0 && (fate(clock - 1).Done? ==> LeftInterrupted(old(backups), backups))
      ensures old(Calm()) ==> r.Finished? && Calm()
      ensures DiedSince(old(clock), r.Died?)
    {
      ghost var original := files;
      PlanEntriesValid(previewed, plan);
      PlanDeliverable(previewed, plan);
      var b := |backups|;
      var s := NewBackup();
      hide Ahead, Stage, Inventory, SameOutside, EntryFor, Deliverable, EntryValid, CopyHolds, PlanFor, Content;
      if !s.Completed? { return if s.Crashed? then Died else Failed; }
      s := CopyMembers(b, plan.entries);
      if !s.Completed? { return if s.Crashed? then Died else Failed; }
      var m := Manifest(complete, plan.updateFrom, plan.entries, Prepared, [], None, []);
      Prepare(original, plan, backups[b].copies, m);
      s := Save(b, m);
      if !s.Completed? { return if s.Crashed? then Died else Failed; }
      r := Apply(b, m, plan.payloads, original);
      if r.Finished? { StageDelivers(previewed, original, files, plan); }
    }

    /**
     * The locked part of `install`. It starts from the files as they are now, which may have changed since
     * the plan was made: then nothing is done. Otherwise, wherever it stops, the write-ahead rule holds.
     */
    method InstallLocked(plan: Plan, complete: bool, ghost previewed: Files) returns (r: Outcome)
      requires PlanFor(previewed, plan)
      modifies `files, `backups, `clock
      ensures |old(backups)| <= |backups| <= |old(backups)| + 1 && backups[..|old(backups)|] == old(backups)
      ensures |backups| == |old(backups)| ==> files == old(files) && !r.Finished?
      ensures |backups| > |old(backups)| ==> WriteAhead(old(files), files, backups[|old(backups)|])
      ensures r.Refused? <==> !AsBefore(old(files), plan.entries) || !OriginStands(old(backups), plan.updateFrom)
      ensures r.Refused? ==> files == old(files) && backups == old(backups)
      ensures !r.Preview?
      ensures r.Finished? ==>
        |backups| > |old(backups)| && FullyApplied(old(files), files, plan, complete, backups[|old(backups)|])
      ensures r.Failed? ==> clock > 0 && (fate(clock - 1).Done? ==> LeftInterrupted(old(backups), backups))
      ensures old(Calm()) && !r.Refused? ==> r.Finished? && Calm()
      ensures DiedSince(old(clock), r.Died?)
    {
      if !OriginStands(backups, plan.updateFrom) { return Refused(BaselineChanged); }
      var changed := CheckUnchanged(plan.entries);
      if changed.Some? { return Refused(DestinationChanged(changed.value)); }
      hide WriteAhead, FullyApplied, AsBefore, OriginStands, PlanFor;
      r := Deploy(plan, complete, previewed);
    }

    /** Under the lock, the plan that was made of the files as they are. */
    method CarryOut(plan: Plan, complete: bool) returns (r: Outcome)
      requires PlanFor(files, plan) && !lock
      modifies this
      ensures |old(backups)| <= |backups| <= |old(backups)| + 1 && backups[..|old(backups)|] == old(backups)
      ensures |backups| == |old(backups)| ==> files == old(files)
      ensures |backups| > |old(backups)| ==> WriteAhead(old(files), files, backups[|old(backups)|])
      ensures r.Refused? ==> !OriginStands(old(backups), plan.updateFrom)
      ensures r.Refused? ==> files == old(files) && backups == old(backups)
      ensures !r.Preview?
      ensures r.Failed? && clock > 0 && fate(clock - 1).Done? ==>
        clock > 1 && (fate(clock - 2).Done? ==> LeftInterrupted(old(backups), backups))
      ensures r.Finished? ==>
        && !lock && |backups| > |old(backups)|
        && FullyApplied(old(files), files, plan, complete, backups[|old(backups)|])
      ensures old(Calm()) && OriginStands(old(backups), plan.updateFrom) ==> r.Finished? && Calm()
      ensures DiedSince(old(clock), r.Died?)
    {
      hide PlanFor, WriteAhead, FullyApplied, LeftInterrupted, OriginStands, AsBefore;
      var s := TakeLock();
      if !s.Completed? { return if s.Crashed? then Died else Failed; }
      PlanAsBefore(files, plan);
      r := InstallLocked(plan, complete, files);
      r := ReleaseLock(r);
    }

    /**
     * `install`: plan, preview or apply. Whatever the fates, only this run's own backup is added, members
     * change only under the write-ahead rule, and an update changes only package members it owns.
     */
    method Install(planned: seq<Planned>, complete: bool, apply: bool, wanted: Option<PlanId>, update: bool)
      returns (r: Outcome, ghost plan: Option<Plan>)
      requires planned != [] && Distinct(PlannedPaths(planned))
      modifies this
      ensures |old(backups)| <= |backups| <= |old(backups)| + 1 && backups[..|old(backups)|] == old(backups)
      ensures |backups| == |old(backups)| ==> files == old(files)
      ensures |backups| > |old(backups)| ==> WriteAhead(old(files), files, backups[|old(backups)|])
      ensures r.Refused? || r.Preview? || !apply || old(lock) ==> files == old(files) && backups == old(backups)
      ensures r.Preview? ==> plan.Some? && r.id == Identify(complete, plan.value)
      ensures plan.Some? ==> PlanFor(old(files), plan.value) && plan.value.payloads == Payloads(planned, update)
      ensures plan.Some? && update ==> UpdatesOwnOnly(old(files), plan.value) && complete
      ensures plan.Some? && !update ==> plan.value.owned == map[] && plan.value.updateFrom.None?
      ensures plan.Some? <==> Plannable(old(files), old(backups), planned, complete, update)
      ensures plan.None? ==> r.Refused?
      ensures plan.Some? ==> Goes(old(lock), apply, wanted, Identify(complete, plan.value), r)
      ensures r.Failed? && clock > 0 && fate(clock - 1).Done? ==>
        clock > 1 && (fate(clock - 2).Done? ==> LeftInterrupted(old(backups), backups))
      ensures r.Finished? ==>
                && plan.Some? && |backups| > |old(backups)|
                && FullyApplied(old(files), files, plan.value, complete, backups[|old(backups)|])
      ensures r.Finished? ==> !lock
      ensures old(Calm()) && (r.Finished? || r.Failed? || r.Died?) ==> r.Finished? && Calm()
      ensures old(Calm()) && !old(lock) && apply && wanted.None? && !update ==> r.Finished?
      ensures DiedSince(old(clock), r.Died?)
    {
      hide PlanFor, Plannable, UpdatesOwnOnly, WriteAhead, FullyApplied, LeftInterrupted;
      plan := None;
      if !update { OnlyUpdatesNeedMore(files, backups, planned, complete); }
      var made := MakePlan(planned, complete, update);
      if made.Err? { return Refused(made.error), plan; }
      plan := Some(made.value);
      var id := Identify(complete, made.value);
      if wanted.Some? && (!apply || wanted.value != id) { return Refused(PlanDiffers), plan; }
      if !apply { return Preview(id), plan; }
      if lock { return Refused(Locked), plan; }
      assert OriginStands(backups, made.value.updateFrom);
      r := CarryOut(made.value, complete);
    }

    // -------------------------------------------------------------- rolling back

    /** The checks before anything is restored, and the identities found. */
    method CheckRestore(entries: seq<Entry>, copies: Files) returns (why: Option<Refusal>, found: seq<Option<Digest>>)
      ensures why.None? <==> AllRestorable(files, entries, copies)
      ensures why.None? ==> |found| == |entries|
      ensures why.None? ==> forall i | 0 <= i < |entries| :: found[i] == Fingerprint(Content(files, entries[i].path))
    {
      found := [];
      var i := 0;
      while i < |entries|
        invariant 0 <= i <= |entries| && |found| == i
        invariant forall j | 0 <= j < i :: Restorable(files, entries[j], copies)
        invariant forall j | 0 <= j < i :: found[j] == Fingerprint(Content(files, entries[j].path))
      {
        var e := entries[i];
        if !EntryValid(e) { return Some(InvalidMember(e.path)), found; }
        if !CopyHolds(copies, e) { return Some(BackupDamaged(e.path)), found; }
        var current := Fingerprint(Content(files, e.path));
        if current != e.before && current != e.installed { return Some(Conflict(e.path)), found; }
        found := found + [current];
        i := i + 1;
      }
      why := None;
    }

    method SaveAttempt(b: nat, m: Manifest, ghost start: Files) returns (s: Signal)
      requires SavedAttempt(start, files, m, backups, b) && AttemptAhead(start, files, m.entries, Latest(m))
      requires m.phase == Latest(m).phase
      modifies `backups, `clock
      ensures OnlyManifest(old(backups), backups, b) && SavedAttempt(start, files, m, backups, b)
      ensures s.Completed? ==> backups[b].manifest == Some(m)
      ensures clock == old(clock) + 1 && (s.Completed? <==> fate(old(clock)).Done?)
      ensures old(Calm()) ==> s.Completed? && Calm()
      ensures DiedSince(old(clock), s.Crashed?)
    {
      hide AttemptAhead;
      s := Save(b, m);
    }

    /** The restoring write itself, under a saved attempt that has announced the member. */
    method PutBack(b: nat, m: Manifest, i: nat, ghost start: Files) returns (s: Signal)
      requires 0 < i <= |m.entries| && Distinct(PathsOf(m.entries)) && m.attempts != []
      requires b < |backups| && backups[b].manifest == Some(m) && CopyHolds(backups[b].copies, m.entries[i - 1])
      requires Latest(m).pending == Some(m.entries[i - 1].path) && Handled(start, m.entries, Latest(m), i)
      requires m.phase == Latest(m).phase && m.phase.RollingBack?
      requires Back(start, files, m.entries, i)
      modifies `files, `clock
      ensures AttemptAhead(start, files, m.entries, Latest(m)) && RolledTo(start, files, m.entries)
      ensures s.Completed? ==> Back(start, files, m.entries, i - 1)
      ensures old(Calm()) ==> s.Completed? && Calm()
      ensures DiedSince(old(clock), s.Crashed?)
    {
      hide AttemptAhead, Back, Handled, SameOutside, Content, Put, Fingerprint, Distinct, CopyHolds, PathsOf, RolledTo,
        Latest;
      var e := m.entries[i - 1];
      CopyData(backups[b].copies, e);
      var data := if e.before.None? then None else Some(backups[b].copies[e.path]);
      BackStep(start, files, m.entries, i, data);
      s := Change(e.path, data);
      BackAhead(start, files, m.entries, Latest(m), i);
      RolledEither(start, files, m.entries, i);
      if s.Completed? {
        BackHere(start, files, m.entries, i - 1);
        if Fingerprint(Content(files, e.path)) != e.before { s := Raised; }
      }
    }

    /** A member that differs from before: announced, restored and read back. */
    method RestoreMember(b: nat, manifest: Manifest, i: nat, ghost start: Files) returns (s: Signal, m: Manifest)
      requires 0 < i <= |manifest.entries| && Distinct(PathsOf(manifest.entries))
      requires manifest.attempts != [] && BackAt(start, files, manifest.entries, Latest(manifest), i)
      requires SavedAttempt(start, files, manifest, backups, b) && CopyHolds(backups[b].copies, manifest.entries[i - 1])
      requires !AlreadyBack(start, manifest.entries[i - 1])
      modifies `files, `backups, `clock
      ensures OnlyManifest(old(backups), backups, b) && SavedAttempt(start, files, manifest, backups, b)
      ensures SameRollback(m, manifest) && AttemptAhead(start, files, m.entries, Latest(m))
      ensures RolledTo(start, files, manifest.entries)
      ensures s.Completed? ==> BackAt(start, files, m.entries, Latest(m), i - 1) && backups[b].manifest == Some(m)
      ensures old(Calm()) ==> s.Completed? && Calm()
      ensures DiedSince(old(clock), s.Crashed?)
    {
      var entries, e, a := manifest.entries, manifest.entries[i - 1], Latest(manifest);
      hide AttemptAhead, Back, Handled, SameOutside, Content, Put, Fingerprint, Distinct, CopyHolds, PathsOf, RolledTo,
        OnlyManifest, SameRollback, WithLatest, Latest, AlreadyBack;
      HandleRestored(start, entries, a, i);
      RolledHere(start, files, entries, i);
      a := a.(pending := Some(e.path));
      AnnouncedHandled(start, entries, Latest(manifest), Some(e.path), i);
      BackAhead(start, files, entries, a, i);
      m := WithLatest(manifest, a);
      SavedSame(start, files, manifest, m, backups, b);
      s := SaveAttempt(b, m, start);
      SavedSame(start, files, m, manifest, backups, b);
      if !s.Completed? { return; }
      ghost var saved := backups;
      OnlyCopies(old(backups), backups, b);
      s := PutBack(b, m, i, start);
      SavedNow(start, files, m, manifest, backups, b);
      if !s.Completed? { return; }
      a := a.(restored := a.restored + [e.path], pending := None);
      BackAhead(start, files, entries, a, i - 1);
      m := WithLatest(m, a);
      SavedSame(start, files, manifest, m, backups, b);
      s := SaveAttempt(b, m, start);
      SavedSame(start, files, m, manifest, backups, b);
      OnlyTwice(old(backups), saved, backups, b);
    }

    /** The last member not yet handled: left alone when it is already back, restored otherwise. */
    method HandleMember(b: nat, manifest: Manifest, i: nat, found: Option<Digest>, ghost start: Files)
      returns (s: Signal, m: Manifest)
      requires 0 < i <= |manifest.entries| && Distinct(PathsOf(manifest.entries))
      requires manifest.attempts != [] && BackAt(start, files, manifest.entries, Latest(manifest), i)
      requires SavedAttempt(start, files, manifest, backups, b) && CopyHolds(backups[b].copies, manifest.entries[i - 1])
      requires found == Fingerprint(Content(start, manifest.entries[i - 1].path))
      modifies `files, `backups, `clock
      ensures OnlyManifest(old(backups), backups, b) && SavedAttempt(start, files, manifest, backups, b)
      ensures SameRollback(m, manifest) && AttemptAhead(start, files, m.entries, Latest(m))
      ensures RolledTo(start, files, manifest.entries)
      ensures s.Completed? ==> BackAt(start, files, m.entries, Latest(m), i - 1) && backups[b].manifest == Some(m)
      ensures old(Calm()) ==> s.Completed? && Calm()
      ensures DiedSince(old(clock), s.Crashed?)
    {
      var entries, e, a := manifest.entries, manifest.entries[i - 1], Latest(manifest);
      hide AttemptAhead, Back, Handled, SameOutside, Content, Put, Fingerprint, Distinct, CopyHolds, PathsOf, RolledTo;
      m := manifest;
      BackAhead(start, files, entries, a, i);
      RolledHere(start, files, entries, i);
      BackHere(start, files, entries, i);
      if Fingerprint(Content(files, e.path)) != found { return Raised, m; }
      if found == e.before {
        HandleRestored(start, entries, a, i);
        BackSkip(start, files, entries, i);
        a := a.(already := a.already + [e.path]);
        BackAhead(start, files, entries, a, i - 1);
        m := WithLatest(m, a);
        s := SaveAttempt(b, m, start);
      } else {
        s, m := RestoreMember(b, m, i, start);
      }
    }

    /** Every member in reverse order; the last save declares the project rolled back. */
    method RestoreAll(b: nat, manifest: Manifest, found: seq<Option<Digest>>, ghost start: Files)
      returns (s: Signal, m: Manifest)
      requires Distinct(PathsOf(manifest.entries)) && manifest.attempts != [] && |found| == |manifest.entries|
      requires BackAt(start, files, manifest.entries, Latest(manifest), |manifest.entries|)
      requires SavedAttempt(start, files, manifest, backups, b)
      requires forall j | 0 <= j < |found| ::
                 && found[j] == Fingerprint(Content(start, manifest.entries[j].path))
                 && CopyHolds(backups[b].copies, manifest.entries[j])
      modifies `files, `backups, `clock
      ensures OnlyManifest(old(backups), backups, b) && SavedAttempt(start, files, manifest, backups, b)
      ensures SameRollback(m, manifest) && AttemptAhead(start, files, m.entries, Latest(m))
      ensures RolledTo(start, files, manifest.entries)
      ensures s.Completed? ==>
        Back(start, files, manifest.entries, 0) && backups[b].manifest == Some(m) && m.phase.RolledBack?
      ensures old(Calm()) ==> s.Completed? && Calm()
      ensures DiedSince(old(clock), s.Crashed?)
    {
      m := manifest;
      var entries, i := manifest.entries, |manifest.entries|;
      ghost var calm := Calm();
      hide AttemptAhead, Back, Handled, SameOutside, Content, Fingerprint, Distinct, CopyHolds, PathsOf, RolledTo,
        SameRollback;
      BackAhead(start, files, entries, Latest(m), i);
      RolledHere(start, files, entries, i);
      SameItself(m);
      while i > 0
        invariant 0 <= i <= |entries| && OnlyManifest(old(backups), backups, b)
        invariant SavedAttempt(start, files, manifest, backups, b)
        invariant SameRollback(m, manifest) && m.attempts != [] && m.entries == entries
        invariant BackAt(start, files, entries, Latest(m), i) && AttemptAhead(start, files, entries, Latest(m))
        invariant RolledTo(start, files, entries)
        invariant DiedSince(old(clock), false)
        invariant calm ==> Calm()
      {
        ghost var earlier, last := backups, m;
        SavedSame(start, files, manifest, m, backups, b);
        s, m := HandleMember(b, m, i, found[i - 1], start);
        SameTwice(m, last, manifest);
        SavedSame(start, files, last, manifest, backups, b);
        OnlyTwice(old(backups), earlier, backups, b);
        if !s.Completed? { return; }
        i := i - 1;
      }
      ghost var earlier := backups;
      var a := Latest(m).(phase := RolledBack);
      AttemptEnds(start, files, entries, Latest(m));
      ghost var last := m;
      m := WithLatest(m, a);
      SameTwice(m, last, manifest);
      SavedSame(start, files, manifest, m, backups, b);
      s := SaveAttempt(b, m, start);
      SavedSame(start, files, m, manifest, backups, b);
      OnlyTwice(old(backups), earlier, backups, b);
    }

    /** Restoring with its fault handler. */
    method Restore(b: nat, manifest: Manifest, found: seq<Option<Digest>>, ghost start: Files) returns (r: Outcome)
      requires Distinct(PathsOf(manifest.entries)) && manifest.attempts != [] && |found| == |manifest.entries|
      requires BackAt(start, files, manifest.entries, Latest(manifest), |manifest.entries|)
      requires SavedAttempt(start, files, manifest, backups, b)
      requires forall j | 0 <= j < |found| ::
                 && found[j] == Fingerprint(Content(start, manifest.entries[j].path))
                 && CopyHolds(backups[b].copies, manifest.entries[j])
      modifies `files, `backups, `clock
      ensures OnlyManifest(old(backups), backups, b) && SavedAttempt(start, files, manifest, backups, b)
      ensures RolledTo(start, files, manifest.entries)
      ensures r.Finished? || r.Failed? || r.Died?
      ensures r.Finished? ==> Back(start, files, manifest.entries, 0) && backups[b].manifest.value.phase.RolledBack?
      ensures r.Failed? ==> clock > 0 && (fate(clock - 1).Done? ==> SaysInterrupted(backups[b]))
      ensures old(Calm()) ==> r.Finished? && Calm()
      ensures DiedSince(old(clock), r.Died?)
    {
      hide AttemptAhead, BackAt, Back, Handled, Content, Fingerprint, Distinct, CopyHolds, PathsOf, RolledTo,
        SameRollback;
      var s, m := RestoreAll(b, manifest, found, start);
      if s.Raised? {
        ghost var earlier, last := backups, m;
        SomeAttempt(m, manifest);
        var a := Latest(m).(phase := RollbackInterrupted);
        AttemptInterrupted(start, files, m.entries, Latest(m));
        m := WithLatest(m, a);
        SameTwice(m, last, manifest);
        SavedSame(start, files, manifest, m, backups, b);
        s := SaveAttempt(b, m, start);
        SavedSame(start, files, m, manifest, backups, b);
        OnlyTwice(old(backups), earlier, backups, b);
        if s.Completed? { s := Raised; }
      }
      r := if s.Completed? then Finished else if s.Raised? then Failed else Died;
    }

    /**
     * The locked part of `rollback`: refused before anything changes when any member is unknown or any copy
     * is damaged; otherwise members return to their prior content one by one, last first.
     */
    method RollbackLocked(b: nat) returns (r: Outcome)
      requires b < |backups| && backups[b].manifest.Some? && Distinct(PathsOf(backups[b].manifest.value.entries))
      modifies `files, `backups, `clock
      ensures OnlyManifest(old(backups), backups, b) && backups[b].manifest.Some?
      ensures backups[b].manifest.value.entries == old(backups)[b].manifest.value.entries
      ensures r.Refused? <==> !AllRestorable(old(files), old(backups)[b].manifest.value.entries, old(backups)[b].copies)
      ensures r.Refused? ==> files == old(files) && backups == old(backups)
      ensures !r.Preview? && RolledTo(old(files), files, old(backups)[b].manifest.value.entries)
      ensures backups != old(backups) || files != old(files) ==>
                && |backups[b].manifest.value.attempts| == |old(backups)[b].manifest.value.attempts| + 1
                && backups[b].manifest.value.phase == Latest(backups[b].manifest.value).phase
                && AttemptAhead(old(files), files, backups[b].manifest.value.entries, Latest(backups[b].manifest.value))
      ensures r.Finished? ==> Back(old(files), files, old(backups)[b].manifest.value.entries, 0)
      ensures r.Finished? ==> backups[b].manifest.value.phase.RolledBack?
      ensures r.Failed? ==> clock > 0 && (fate(clock - 1).Done? ==> SaysInterrupted(backups[b]))
      ensures old(Calm()) && !r.Refused? ==> r.Finished? && Calm()
      ensures DiedSince(old(clock), r.Died?)
    {
      ghost var start := files;
      var manifest := backups[b].manifest.value;
      var entries := manifest.entries;
      BackStarts(files, entries);
      RolledHere(files, files, entries, |entries|);
      var why, found := CheckRestore(entries, backups[b].copies);
      if why.Some? { return Refused(why.value); }
      ghost var earlier := backups;
      hide AttemptAhead, Back, Content, Fingerprint, Distinct, CopyHolds, PathsOf, RolledTo;
      AttemptStarts(start, entries);
      var m := manifest.(phase := RollingBack, attempts := manifest.attempts + [Attempt(RollingBack, [], [], None)]);
      var s := Save(b, m);
      if !s.Completed? { return if s.Crashed? then Died else Failed; }
      StartSaved(start, m, backups, b);
      RestorableCopies(start, entries, backups[b].copies);
      r := Restore(b, m, found, start);
      OnlyTwice(old(backups), earlier, backups, b);
    }

    /**
     * `rollback`: what it leaves is as recoverable as what it found, so it can be run again after any
     * interruption; when it finishes, the files are exactly those from before the installation.
     */
    method Rollback(b: nat) returns (r: Outcome)
      requires b < |backups|
      modifies this
      ensures OnlyManifest(old(backups), backups, b)
      ensures r.Refused? || old(lock) ==> files == old(files) && backups == old(backups)
      ensures Blocked(old(files), old(backups)[b]) ==> files == old(files) && backups == old(backups) && !r.Finished?
      ensures backups[b].manifest.None? ==> r.Refused? || r.Failed? || r.Died?
      ensures backups[b].manifest.Some? ==> SameOutside(old(files), files, backups[b].manifest.value.entries)
      ensures forall original | Recoverable(original, old(files), old(backups)[b]) ::
        Recoverable(original, files, backups[b])
      ensures r.Finished? ==> forall original | Recoverable(original, old(files), old(backups)[b]) :: files == original
      ensures r.Finished? ==> backups[b].manifest.Some? && backups[b].manifest.value.phase.RolledBack? && !lock
      ensures old(Calm()) && !old(lock) ==>
        forall original | Recoverable(original, old(files), old(backups)[b]) :: r.Finished?
      ensures old(Calm()) && !old(lock) && r.Finished? ==> Calm()
      ensures r.Failed? && clock > 0 && fate(clock - 1).Done? ==>
        clock > 1 && (fate(clock - 2).Done? ==> SaysInterrupted(backups[b]))
      ensures !old(lock) ==> forall original | Recoverable(original, old(files), old(backups)[b]) ::
        r.Finished? || clock > old(clock)
      ensures DiedSince(old(clock), r.Died?)
    {
      var found := backups[b].manifest;
      if found.None? { return Refused(NoManifest); }
      if found.value.entries == [] { return Refused(EmptyInventory); }
      if !Distinct(PathsOf(found.value.entries)) { return Refused(DuplicateMember); }
      if lock { return Refused(Locked); }
      var s := TakeLock();
      if !s.Completed? { return if s.Crashed? then Died else Failed; }
      ghost var start, original := files, backups[b];
      hide Recoverable, AllRestorable, AttemptAhead, Back, RolledTo, Distinct;
      r := RollbackLocked(b);
      StillRecoverable(start, files, original, backups[b]);
      if r.Finished? { FilesReturn(start, files, original); }
      if r.Refused? { NothingBlocks(start, original); }
      r := ReleaseLock(r);
    }

    // -------------------------------------------------------------- sequences

    /**
     * Any sequence of installations and updates, whatever becomes of each, leaves a stack: every backup
     * with a manifest can be recovered from the files it left. `made` lists those backups.
     */
    method InstallEach(requests: seq<Request>, ghost layers: seq<Layer>)
      returns (made: seq<nat>, ghost stack: seq<Layer>)
      requires forall i | 0 <= i < |requests| ::
        requests[i].planned != [] && Distinct(PlannedPaths(requests[i].planned))
      requires Stack(layers, files, backups)
      modifies this
      ensures Stack(stack, files, backups) && layers <= stack && Listed(made, stack[|layers|..])
      ensures |stack| <= |layers| + |requests|
      ensures if |stack| > |layers| then stack[|layers|].before == old(files) else files == old(files)
    {
      stack, made := layers, [];
      var i := 0;
      hide Stack, WriteAhead, Distinct, PlanFor, UpdatesOwnOnly, FullyApplied;
      while i < |requests|
        invariant 0 <= i <= |requests| && Stack(stack, files, backups) && layers <= stack
        invariant Listed(made, stack[|layers|..]) && |stack| <= |layers| + i
        invariant if |stack| > |layers| then stack[|layers|].before == old(files) else files == old(files)
      {
        ghost var before, history, earlier := files, backups, stack;
        var b := |backups|;
        var r, plan := Install(requests[i].planned, requests[i].complete, true, None, requests[i].update);
        if |backups| == b {
          assert backups == history;
        } else {
          assert backups == history + [backups[b]];
          stack := NextLayer(stack, before, history, files, backups[b]);
          if backups[b].manifest.Some? {
            made := made + [b];
            assert stack[|layers|..] == earlier[|layers|..] + [Layer(b, before)];
          }
        }
        i := i + 1;
      }
    }

    /** One more attempt at rolling back: a lock left by a dead process is removed first. */
    method TryRollback(b: nat) returns (finished: bool)
      requires b < |backups|
      modifies this
      ensures OnlyManifest(old(backups), backups, b)
      ensures forall original | Recoverable(original, old(files), old(backups)[b]) ::
        && Recoverable(original, files, backups[b])
        && (finished ==> files == original)
        && (old(Calm()) ==> finished)
        && (finished || clock > old(clock))
      ensures clock >= old(clock)
    {
      hide Recoverable, Blocked, SameOutside;
      RemoveStaleLock();
      var r := Rollback(b);
      finished := r.Finished?;
    }

    /**
     * Install, die or fail anywhere, and roll back as often as it takes, every attempt interrupted anywhere
     * too: as soon as one attempt finishes, the files are exactly those from before, and until then they can
     * still be recovered. Once there are more attempts than effects that can go wrong, one of them finishes.
     */
    method InstallAndRecover(request: Request, attempts: nat) returns (restored: bool)
      requires request.planned != [] && Distinct(PlannedPaths(request.planned))
      modifies this
      ensures restored ==> files == old(files)
      ensures |old(backups)| <= |backups| <= |old(backups)| + 1
      ensures !restored ==>
                |backups| > |old(backups)| && Recoverable(old(files), files, backups[|old(backups)|])
      ensures forall n: nat | CalmFrom(n) && n < attempts :: restored
    {
      ghost var original := files;
      var b := |backups|;
      hide Recoverable, PlanFor, UpdatesOwnOnly, FullyApplied, Distinct;
      var r, plan := Install(request.planned, request.complete, true, None, request.update);
      if |backups| == b || backups[b].manifest.None? { return true; }
      WriteAheadIsRecoverable(original, files, backups[b]);
      hide WriteAhead;
      restored := false;
      var i := 0;
      while i < attempts && !restored
        invariant 0 <= i <= attempts && |backups| == b + 1
        invariant restored ==> files == original
        invariant !restored ==> Recoverable(original, files, backups[b]) && clock >= i
        invariant !restored ==> forall n: nat | CalmFrom(n) :: i <= n
        decreases attempts - i
      {
        restored := TryRollback(b);
        i := i + 1;
      }
    }

    /** One attempt at rolling back the top of a stack: it is off, or the stack is as tall as before. */
    method TryTop(index: nat, ghost layers: seq<Layer>) returns (finished: bool)
      requires Stack(layers, files, backups) && layers != [] && index == layers[|layers| - 1].backup
      modifies this
      ensures finished ==>
        files == layers[|layers| - 1].before && Stack(layers[..|layers| - 1], files, backups)
      ensures !finished ==> Stack(layers, files, backups) && !old(Calm()) && clock > old(clock)
      ensures clock >= old(clock)
    {
      ghost var now, history := files, backups;
      TopRecoverable(layers, files, backups);
      hide Stack, Recoverable;
      finished := TryRollback(index);
      if finished {
        PopLayer(layers, now, history, backups);
      } else {
        KeepLayers(layers, now, history, files, backups);
      }
    }

    /**
     * Roll a stack back from its top, every attempt interrupted anywhere: the layers not yet rolled back stay
     * a stack, and with as many attempts as layers and effects that can go wrong none is left.
     */
    method RecoverEach(indexes: seq<nat>, attempts: nat, ghost layers: seq<Layer>) returns (left: nat)
      requires Stack(layers, files, backups) && Listed(indexes, layers)
      modifies this
      ensures left <= |layers| && Stack(layers[..left], files, backups)
      ensures left == 0 ==> files == if layers == [] then old(files) else layers[0].before
      ensures forall n: nat | CalmFrom(n) && n + |layers| <= attempts :: left == 0
    {
      left := |indexes|;
      var i := 0;
      ghost var failed, rest := 0, layers;
      hide Stack, CalmFrom, Calm;
      while i < attempts && left > 0
        invariant 0 <= i <= attempts && left == |rest| <= |layers| && rest <= layers && Stack(rest, files, backups)
        invariant i == failed + (|layers| - left) && clock >= failed
        invariant forall n: nat | CalmFrom(n) :: failed <= n
        invariant left == 0 ==> files == if layers == [] then old(files) else layers[0].before
        decreases attempts - i
      {
        StillCalm(failed);
        var finished := TryTop(indexes[left - 1], rest);
        if finished {
          rest := rest[..left - 1];
          left := left - 1;
        } else {
          failed := failed + 1;
        }
        i := i + 1;
      }
      assert layers[..left] == rest;
    }

    /**
     * Any sequence of installations, each dying anywhere, and then recovery of them all, interrupted anywhere
     * as well: when nothing is left to roll back, the files are those from before the first.
     */
    method InstallEachAndRecover(requests: seq<Request>, attempts: nat) returns (left: nat)
      requires forall i | 0 <= i < |requests| ::
        requests[i].planned != [] && Distinct(PlannedPaths(requests[i].planned))
      modifies this
      ensures left <= |requests|
      ensures left == 0 ==> files == old(files)
      ensures forall n: nat | CalmFrom(n) && n + |requests| <= attempts :: left == 0
    {
      ghost var stack;
      var made;
      hide Recoverable, Distinct;
      made, stack := InstallEach(requests, []);
      assert stack[0..] == stack;
      hide Stack;
      left := RecoverEach(made, attempts, stack);
    }

    /** Rolling back the top of a stack uncovers the layer below it. */
    method RollbackTop(index: nat, ghost layers: seq<Layer>) returns (r: Outcome)
      requires Stack(layers, files, backups) && Calm() && !lock && layers != []
      requires index == layers[|layers| - 1].backup
      modifies this
      ensures r.Finished? && Calm() && !lock && files == layers[|layers| - 1].before
      ensures Stack(layers[..|layers| - 1], files, backups)
    {
      ghost var history, now, top := backups, files, layers[|layers| - 1];
      TopRecoverable(layers, files, backups);
      hide Stack, Recoverable, Blocked, SameOutside;
      r := Rollback(index);
      assert r.Finished? && files == top.before;
      PopLayer(layers, now, history, backups);
    }

    /** Rolling a stack back from its top, with nothing going wrong, restores the files from before it. */
    method RollbackEach(indexes: seq<nat>, ghost layers: seq<Layer>) returns (done: bool)
      requires Stack(layers, files, backups) && Calm() && !lock && Listed(indexes, layers)
      modifies this
      ensures done && files == if layers == [] then old(files) else layers[0].before
    {
      var i := |indexes|;
      done := true;
      hide Stack;
      assert layers[..i] == layers;
      while i > 0
        invariant 0 <= i <= |indexes| && done && Calm() && !lock && Stack(layers[..i], files, backups)
        invariant files == if i < |layers| then layers[i].before else old(files)
      {
        var r := RollbackTop(indexes[i - 1], layers[..i]);
        assert layers[..i][..i - 1] == layers[..i - 1];
        done := done && r.Finished?;
        i := i - 1;
      }
    }
  }
}
