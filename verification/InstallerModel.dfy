/** Installation manifests, and what a project's files owe them at every point of a run. */
module InstallerModel {
  import opened Common
  import Paths

  type Files = map<string, string>

  /** SHA-256, taken as injective: a digest is known by what was digested. */
  datatype Digest = Sha256(data: string)

  function Fingerprint(data: Option<string>): Option<Digest> {
    match data
    case None => None
    case Some(d) => Some(Sha256(d))
  }

  function Content(files: Files, path: string): Option<string> {
    if path in files then Some(files[path]) else None
  }

  /** Replacing a member atomically, or removing it. */
  function Put(files: Files, path: string, data: Option<string>): Files {
    match data
    case None => files - {path}
    case Some(d) => files[path := d]
  }

  datatype Entry = Entry(path: string, before: Option<Digest>, installed: Option<Digest>, delete: bool)

  datatype Phase = Prepared | Applying | Applied | Interrupted | RollingBack | RolledBack | RollbackInterrupted

  datatype Attempt = Attempt(phase: Phase, restored: seq<string>, already: seq<string>, pending: Option<string>)

  /** The manifest an update was planned from. */
  datatype Origin = Origin(backup: nat, manifest: Manifest)

  datatype Manifest = Manifest(
    complete: bool,
    updateFrom: Option<Origin>,
    entries: seq<Entry>,
    phase: Phase,
    applied: seq<string>,
    pending: Option<string>,
    attempts: seq<Attempt>)

  /** A backup directory: its manifest once one is saved, and the saved copies of members. */
  datatype Backup = Backup(manifest: Option<Manifest>, copies: Files)

  function PathsOf(entries: seq<Entry>): (paths: seq<string>)
    ensures |paths| == |entries| && forall i | 0 <= i < |entries| :: paths[i] == entries[i].path
  {
    seq(|entries|, i requires 0 <= i < |entries| => entries[i].path)
  }

  predicate PackageMember(path: string) {
    Paths.StartsWith(path, ".oif/")
  }

  // ---------------------------------------------------------------- inventories

  predicate Deletion(e: Entry) {
    e.delete && PackageMember(e.path) && e.before.Some?
  }

  /** What rollback demands of an entry before it restores anything. */
  predicate EntryValid(e: Entry) {
    if Deletion(e) then e.installed.None? else e.installed.Some?
  }

  /** The copies hold the content each entry says was there before. */
  predicate CopyHolds(copies: Files, e: Entry) {
    e.before.Some? ==> Fingerprint(Content(copies, e.path)) == e.before
  }

  /** A usable inventory of `files`: distinct members, each with its prior content saved. */
  ghost predicate Inventory(files: Files, entries: seq<Entry>, copies: Files) {
    && entries != [] && Distinct(PathsOf(entries))
    && forall i | 0 <= i < |entries| ::
         && EntryValid(entries[i])
         && entries[i].before == Fingerprint(Content(files, entries[i].path))
         && CopyHolds(copies, entries[i])
  }

  ghost predicate SameOutside(a: Files, b: Files, entries: seq<Entry>) {
    forall path | path !in PathsOf(entries) :: Content(a, path) == Content(b, path)
  }

  /** Every member holds its content from before or its installed content; nothing else has changed. */
  ghost predicate Recoverable(original: Files, files: Files, b: Backup) {
    && b.manifest.Some?
    && Inventory(original, b.manifest.value.entries, b.copies)
    && SameOutside(original, files, b.manifest.value.entries)
    && forall i | 0 <= i < |b.manifest.value.entries| ::
         var e := b.manifest.value.entries[i];
         Fingerprint(Content(files, e.path)) in [e.before, e.installed]
  }

  // ---------------------------------------------------------------- the write-ahead rule

  /** Prepared says that no member was begun, and applied that all are done. */
  predicate PhaseFits(m: Manifest) {
    match m.phase
    case Prepared => m.applied == [] && m.pending.None?
    case Applying => true
    case Interrupted => true
    case Applied => m.applied == PathsOf(m.entries) && m.pending.None?
    case _ => false
  }

  /**
   * What the saved manifest says is so: members it lists as applied hold their installed content, the
   * pending one holds either, all others their content from before, and files outside the plan are untouched.
   */
  ghost predicate Ahead(original: Files, files: Files, m: Manifest) {
    && PhaseFits(m) && SameOutside(original, files, m.entries)
    && forall i | 0 <= i < |m.entries| ::
         var e, now := m.entries[i], Fingerprint(Content(files, m.entries[i].path));
         if e.path in m.applied then now == e.installed
         else if m.pending == Some(e.path) then now in [e.before, e.installed]
         else now == e.before
  }

  /** No member changes before a durable manifest with complete backups, and then only as it says. */
  ghost predicate WriteAhead(original: Files, files: Files, b: Backup) {
    if b.manifest.None? then files == original
    else Inventory(original, b.manifest.value.entries, b.copies) && Ahead(original, files, b.manifest.value)
  }

  lemma {:induction false} WriteAheadIsRecoverable(original: Files, files: Files, b: Backup)
    requires WriteAhead(original, files, b) && b.manifest.Some?
    ensures Recoverable(original, files, b)
  {
    hide Inventory;
  }

  /** The first `i` entries are installed, the others untouched. */
  ghost predicate Stage(original: Files, files: Files, entries: seq<Entry>, i: nat) {
    && SameOutside(original, files, entries)
    && forall j | 0 <= j < |entries| ::
         Fingerprint(Content(files, entries[j].path)) == if j < i then entries[j].installed else entries[j].before
  }

  lemma {:induction false} StageHere(original: Files, files: Files, entries: seq<Entry>, i: nat)
    requires Stage(original, files, entries, i)
    ensures i < |entries| ==> Fingerprint(Content(files, entries[i].path)) == entries[i].before
    ensures 0 < i <= |entries| ==> Fingerprint(Content(files, entries[i - 1].path)) == entries[i - 1].installed
  {
  }

  lemma {:induction false} StageStep(original: Files, files: Files, entries: seq<Entry>, i: nat, data: Option<string>)
    requires Stage(original, files, entries, i) && i < |entries| && Distinct(PathsOf(entries))
    requires Fingerprint(data) == entries[i].installed
    ensures Stage(original, Put(files, entries[i].path, data), entries, i + 1)
  {
    var files' := Put(files, entries[i].path, data);
    assert entries[i].path == PathsOf(entries)[i];
    forall j | 0 <= j < |entries|
      ensures Fingerprint(Content(files', entries[j].path)) ==
        if j < i + 1 then entries[j].installed else entries[j].before
    {
      if j != i { assert PathsOf(entries)[j] != PathsOf(entries)[i]; }
    }
  }

  /** Between two saves, the manifest on disk names the stage reached or the one before it. */
  lemma {:induction false} StageAhead(original: Files, files: Files, m: Manifest, k: nat)
    requires k <= |m.entries| && Distinct(PathsOf(m.entries)) && m.applied == PathsOf(m.entries[..k]) && PhaseFits(m)
    requires m.pending == None ==> Stage(original, files, m.entries, k)
    requires m.pending != None ==> k < |m.entries| && m.pending == Some(m.entries[k].path)
    requires m.pending != None ==> Stage(original, files, m.entries, k) || Stage(original, files, m.entries, k + 1)
    ensures Ahead(original, files, m)
  {
    forall i | 0 <= i < |m.entries| ensures m.entries[i].path in m.applied <==> i < k {
      if i < k { assert m.applied[i] == m.entries[i].path; }
      if m.entries[i].path in m.applied {
        var j :| 0 <= j < k && m.applied[j] == m.entries[i].path;
        assert PathsOf(m.entries)[j] == PathsOf(m.entries)[i];
      }
    }
    forall i | 0 <= i < |m.entries| && m.pending == Some(m.entries[i].path) ensures i == k {
      assert PathsOf(m.entries)[i] == PathsOf(m.entries)[k];
    }
    hide SameOutside, Distinct, PhaseFits;
  }

  // ---------------------------------------------------------------- going back

  /** Entries from `i` on are back to before; the others are as rollback found them. */
  ghost predicate Back(start: Files, files: Files, entries: seq<Entry>, i: nat) {
    && SameOutside(start, files, entries)
    && forall j | 0 <= j < |entries| ::
         Fingerprint(Content(files, entries[j].path))
           == if j < i then Fingerprint(Content(start, entries[j].path)) else entries[j].before
  }

  lemma {:induction false} BackStep(start: Files, files: Files, entries: seq<Entry>, i: nat, data: Option<string>)
    requires 0 < i <= |entries| && Back(start, files, entries, i) && Distinct(PathsOf(entries))
    requires Fingerprint(data) == entries[i - 1].before
    ensures Back(start, Put(files, entries[i - 1].path, data), entries, i - 1)
  {
    var files' := Put(files, entries[i - 1].path, data);
    assert entries[i - 1].path == PathsOf(entries)[i - 1];
    forall j | 0 <= j < |entries|
      ensures Fingerprint(Content(files', entries[j].path))
           == if j < i - 1 then Fingerprint(Content(start, entries[j].path)) else entries[j].before
    {
      if j != i - 1 { assert PathsOf(entries)[j] != PathsOf(entries)[i - 1]; }
    }
  }

  lemma {:induction false} BackSkip(start: Files, files: Files, entries: seq<Entry>, i: nat)
    requires 0 < i <= |entries| && Back(start, files, entries, i)
    requires Fingerprint(Content(start, entries[i - 1].path)) == entries[i - 1].before
    ensures Back(start, files, entries, i - 1)
  {
  }

  lemma {:induction false} BackStarts(start: Files, entries: seq<Entry>)
    ensures Back(start, start, entries, |entries|)
  {
  }

  /** However far rollback got, what it leaves is as recoverable as what it found. */
  lemma {:induction false} BackIsRecoverable(original: Files, start: Files, files: Files, b: Backup, i: nat)
    requires Recoverable(original, start, b) && Back(start, files, b.manifest.value.entries, i)
    ensures Recoverable(original, files, b)
  {
    var entries := b.manifest.value.entries;
    assert forall j | 0 <= j < |entries| ::
      Fingerprint(Content(start, entries[j].path)) in [entries[j].before, entries[j].installed];
    hide Inventory;
  }

  /** All the way back is exactly the original files. */
  lemma {:induction false} BackIsOriginal(original: Files, start: Files, files: Files, b: Backup)
    requires Recoverable(original, start, b) && Back(start, files, b.manifest.value.entries, 0)
    ensures files == original
  {
    var entries := b.manifest.value.entries;
    forall path ensures Content(files, path) == Content(original, path) {
      if path in PathsOf(entries) {
        var i :| 0 <= i < |entries| && PathsOf(entries)[i] == path;
        assert Fingerprint(Content(files, path)) == Fingerprint(Content(original, path));
      }
    }
    ContentTells(files, original);
  }

  lemma {:induction false} ContentTells(a: Files, b: Files)
    requires forall path :: Content(a, path) == Content(b, path)
    ensures a == b
  {
    forall path ensures path in a <==> path in b { assert Content(a, path) == Content(b, path); }
    forall path | path in a ensures a[path] == b[path] { assert Content(a, path) == Content(b, path); }
  }

  /** Rollback finds this member as it was before the installation. */
  predicate AlreadyBack(start: Files, e: Entry) {
    Fingerprint(Content(start, e.path)) == e.before
  }

  /** What the attempt says of itself: rolled back is every member, each listed as restored or as back already. */
  predicate AttemptFits(start: Files, entries: seq<Entry>, a: Attempt) {
    && (a.phase.RollingBack? || a.phase.RollbackInterrupted? || a.phase.RolledBack?)
    && (a.phase.RolledBack? ==>
          a.pending.None? && forall i | 0 <= i < |entries| :: entries[i].path in a.restored + a.already)
    && forall i | 0 <= i < |entries| ::
         && (entries[i].path in a.already ==> AlreadyBack(start, entries[i]))
         && (entries[i].path in a.restored ==> !AlreadyBack(start, entries[i]))
  }

  /** What the saved attempt says is so. */
  ghost predicate AttemptAhead(start: Files, files: Files, entries: seq<Entry>, a: Attempt) {
    && AttemptFits(start, entries, a) && SameOutside(start, files, entries)
    && forall i | 0 <= i < |entries| ::
         var e, now := entries[i], Fingerprint(Content(files, entries[i].path));
         if e.path in a.restored + a.already then now == e.before
         else if a.pending == Some(e.path) then now == e.before || now == Fingerprint(Content(start, e.path))
         else now == Fingerprint(Content(start, e.path))
  }

  /** The attempt's two lists are the members from `i` on, those already back and those restored. */
  ghost predicate Handled(start: Files, entries: seq<Entry>, a: Attempt, i: nat) {
    forall j | 0 <= j < |entries| ::
      && (entries[j].path in a.already <==> i <= j && AlreadyBack(start, entries[j]))
      && (entries[j].path in a.restored <==> i <= j && !AlreadyBack(start, entries[j]))
  }

  lemma {:induction false} BackAhead(start: Files, files: Files, entries: seq<Entry>, a: Attempt, i: nat)
    requires i <= |entries| && Distinct(PathsOf(entries)) && Handled(start, entries, a, i)
    requires a.phase.RollingBack? || a.phase.RollbackInterrupted? || (a.phase.RolledBack? && i == 0)
    requires a.pending == None ==> Back(start, files, entries, i)
    requires a.pending != None ==> 0 < i && a.pending == Some(entries[i - 1].path)
    requires a.pending != None ==> Back(start, files, entries, i) || Back(start, files, entries, i - 1)
    ensures AttemptAhead(start, files, entries, a)
  {
    forall j | 0 <= j < |entries| && a.pending == Some(entries[j].path) ensures j == i - 1 {
      assert PathsOf(entries)[j] == PathsOf(entries)[i - 1];
    }
    assert forall j | 0 <= j < |entries| :: entries[j].path in a.restored + a.already <==> i <= j;
    hide SameOutside, Distinct;
  }

  lemma {:induction false} HandleRestored(start: Files, entries: seq<Entry>, a: Attempt, i: nat)
    requires 0 < i <= |entries| && Distinct(PathsOf(entries)) && Handled(start, entries, a, i)
    ensures !AlreadyBack(start, entries[i - 1]) ==>
      Handled(start, entries, a.(restored := a.restored + [entries[i - 1].path], pending := None), i - 1)
    ensures AlreadyBack(start, entries[i - 1]) ==>
      Handled(start, entries, a.(already := a.already + [entries[i - 1].path]), i - 1)
  {
    var path := entries[i - 1].path;
    forall j | 0 <= j < |entries| ensures entries[j].path == path <==> j == i - 1 {
      if j != i - 1 { assert PathsOf(entries)[j] != PathsOf(entries)[i - 1]; }
    }
    assert forall x :: x in a.restored + [path] <==> x in a.restored || x == path;
    assert forall x :: x in a.already + [path] <==> x in a.already || x == path;
    hide AlreadyBack, Distinct;
  }

  // ---------------------------------------------------------------- stacks of installations

  /** An installation that has not been rolled back: its backup, and the files from before it. */
  datatype Layer = Layer(backup: nat, before: Files)

  function After(layers: seq<Layer>, files: Files, i: nat): Files
    requires i < |layers|
  {
    if i + 1 < |layers| then layers[i + 1].before else files
  }

  /** Each layer can be recovered from the files it left. */
  ghost predicate Stack(layers: seq<Layer>, files: Files, backups: seq<Backup>) {
    && (forall i | 0 <= i < |layers| :: layers[i].backup < |backups|)
    && (forall i, j :: 0 <= i < j < |layers| ==> layers[i].backup < layers[j].backup)
    && (forall i | 0 <= i < |layers| ::
      Recoverable(layers[i].before, After(layers, files, i), backups[layers[i].backup]))
  }

  lemma {:induction false} PushLayer(layers: seq<Layer>, before: Files, backups: seq<Backup>, files: Files, b: Backup)
    requires Stack(layers, before, backups) && Recoverable(before, files, b)
    ensures Stack(layers + [Layer(|backups|, before)], files, backups + [b])
  {
    var layers', backups' := layers + [Layer(|backups|, before)], backups + [b];
    hide Recoverable;
    forall i | 0 <= i < |layers'|
      ensures Recoverable(layers'[i].before, After(layers', files, i), backups'[layers'[i].backup])
    {
      if i < |layers| {
        assert After(layers', files, i) == After(layers, before, i);
      }
    }
  }

  lemma {:induction false} PopLayer(layers: seq<Layer>, files: Files, backups: seq<Backup>, backups': seq<Backup>)
    requires Stack(layers, files, backups) && layers != [] && |backups'| == |backups|
    requires forall k | 0 <= k < |backups| && k != layers[|layers| - 1].backup :: backups'[k] == backups[k]
    ensures Stack(layers[..|layers| - 1], layers[|layers| - 1].before, backups')
  {
    var rest := layers[..|layers| - 1];
    hide Recoverable;
    forall i | 0 <= i < |rest|
      ensures Recoverable(rest[i].before, After(rest, layers[|layers| - 1].before, i), backups'[rest[i].backup])
    {
      assert After(rest, layers[|layers| - 1].before, i) == After(layers, files, i);
    }
  }
}
