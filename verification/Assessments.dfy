/** Assessing targets in pages and putting the rows back in the targets' own order. */
module Assessments {
  import opened Common
  import opened Paging
  import opened PagingProofs

  datatype Target = Target(id: string, body: string)

  /** One assessment: the target it names, and everything it says. */
  datatype Row = Row(target: string, body: string)

  /** A completed call: the targets it was given and the rows it returned. */
  datatype Batch = Batch(targets: seq<Target>, rows: seq<Row>)

  datatype Fault =
    | AmbiguousOrder
    | LeafIds
    | TargetChanged
    | AmbiguousCoverage
    | IncompleteCoverage
    | CallStopped

  function TargetIds(targets: seq<Target>): (ids: seq<string>)
    ensures |ids| == |targets| && forall i | 0 <= i < |targets| :: ids[i] == targets[i].id
  {
    seq(|targets|, i requires 0 <= i < |targets| => targets[i].id)
  }

  function RowIds(rows: seq<Row>): (ids: seq<string>)
    ensures |ids| == |rows| && forall i | 0 <= i < |rows| :: ids[i] == rows[i].target
  {
    seq(|rows|, i requires 0 <= i < |rows| => rows[i].target)
  }

  function RowLists(batches: seq<Batch>): (lists: seq<seq<Row>>)
    ensures |lists| == |batches| && forall i | 0 <= i < |batches| :: lists[i] == batches[i].rows
  {
    seq(|batches|, i requires 0 <= i < |batches| => batches[i].rows)
  }

  function TargetLists(batches: seq<Batch>): (lists: seq<seq<Target>>)
    ensures |lists| == |batches| && forall i | 0 <= i < |batches| :: lists[i] == batches[i].targets
  {
    seq(|batches|, i requires 0 <= i < |batches| => batches[i].targets)
  }

  function AllRows(batches: seq<Batch>): seq<Row> {
    Flatten(RowLists(batches))
  }

  function AllTargets(batches: seq<Batch>): seq<Target> {
    Flatten(TargetLists(batches))
  }

  lemma {:induction false} RowsConcat(a: seq<Batch>, b: seq<Batch>)
    ensures AllRows(a + b) == AllRows(a) + AllRows(b)
  {
    assert RowLists(a + b) == RowLists(a) + RowLists(b);
    FlattenConcat(RowLists(a), RowLists(b));
  }

  lemma {:induction false} TargetsConcat(a: seq<Batch>, b: seq<Batch>)
    ensures AllTargets(a + b) == AllTargets(a) + AllTargets(b)
  {
    assert TargetLists(a + b) == TargetLists(a) + TargetLists(b);
    FlattenConcat(TargetLists(a), TargetLists(b));
  }

  lemma {:induction false} OneBatch(b: Batch)
    ensures AllRows([b]) == b.rows && AllTargets([b]) == b.targets
  {
    assert RowLists([b]) == [b.rows] && TargetLists([b]) == [b.targets];
    assert Flatten([b.rows]) == b.rows + Flatten([b.rows][1..]);
    assert Flatten([b.targets]) == b.targets + Flatten([b.targets][1..]);
  }

  // ---------------------------------------------------------------- recomposition

  predicate LeafExact(b: Batch) {
    IdsExact(RowIds(b.rows), TargetIds(b.targets))
  }

  predicate KnownTargets(targets: seq<Target>, b: Batch) {
    forall i | 0 <= i < |b.targets| :: b.targets[i] in targets
  }

  /** Every batch answers its own targets, and together they answer every target once. */
  predicate Recomposable(targets: seq<Target>, batches: seq<Batch>) {
    && Distinct(TargetIds(targets))
    && (forall i | 0 <= i < |batches| :: LeafExact(batches[i]) && KnownTargets(targets, batches[i]))
    && Distinct(RowIds(AllRows(batches)))
    && Elements(RowIds(AllRows(batches))) == Elements(TargetIds(targets))
  }

  ghost predicate Indexed(values: map<string, Row>, rows: seq<Row>) {
    && Distinct(RowIds(rows))
    && values.Keys == Elements(RowIds(rows))
    && forall i | 0 <= i < |rows| :: rows[i].target in values && values[rows[i].target] == rows[i]
  }

  lemma {:induction false} IndexOne(values: map<string, Row>, rows: seq<Row>, row: Row)
    requires Indexed(values, rows)
    ensures row.target !in values ==> Indexed(values[row.target := row], rows + [row])
    ensures row.target in values ==> !Distinct(RowIds(rows + [row]))
  {
    var ids := RowIds(rows);
    assert RowIds(rows + [row]) == ids + [row.target];
    assert forall x :: x in ids + [row.target] <==> x in ids || x == row.target;
    if row.target in values {
      assert row.target in ids;
      var i :| 0 <= i < |ids| && ids[i] == row.target;
      assert (ids + [row.target])[i] == (ids + [row.target])[|ids|];
    }
  }

  lemma {:induction false} PrefixDistinct(a: seq<Row>, b: seq<Row>)
    requires Distinct(RowIds(a + b))
    ensures Distinct(RowIds(a))
  {
    assert forall i | 0 <= i < |a| :: RowIds(a)[i] == RowIds(a + b)[i];
  }

  lemma {:induction false} RowsDistinct(rows: seq<Row>)
    requires Distinct(RowIds(rows))
    ensures Distinct(rows)
  {
    assert forall i | 0 <= i < |rows| :: RowIds(rows)[i] == rows[i].target;
  }

  /** The rows taken in target order are all the rows, each once. */
  lemma {:induction false} OrderedIsPermutation(
      targets: seq<Target>, values: map<string, Row>, all: seq<Row>, rows: seq<Row>)
    requires Indexed(values, all) && Distinct(TargetIds(targets)) && values.Keys == Elements(TargetIds(targets))
    requires |rows| == |targets| && forall i | 0 <= i < |rows| ::
      targets[i].id in values && rows[i] == values[targets[i].id]
    ensures RowIds(rows) == TargetIds(targets) && multiset(rows) == multiset(all)
  {
    forall i | 0 <= i < |rows| ensures rows[i].target == targets[i].id && rows[i] in all {
      assert targets[i].id in RowIds(all);
      var k :| 0 <= k < |all| && RowIds(all)[k] == targets[i].id;
      assert values[all[k].target] == all[k];
    }
    assert RowIds(rows) == TargetIds(targets);
    forall k | 0 <= k < |all| ensures all[k] in rows {
      assert RowIds(all)[k] in TargetIds(targets);
      var i :| 0 <= i < |targets| && TargetIds(targets)[i] == all[k].target;
      assert rows[i] == all[k];
    }
    RowsDistinct(rows);
    RowsDistinct(all);
    assert Elements(rows) == Elements(all);
    SameSetSameBag(rows, all);
  }

  // ---------------------------------------------------------------- the expected targets

  /** The targets by identity; of targets that share one, the last. */
  function Expected(targets: seq<Target>): (m: map<string, Target>)
    ensures m.Keys == Elements(TargetIds(targets))
    ensures forall id | id in m :: m[id].id == id && m[id] in targets
  {
    if targets == [] then map[] else
      var front, last := targets[..|targets| - 1], targets[|targets| - 1];
      assert targets == front + [last];
      assert TargetIds(targets) == TargetIds(front) + [last.id];
      Expected(front)[last.id := last]
  }

  lemma {:induction false} SizeTellsDistinct<T>(s: seq<T>)
    ensures |Elements(s)| <= |s|
    ensures |Elements(s)| == |s| <==> Distinct(s)
  {
    if s == [] {
    } else {
      var front, last := s[..|s| - 1], s[|s| - 1];
      SizeTellsDistinct(front);
      assert s == front + [last];
      assert Elements(s) == Elements(front) + {last};
      if last in Elements(front) {
        var i :| 0 <= i < |front| && front[i] == last;
        assert s[i] == s[|s| - 1];
      } else if Distinct(front) {
        assert forall i | 0 <= i < |front| :: front[i] in Elements(front);
      } else {
        var i, j :| 0 <= i < j < |front| && front[i] == front[j];
        assert s[i] == s[j];
      }
    }
  }

  lemma {:induction false} ExpectedIsKnown(targets: seq<Target>, t: Target)
    requires Distinct(TargetIds(targets))
    ensures (t.id in Expected(targets) && Expected(targets)[t.id] == t) <==> t in targets
  {
    var m := Expected(targets);
    if t in targets {
      var i :| 0 <= i < |targets| && targets[i] == t;
      assert TargetIds(targets)[i] == t.id;
      assert t.id in m;
      var k :| 0 <= k < |targets| && targets[k] == m[t.id];
      assert TargetIds(targets)[k] == t.id;
    }
  }

  method CheckTargets(targets: seq<Target>, expected: map<string, Target>, batch: Batch) returns (known: bool)
    requires Distinct(TargetIds(targets)) && expected == Expected(targets)
    ensures known <==> KnownTargets(targets, batch)
  {
    var i := 0;
    hide Expected, TargetIds, Distinct;
    while i < |batch.targets|
      invariant 0 <= i <= |batch.targets|
      invariant forall k | 0 <= k < i :: batch.targets[k] in targets
    {
      var t := batch.targets[i];
      ExpectedIsKnown(targets, t);
      if t.id !in expected || expected[t.id] != t { return false; }
      i := i + 1;
    }
    known := true;
  }

  method MergeRows(values: map<string, Row>, ghost before: seq<Row>, rows: seq<Row>)
    returns (merged: Option<map<string, Row>>)
    requires Indexed(values, before)
    ensures merged.Some? <==> Distinct(RowIds(before + rows))
    ensures merged.Some? ==> Indexed(merged.value, before + rows)
  {
    var all, i := values, 0;
    assert before + rows[..0] == before;
    while i < |rows|
      invariant 0 <= i <= |rows| && Indexed(all, before + rows[..i])
    {
      IndexOne(all, before + rows[..i], rows[i]);
      assert before + rows[..i + 1] == before + rows[..i] + [rows[i]];
      if rows[i].target in all {
        if Distinct(RowIds(before + rows)) {
          assert before + rows == before + rows[..i + 1] + rows[i + 1..];
          PrefixDistinct(before + rows[..i + 1], rows[i + 1..]);
        }
        return None;
      }
      all := all[rows[i].target := rows[i]];
      i := i + 1;
    }
    assert before + rows[..i] == before + rows;
    merged := Some(all);
  }

  lemma {:induction false} NextBatch(batches: seq<Batch>, b: nat)
    requires b < |batches|
    ensures AllRows(batches[..b + 1]) == AllRows(batches[..b]) + batches[b].rows
    ensures Distinct(RowIds(AllRows(batches))) ==> Distinct(RowIds(AllRows(batches[..b + 1])))
  {
    assert batches[..b + 1] == batches[..b] + [batches[b]];
    RowsConcat(batches[..b], [batches[b]]);
    OneBatch(batches[b]);
    assert batches == batches[..b + 1] + batches[b + 1..];
    RowsConcat(batches[..b + 1], batches[b + 1..]);
    if Distinct(RowIds(AllRows(batches))) {
      PrefixDistinct(AllRows(batches[..b + 1]), AllRows(batches[b + 1..]));
    }
  }

  /** The rows, looked up in the order of the targets. */
  method InTargetOrder(targets: seq<Target>, values: map<string, Row>, ghost all: seq<Row>) returns (rows: seq<Row>)
    requires Indexed(values, all) && Distinct(TargetIds(targets)) && values.Keys == Elements(TargetIds(targets))
    ensures RowIds(rows) == TargetIds(targets) && multiset(rows) == multiset(all)
  {
    forall i | 0 <= i < |targets| ensures targets[i].id in values { assert TargetIds(targets)[i] in values.Keys; }
    rows := seq(|targets|, i requires 0 <= i < |targets| && targets[i].id in values => values[targets[i].id]);
    hide Indexed, Distinct;
    OrderedIsPermutation(targets, values, all, rows);
  }

  lemma {:induction false} Spoiled(targets: seq<Target>, batches: seq<Batch>, b: nat)
    requires b < |batches|
    requires !LeafExact(batches[b]) || !KnownTargets(targets, batches[b])
          || !Distinct(RowIds(AllRows(batches[..b]) + batches[b].rows))
    ensures !Recomposable(targets, batches)
  {
    NextBatch(batches, b);
  }

  lemma {:induction false} RecomposableByKeys(targets: seq<Target>, batches: seq<Batch>, values: map<string, Row>)
    requires Indexed(values, AllRows(batches)) && Distinct(TargetIds(targets))
    requires forall i | 0 <= i < |batches| :: LeafExact(batches[i]) && KnownTargets(targets, batches[i])
    ensures Recomposable(targets, batches) <==> values.Keys == Expected(targets).Keys
  {
    hide LeafExact, KnownTargets, Distinct;
  }

  lemma {:induction false} ExpectedSize(targets: seq<Target>)
    ensures |Expected(targets)| == |targets| <==> Distinct(TargetIds(targets))
    ensures !Distinct(TargetIds(targets)) ==> forall batches :: !Recomposable(targets, batches)
  {
    SizeTellsDistinct(TargetIds(targets));
    assert |Expected(targets)| == |Expected(targets).Keys|;
  }

  /** One saved leaf: its identities, its targets, and rows no earlier leaf has answered. */
  method AddLeaf(
      targets: seq<Target>, expected: map<string, Target>, batches: seq<Batch>, b: nat, values: map<string, Row>)
    returns (r: Result<map<string, Row>, Fault>)
    requires b < |batches| && Distinct(TargetIds(targets)) && expected == Expected(targets)
    requires Indexed(values, AllRows(batches[..b]))
    ensures r.Ok? ==> LeafExact(batches[b]) && KnownTargets(targets, batches[b])
    ensures r.Ok? ==> Indexed(r.value, AllRows(batches[..b + 1]))
    ensures r.Err? ==> !Recomposable(targets, batches) && r.error in [LeafIds, TargetChanged, AmbiguousCoverage]
  {
    hide Recomposable, LeafExact, KnownTargets, Distinct, Indexed, AllRows, RowIds, TargetIds, Expected;
    var batch := batches[b];
    if !LeafExact(batch) { Spoiled(targets, batches, b); return Err(LeafIds); }
    var known := CheckTargets(targets, expected, batch);
    if !known { Spoiled(targets, batches, b); return Err(TargetChanged); }
    var merged := MergeRows(values, AllRows(batches[..b]), batch.rows);
    if merged.None? { Spoiled(targets, batches, b); return Err(AmbiguousCoverage); }
    NextBatch(batches, b);
    r := Ok(merged.value);
  }

  /**
   * `_ordered_assessments`: it succeeds exactly when the batches answer every target once, and then the
   * rows are those the batches hold, in the order of the targets.
   */
  method OrderedAssessments(targets: seq<Target>, batches: seq<Batch>) returns (r: Result<seq<Row>, Fault>)
    ensures r.Ok? <==> Recomposable(targets, batches)
    ensures r.Ok? ==> RowIds(r.value) == TargetIds(targets) && multiset(r.value) == multiset(AllRows(batches))
    ensures r == Err(AmbiguousOrder) <==> !Distinct(TargetIds(targets))
    ensures r.Err? ==> r.error != CallStopped
  {
    hide *;
    var expected := Expected(targets);
    ExpectedSize(targets);
    if |expected| != |targets| { return Err(AmbiguousOrder); }
    var values: map<string, Row>, b := map[], 0;
    NothingIndexed();
    while b < |batches|
      invariant 0 <= b <= |batches| && Indexed(values, AllRows(batches[..b]))
      invariant forall i | 0 <= i < b :: LeafExact(batches[i]) && KnownTargets(targets, batches[i])
    {
      var added := AddLeaf(targets, expected, batches, b, values);
      if added.Err? { return Err(added.error); }
      values := added.value;
      b := b + 1;
    }
    assert batches[..b] == batches;
    RecomposableByKeys(targets, batches, values);
    if values.Keys != expected.Keys { return Err(IncompleteCoverage); }
    var rows := InTargetOrder(targets, values, AllRows(batches));
    r := Ok(rows);
  }

  lemma {:induction false} NothingIndexed()
    ensures Indexed(map[], AllRows([]))
  {
  }

  // ---------------------------------------------------------------- completed pages recompose

  lemma {:induction false} DropIds(targets: seq<Target>, i: nat)
    requires i < |targets|
    ensures TargetIds(Drop(targets, i)) == Drop(TargetIds(targets), i)
  {
  }

  lemma {:induction false} SameTargetsSameIds(a: seq<Target>, b: seq<Target>)
    requires multiset(a) == multiset(b)
    ensures multiset(TargetIds(a)) == multiset(TargetIds(b))
  {
    if a == [] {
      assert |multiset(a)| == |multiset(b)| == 0;
      assert b == [];
    } else {
      assert a[0] in multiset(b);
      var i :| 0 <= i < |b| && b[i] == a[0];
      DropBag(a, 0);
      DropBag(b, i);
      assert multiset(Drop(a, 0)) == multiset(a) - multiset{a[0]};
      assert multiset(Drop(b, i)) == multiset(b) - multiset{a[0]};
      SameTargetsSameIds(Drop(a, 0), Drop(b, i));
      DropIds(a, 0);
      DropIds(b, i);
      DropBag(TargetIds(a), 0);
      DropBag(TargetIds(b), i);
    }
  }

  lemma {:induction false} RowsAnswerTargets(batches: seq<Batch>)
    requires forall i | 0 <= i < |batches| :: LeafExact(batches[i])
    ensures multiset(RowIds(AllRows(batches))) == multiset(TargetIds(AllTargets(batches)))
  {
    if batches == [] {
    } else {
      var b, rest := batches[0], batches[1..];
      assert batches == [b] + rest;
      RowsConcat([b], rest);
      TargetsConcat([b], rest);
      OneBatch(b);
      assert LeafExact(b);
      RowsAnswerTargets(rest);
      hide LeafExact, AllRows, AllTargets;
      assert RowIds(AllRows(batches)) == RowIds(b.rows) + RowIds(AllRows(rest));
      assert TargetIds(AllTargets(batches)) == TargetIds(b.targets) + TargetIds(AllTargets(rest));
    }
  }

  lemma {:induction false} TargetOfBatch(batches: seq<Batch>, i: nat, t: Target)
    requires i < |batches| && t in batches[i].targets
    ensures t in AllTargets(batches)
  {
    assert batches == batches[..i] + ([batches[i]] + batches[i + 1..]);
    TargetsConcat(batches[..i], [batches[i]] + batches[i + 1..]);
    TargetsConcat([batches[i]], batches[i + 1..]);
    OneBatch(batches[i]);
  }

  /**
   * Leaves that hold each target once, in any order, and answer exactly what they hold always recompose:
   * none of the later checks can fail.
   */
  lemma {:induction false} LeavesRecompose(targets: seq<Target>, batches: seq<Batch>)
    requires Distinct(TargetIds(targets)) && multiset(AllTargets(batches)) == multiset(targets)
    requires forall i | 0 <= i < |batches| :: LeafExact(batches[i])
    ensures Recomposable(targets, batches)
  {
    SameTargetsSameIds(AllTargets(batches), targets);
    RowsAnswerTargets(batches);
    DistinctByBag(TargetIds(targets), RowIds(AllRows(batches)));
    SameBagSameSet(TargetIds(targets), RowIds(AllRows(batches)));
    SameBagSameSet(AllTargets(batches), targets);
    forall i | 0 <= i < |batches| ensures KnownTargets(targets, batches[i]) {
      forall k | 0 <= k < |batches[i].targets| ensures batches[i].targets[k] in targets {
        TargetOfBatch(batches, i, batches[i].targets[k]);
        assert batches[i].targets[k] in Elements(AllTargets(batches));
      }
    }
  }

  // ---------------------------------------------------------------- a whole assessment

  /** One greedy group from `start` on: it stops growing at the limit, at the end, or where it no longer fits. */
  method TargetGroup(targets: seq<Target>, start: nat, limit: nat, fits: seq<Target> -> bool) returns (taken: nat)
    requires limit > 0 && start < |targets|
    ensures start < taken <= |targets| && taken - start <= limit
    ensures taken - start > 1 ==> fits(targets[start..taken])
    ensures taken < |targets| && taken - start < limit ==> !fits(targets[start..taken] + [targets[taken]])
  {
    taken := start;
    while taken < |targets| && taken - start < limit
      invariant start <= taken <= |targets| && taken - start <= limit
      invariant taken - start > 1 ==> fits(targets[start..taken])
    {
      if taken > start && !fits(targets[start..taken] + [targets[taken]]) { return; }
      assert targets[start..taken + 1] == targets[start..taken] + [targets[taken]];
      taken := taken + 1;
    }
  }

  /** What a full grouping promises of every group, and of every group that stopped short of the limit. */
  ghost predicate Greedy(groups: seq<seq<Target>>, limit: nat, fits: seq<Target> -> bool) {
    && (forall g | 0 <= g < |groups| :: 1 <= |groups[g]| <= limit && (|groups[g]| > 1 ==> fits(groups[g])))
    && (forall g | 0 <= g < |groups| - 1 && |groups[g]| < limit :: !fits(groups[g] + [groups[g + 1][0]]))
  }

  lemma {:induction false} GreedyNext(
      groups: seq<seq<Target>>, group: seq<Target>, limit: nat, fits: seq<Target> -> bool)
    requires Greedy(groups, limit, fits) && 1 <= |group| <= limit && (|group| > 1 ==> fits(group))
    requires groups != [] && |groups[|groups| - 1]| < limit ==> !fits(groups[|groups| - 1] + [group[0]])
    ensures Greedy(groups + [group], limit, fits)
  {
  }

  /** `_assessment_target_groups`: greedy groups of at most `limit` targets, each growing while it fits. */
  method TargetGroups(targets: seq<Target>, limit: nat, fits: seq<Target> -> bool) returns (groups: seq<seq<Target>>)
    requires limit > 0
    ensures Flatten(groups) == targets && Greedy(groups, limit, fits)
  {
    groups := [];
    var taken := 0;
    assert Greedy(groups, limit, fits) && Flatten(groups) == targets[..0];
    hide *;
    while taken < |targets|
      invariant 0 <= taken <= |targets| && Flatten(groups) == targets[..taken] && Greedy(groups, limit, fits)
      invariant groups != [] && |groups[|groups| - 1]| < limit && taken < |targets| ==>
                  !fits(groups[|groups| - 1] + [targets[taken]])
    {
      var end := TargetGroup(targets, taken, limit, fits);
      var group := targets[taken..end];
      GreedyNext(groups, group, limit, fits);
      FlattenOneMore(groups, group);
      assert targets[..end] == targets[..taken] + group;
      groups, taken := groups + [group], end;
    }
    assert targets[..taken] == targets;
  }

  /** How the targets reach their calls: grouped, one by one, all at once, or cut into pages. */
  datatype Route =
    | Grouped(limit: nat, room: seq<Target> -> bool)
    | EachTarget
    | OnePage
    | Paged(fits: (nat, seq<Target>) -> bool)

  lemma {:induction false} LeafBatches(leaves: seq<Leaf<Target, seq<Row>>>, batches: seq<Batch>)
    requires |batches| == |leaves|
    requires forall i | 0 <= i < |leaves| :: batches[i] == Batch(leaves[i].part, leaves[i].value)
    ensures AllTargets(batches) == Flatten(PartsOf(leaves))
  {
    assert TargetLists(batches) == PartsOf(leaves);
  }

  /** The per-leaf check of an assessment batch. */
  method CheckLeaves(leaves: seq<Leaf<Target, seq<Row>>>) returns (batches: Option<seq<Batch>>)
    ensures batches.Some? ==> AllTargets(batches.value) == Flatten(PartsOf(leaves))
    ensures batches.Some? ==> |batches.value| == |leaves| && forall i | 0 <= i < |leaves| ::
              LeafExact(batches.value[i]) && batches.value[i] == Batch(leaves[i].part, leaves[i].value)
    ensures batches.Some? <==>
      forall i | 0 <= i < |leaves| :: IdsExact(RowIds(leaves[i].value), TargetIds(leaves[i].part))
  {
    var done: seq<Batch>, i := [], 0;
    while i < |leaves|
      invariant 0 <= i <= |leaves| && |done| == i
      invariant forall k | 0 <= k < i :: done[k] == Batch(leaves[k].part, leaves[k].value) && LeafExact(done[k])
    {
      if !IdsExact(RowIds(leaves[i].value), TargetIds(leaves[i].part)) { return None; }
      done := done + [Batch(leaves[i].part, leaves[i].value)];
      i := i + 1;
    }
    LeafBatches(leaves, done);
    batches := Some(done);
  }

  /** The groups are those of the route. */
  ghost predicate GroupedBy(route: Route, targets: seq<Target>, groups: seq<seq<Target>>) {
    && Flatten(groups) == targets
    && match route
       case Grouped(limit, room) => Greedy(groups, limit, room)
       case EachTarget => forall g | 0 <= g < |groups| :: |groups[g]| == 1
       case OnePage => groups == [targets]
       case Paged(fits) => forall g | 0 <= g < |groups| :: groups[g] != [] && fits(g, groups[g])
  }

  /** One target by itself does not fit a page. */
  ghost predicate NoPage(route: Route) {
    route.Paged? && exists n, target :: !route.fits(n, [target])
  }

  lemma {:induction false} StuckHasNoPage(fits: (nat, seq<Target>) -> bool, n: nat, left: seq<Target>)
    requires Stuck(Indivisibles<Target>(), fits, false, n, left)
    ensures NoPage(Paged(fits))
  {
    assert left[..1] == [left[0]] && !fits(n, [left[0]]);
  }

  method Groups(route: Route, targets: seq<Target>) returns (groups: Option<seq<seq<Target>>>)
    requires route.Grouped? ==> route.limit > 0
    ensures groups.Some? ==> GroupedBy(route, targets, groups.value)
    ensures groups.None? ==> NoPage(route)
  {
    hide Greedy;
    match route
    case Grouped(limit, room) =>
      var greedy := TargetGroups(targets, limit, room);
      groups := Some(greedy);
    case EachTarget => groups := Some(Singletons(targets));
    case OnePage =>
      assert Flatten([targets]) == targets + Flatten([targets][1..]);
      groups := Some([targets]);
    case Paged(fits) =>
      IndivisiblesSplitWell<Target>();
      var pages, failed, pendings, left := Pages(Indivisibles<Target>(), fits, targets, false, 0);
      if failed {
        StuckHasNoPage(fits, |pages|, left);
        return None;
      }
      forall g | 0 <= g < |pages| ensures pages[g] != [] && fits(g, pages[g]) {
        assert CutAt(Indivisibles<Target>(), fits, targets, false, 0, pages, pendings, g);
      }
      groups := Some(pages);
  }

  /** The batch is what a call returned for its targets. */
  ghost predicate OfCall(oracles: nat -> Oracle<Target, seq<Row>>, b: Batch) {
    exists group :: FromCall(oracles(group), Leaf(b.targets, b.rows))
  }

  /** Every batch is what a call returned, and answers exactly its own targets. */
  ghost predicate AllOfCalls(oracles: nat -> Oracle<Target, seq<Row>>, batches: seq<Batch>) {
    forall i | 0 <= i < |batches| :: LeafExact(batches[i]) && OfCall(oracles, batches[i])
  }

  lemma {:induction false} MoreBatches(
      oracles: nat -> Oracle<Target, seq<Row>>, batches: seq<Batch>, more: seq<Batch>)
    requires AllOfCalls(oracles, batches) && AllOfCalls(oracles, more)
    ensures AllOfCalls(oracles, batches + more)
  {
    hide OfCall, LeafExact;
  }

  lemma {:induction false} BatchesRecompose(
      targets: seq<Target>, oracles: nat -> Oracle<Target, seq<Row>>, batches: seq<Batch>)
    requires AllOfCalls(oracles, batches) && multiset(AllTargets(batches)) == multiset(targets)
    ensures Distinct(TargetIds(targets)) ==> Recomposable(targets, batches)
  {
    hide OfCall, LeafExact, Recomposable, Distinct, AllTargets;
    if Distinct(TargetIds(targets)) { LeavesRecompose(targets, batches); }
  }

  /** A call for some group could not be completed. */
  ghost predicate CallFails(route: Route, oracles: nat -> Oracle<Target, seq<Row>>) {
    NoPage(route) || exists group, stop :: Blamed(Indivisibles<Target>(), oracles(group), false, stop)
  }

  /** A call returned other rows than one for each of its targets. */
  ghost predicate AnswersOthers(oracles: nat -> Oracle<Target, seq<Row>>) {
    exists b :: OfCall(oracles, b) && !LeafExact(b)
  }

  lemma {:induction false} LeavesOfCall(
      oracles: nat -> Oracle<Target, seq<Row>>, group: nat, leaves: seq<Leaf<Target, seq<Row>>>)
    requires Explained(Indivisibles<Target>(), oracles(group), false, Ok(leaves))
    ensures forall i | 0 <= i < |leaves| :: OfCall(oracles, Batch(leaves[i].part, leaves[i].value))
  {
    hide FromCall;
    forall i | 0 <= i < |leaves| ensures OfCall(oracles, Batch(leaves[i].part, leaves[i].value)) {
      assert FromCall(oracles(group), leaves[i]) && leaves[i] == Leaf(leaves[i].part, leaves[i].value);
    }
  }

  lemma {:induction false} CallBlamed(route: Route, oracles: nat -> Oracle<Target, seq<Row>>, group: nat, stop: Stop)
    requires Explained(Indivisibles<Target>(), oracles(group), false, Err(stop))
    ensures CallFails(route, oracles)
  {
    assert Blamed(Indivisibles<Target>(), oracles(group), false, stop);
    hide Blamed;
  }

  /** One group: its completed call, with every leaf checked. */
  method AssessGroup(
    group: seq<Target>, at: nat, route: Route, oracles: nat -> Oracle<Target, seq<Row>>, corrections: nat)
    returns (r: Result<seq<Batch>, Fault>)
    ensures r.Ok? ==> multiset(AllTargets(r.value)) == multiset(group)
    ensures r.Ok? ==> AllOfCalls(oracles, r.value)
    ensures r.Err? ==> r.error in [CallStopped, LeafIds]
    ensures r == Err(CallStopped) ==> CallFails(route, oracles)
    ensures r == Err(LeafIds) ==> AnswersOthers(oracles)
  {
    IndivisiblesSplitWell<Target>();
    AnyTargets(group);
    hide SplitsWell, AllValid, CompletePage, Explained, OfCall, CallFails, IdsExact;
    var leaves := CompletePage(Indivisibles<Target>(), oracles(at), false, 0, corrections, group);
    CompletesExplained(Indivisibles<Target>(), oracles(at), false, 0, corrections, group);
    if leaves.Err? {
      CallBlamed(route, oracles, at, leaves.error);
      return Err(CallStopped);
    }
    CompletesOnce(Indivisibles<Target>(), oracles(at), 0, corrections, group, leaves.value);
    LeavesOfCall(oracles, at, leaves.value);
    var batches := CheckLeaves(leaves.value);
    if batches.None? {
      var i :| 0 <= i < |leaves.value| && !IdsExact(RowIds(leaves.value[i].value), TargetIds(leaves.value[i].part));
      assert !LeafExact(Batch(leaves.value[i].part, leaves.value[i].value));
      return Err(LeafIds);
    }
    r := Ok(batches.value);
  }

  /**
   * `assess_targets`: whatever the route and however the calls fail, an assessment that returns holds one
   * row for each target, in the targets' own order, each row as a call returned it for this target. It fails only
   * where a call cannot be completed or answers something else, and for target lists that repeat an identity.
   */
  method Assess(targets: seq<Target>, route: Route, oracles: nat -> Oracle<Target, seq<Row>>, corrections: nat)
    returns (r: Result<seq<Row>, Fault>, batches: seq<Batch>)
    requires route.Grouped? ==> route.limit > 0
    ensures r.Ok? ==> RowIds(r.value) == TargetIds(targets) && multiset(r.value) == multiset(AllRows(batches))
    ensures r.Ok? ==> multiset(AllTargets(batches)) == multiset(targets)
    ensures AllOfCalls(oracles, batches)
    ensures r.Err? ==> r.error in [CallStopped, LeafIds, AmbiguousOrder]
    ensures r == Err(CallStopped) ==> CallFails(route, oracles)
    ensures r == Err(LeafIds) ==> AnswersOthers(oracles)
    ensures r == Err(AmbiguousOrder) ==> !Distinct(TargetIds(targets))
    ensures !Distinct(TargetIds(targets)) ==> r.Err?
  {
    hide *;
    batches := [];
    var groups := Groups(route, targets);
    NoBatches(route, oracles);
    if groups.None? { return Err(CallStopped), batches; }
    StartGroups(route, targets, groups.value);
    var i := 0;
    while i < |groups.value|
      invariant 0 <= i <= |groups.value|
      invariant multiset(AllTargets(batches)) == multiset(Flatten(groups.value[..i]))
      invariant AllOfCalls(oracles, batches)
    {
      var more := AssessGroup(groups.value[i], i, route, oracles, corrections);
      if more.Err? { return Err(more.error), batches; }
      NextGroup(groups.value, i, batches, more.value);
      MoreBatches(oracles, batches, more.value);
      batches := batches + more.value;
      i := i + 1;
    }
    assert groups.value[..i] == groups.value;
    BatchesRecompose(targets, oracles, batches);
    r := OrderedAssessments(targets, batches);
  }

  lemma {:induction false} NoBatches(route: Route, oracles: nat -> Oracle<Target, seq<Row>>)
    ensures AllOfCalls(oracles, []) && (NoPage(route) ==> CallFails(route, oracles))
  {
  }

  lemma {:induction false} StartGroups(route: Route, targets: seq<Target>, groups: seq<seq<Target>>)
    requires GroupedBy(route, targets, groups)
    ensures Flatten(groups) == targets
    ensures multiset(AllTargets([])) == multiset(Flatten(groups[..0]))
  {
    assert TargetLists([]) == [] && groups[..0] == [];
  }

  lemma {:induction false} AnyTargets(group: seq<Target>)
    ensures AllValid(Indivisibles<Target>(), group)
  {
  }

  lemma {:induction false} NextGroup(groups: seq<seq<Target>>, i: nat, batches: seq<Batch>, more: seq<Batch>)
    requires i < |groups| && multiset(AllTargets(batches)) == multiset(Flatten(groups[..i]))
    requires multiset(AllTargets(more)) == multiset(groups[i])
    ensures multiset(AllTargets(batches + more)) == multiset(Flatten(groups[..i + 1]))
  {
    TargetsConcat(batches, more);
    FlattenNext(groups, i);
  }
}
