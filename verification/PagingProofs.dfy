/** Under every failure pattern, completed pages hold exactly the work they were given. */
module PagingProofs {
  import opened Common
  import opened Paging

  function PartsOf<T, V>(leaves: seq<Leaf<T, V>>): (parts: seq<seq<T>>)
    ensures |parts| == |leaves| && forall i | 0 <= i < |leaves| :: parts[i] == leaves[i].part
  {
    if leaves == [] then [] else [leaves[0].part] + PartsOf(leaves[1..])
  }

  lemma {:induction false} PartsConcat<T, V>(a: seq<Leaf<T, V>>, b: seq<Leaf<T, V>>)
    ensures Flatten(PartsOf(a + b)) == Flatten(PartsOf(a)) + Flatten(PartsOf(b))
  {
    hide Flatten;
    assert PartsOf(a + b) == PartsOf(a) + PartsOf(b) by {
      forall i | 0 <= i < |a| + |b| ensures PartsOf(a + b)[i] == (PartsOf(a) + PartsOf(b))[i] {
        if i < |a| { assert (a + b)[i] == a[i]; } else { assert (a + b)[i] == b[i - |a|]; }
      }
    }
    hide PartsOf;
    FlattenConcat(PartsOf(a), PartsOf(b));
  }

  /** The items of all parts of a split, and their characters. */
  lemma {:induction false} SmallerPartsKeep<T(!new), A>(
    kit: Kit<T, A>, part: seq<T>, split: bool, wrongCount: bool, parts: seq<seq<T>>)
    requires SplitsWell(kit) && AllValid(kit, part)
    requires SmallerParts(kit, part, split, wrongCount) == Ok(parts)
    ensures AtomsOf(kit, Flatten(parts)) == AtomsOf(kit, part)
    ensures !split ==> Flatten(parts) == part
  {
    if wrongCount || |part| > 1 {
      HalvesFlatten(part);
    } else {
      assert kit.valid(part[0]) && part == [part[0]];
      assert AtomsOf(kit, [part[0]]) == kit.atoms(part[0]) + AtomsOf(kit, [part[0]][1..]);
    }
  }

  /** Without partial answers the leaves are the page, item by item or character by character, in order. */
  ghost predicate InOrder<T, A, V>(kit: Kit<T, A>, split: bool, part: seq<T>, leaves: seq<Leaf<T, V>>) {
    && AtomsOf(kit, Flatten(PartsOf(leaves))) == AtomsOf(kit, part)
    && (!split ==> Flatten(PartsOf(leaves)) == part)
  }

  lemma {:induction false} OneLeafInOrder<T, A, V>(kit: Kit<T, A>, split: bool, part: seq<T>, value: V)
    ensures InOrder(kit, split, part, [Leaf(part, value)])
  {
    assert PartsOf([Leaf(part, value)]) == [part];
    assert Flatten([part]) == part + Flatten([part][1..]);
    assert Flatten(PartsOf([Leaf(part, value)])) == part;
  }

  /**
   * Whatever the pattern of overfull pages, truncations and wrong counts, a page that completes yields
   * its work in the original order: nothing is lost, repeated or moved.
   */
  lemma {:induction false} CompletesInOrder<T(!new), A, V>(
    kit: Kit<T, A>, oracle: Oracle<T, V>, split: bool, depth: nat, corrections: nat, part: seq<T>,
    leaves: seq<Leaf<T, V>>)
    requires SplitsWell(kit) && AllValid(kit, part) && !oracle.subsets
    requires CompletePage(kit, oracle, split, depth, corrections, part) == Ok(leaves)
    ensures InOrder(kit, split, part, leaves)
    decreases Weight(kit, part), 2, 0
  {
    if oracle.fits(depth, part) && oracle.answer(depth, part).Complete? {
      OneLeafInOrder(kit, split, part, oracle.answer(depth, part).value);
    } else {
      var wrongCount := oracle.fits(depth, part) && oracle.answer(depth, part).WrongCount?;
      SmallerInOrder(kit, oracle, split, depth, corrections, part, wrongCount, leaves);
    }
  }

  /** The same after a failure that is already known. */
  lemma {:induction false} SmallerInOrder<T(!new), A, V>(
    kit: Kit<T, A>, oracle: Oracle<T, V>, split: bool, depth: nat, corrections: nat, part: seq<T>, wrongCount: bool,
    leaves: seq<Leaf<T, V>>)
    requires SplitsWell(kit) && AllValid(kit, part) && !oracle.subsets
    requires CompleteSmaller(kit, oracle, split, depth, corrections, part, wrongCount) == Ok(leaves)
    ensures InOrder(kit, split, part, leaves)
    decreases Weight(kit, part), 1, 0
  {
    var parts := SmallerParts(kit, part, split, wrongCount).value;
    forall i | 0 <= i < |parts| ensures AllValid(kit, parts[i]) && Weight(kit, parts[i]) < Weight(kit, part) {
      SmallerPartsShrink(kit, part, split, wrongCount, parts, i);
    }
    hide CompletePage, SmallerParts, SplitsWell, Partition;
    AllCompleteInOrder(kit, oracle, split, depth, corrections, Weight(kit, part), parts, leaves);
    SmallerPartsKeep(kit, part, split, wrongCount, parts);
  }

  lemma {:induction false} AllCompleteInOrder<T(!new), A, V>(
    kit: Kit<T, A>, oracle: Oracle<T, V>, split: bool, depth: nat, corrections: nat, bound: nat, parts: seq<seq<T>>,
    leaves: seq<Leaf<T, V>>)
    requires SplitsWell(kit) && !oracle.subsets
    requires forall i | 0 <= i < |parts| :: AllValid(kit, parts[i]) && Weight(kit, parts[i]) < bound
    requires CompleteAll(kit, oracle, split, depth, corrections, bound, parts) == Ok(leaves)
    ensures InOrder(kit, split, Flatten(parts), leaves)
    decreases bound, 0, |parts|
  {
    if parts == [] {
    } else {
      var first := CompletePage(kit, oracle, split, depth, corrections, parts[0]).value;
      var rest := CompleteAll(kit, oracle, split, depth, corrections, bound, parts[1..]).value;
      hide CompletePage, SplitsWell;
      CompletesInOrder(kit, oracle, split, depth, corrections, parts[0], first);
      AllCompleteInOrder(kit, oracle, split, depth, corrections, bound, parts[1..], rest);
      PartsConcat(first, rest);
      AtomsConcat(kit, Flatten(PartsOf(first)), Flatten(PartsOf(rest)));
      AtomsConcat(kit, parts[0], Flatten(parts[1..]));
    }
  }

  // ---------------------------------------------------------------- every leaf is valid work

  lemma {:induction false} AllValidConcat<T, A>(kit: Kit<T, A>, a: seq<T>, b: seq<T>)
    requires AllValid(kit, a) && AllValid(kit, b)
    ensures AllValid(kit, a + b)
  {
  }

  /** For every failure pattern, partial answers included, the leaves hold valid items only. */
  lemma {:induction false} LeavesValid<T(!new), A, V>(
    kit: Kit<T, A>, oracle: Oracle<T, V>, split: bool, depth: nat, corrections: nat, part: seq<T>,
    leaves: seq<Leaf<T, V>>)
    requires SplitsWell(kit) && AllValid(kit, part)
    requires CompletePage(kit, oracle, split, depth, corrections, part) == Ok(leaves)
    ensures AllValid(kit, Flatten(PartsOf(leaves)))
    decreases corrections, Weight(kit, part), 1, 0
  {
    if oracle.fits(depth, part) && oracle.answer(depth, part).Complete? {
      OneLeafInOrder(kit, false, part, oracle.answer(depth, part).value);
    } else if oracle.fits(depth, part) && oracle.answer(depth, part).Partial? {
      var Partial(retained, value, unresolved) := oracle.answer(depth, part);
      var rows := PartRows(part, retained, unresolved, retained);
      var kept: seq<Leaf<T, V>> := if retained == [] then [] else [Leaf(rows, value)];
      if retained != [] { OneLeafInOrder(kit, false, rows, value); }
      assert AllValid(kit, Flatten(PartsOf(kept)));
      if unresolved != [] {
        var pending := PartRows(part, retained, unresolved, unresolved);
        assert AllValid(kit, pending);
        var rest := CompletePage(kit, oracle, split, depth + 1, corrections - 1, pending).value;
        assert leaves == kept + rest;
        hide CompletePage, SplitsWell, Partition;
        LeavesValid(kit, oracle, split, depth + 1, corrections - 1, pending, rest);
        PartsConcat(kept, rest);
        AllValidConcat(kit, Flatten(PartsOf(kept)), Flatten(PartsOf(rest)));
      }
    } else {
      var wrongCount := oracle.fits(depth, part) && oracle.answer(depth, part).WrongCount?;
      assert CompleteSmaller(kit, oracle, split, depth, corrections, part, wrongCount) == Ok(leaves);
      var parts := SmallerParts(kit, part, split, wrongCount).value;
      forall i | 0 <= i < |parts| ensures AllValid(kit, parts[i]) && Weight(kit, parts[i]) < Weight(kit, part) {
        SmallerPartsShrink(kit, part, split, wrongCount, parts, i);
      }
      hide CompletePage, SmallerParts, SplitsWell, Partition;
      AllLeavesValid(kit, oracle, split, depth, corrections, Weight(kit, part), parts, leaves);
    }
  }

  lemma {:induction false} AllLeavesValid<T(!new), A, V>(
    kit: Kit<T, A>, oracle: Oracle<T, V>, split: bool, depth: nat, corrections: nat, bound: nat, parts: seq<seq<T>>,
    leaves: seq<Leaf<T, V>>)
    requires SplitsWell(kit)
    requires forall i | 0 <= i < |parts| :: AllValid(kit, parts[i]) && Weight(kit, parts[i]) < bound
    requires CompleteAll(kit, oracle, split, depth, corrections, bound, parts) == Ok(leaves)
    ensures AllValid(kit, Flatten(PartsOf(leaves)))
    decreases corrections, bound, 0, 0, |parts|
  {
    if parts == [] {
    } else {
      var first := CompletePage(kit, oracle, split, depth, corrections, parts[0]).value;
      var rest := CompleteAll(kit, oracle, split, depth, corrections, bound, parts[1..]).value;
      hide CompletePage, SplitsWell;
      LeavesValid(kit, oracle, split, depth, corrections, parts[0], first);
      AllLeavesValid(kit, oracle, split, depth, corrections, bound, parts[1..], rest);
      PartsConcat(first, rest);
      AllValidConcat(kit, Flatten(PartsOf(first)), Flatten(PartsOf(rest)));
    }
  }

  // ---------------------------------------------------------------- partial answers

  function Below(n: nat): (r: set<nat>)
    ensures |r| == n && forall k: nat :: k in r <==> k < n
  {
    if n == 0 then {} else Below(n - 1) + {n - 1}
  }

  lemma {:induction false} DistinctBounded(s: seq<nat>, n: nat)
    requires Distinct(s) && |s| == n && forall i | 0 <= i < |s| :: s[i] < n
    ensures forall k: nat | k < n :: k in s
  {
    DistinctSize(s);
    SubsetFull(Elements(s), Below(n));
    forall k: nat | k < n ensures k in s { assert k in Below(n) && k in Elements(s); }
  }

  lemma {:induction false} DistinctSize<T>(s: seq<T>)
    requires Distinct(s)
    ensures |Elements(s)| == |s|
  {
    if s == [] {
    } else {
      var front := s[..|s| - 1];
      DistinctSize(front);
      assert s == front + [s[|s| - 1]];
      assert Elements(s) == Elements(front) + {s[|s| - 1]};
    }
  }

  lemma {:induction false} SubsetFull(a: set<nat>, b: set<nat>)
    requires a <= b && |a| == |b|
    ensures a == b
  {
    if x :| x in b && x !in a {
      assert a <= b - {x};
      SubsetSize(a, b - {x});
    }
  }

  lemma {:induction false} SubsetSize(a: set<nat>, b: set<nat>)
    requires a <= b
    ensures |a| <= |b|
  {
    if a == {} {
    } else {
      var x :| x in a;
      SubsetSize(a - {x}, b - {x});
    }
  }

  function Drop<T>(s: seq<T>, i: nat): (r: seq<T>)
    requires i < |s|
    ensures |r| == |s| - 1 && forall k | 0 <= k < |r| :: r[k] == s[if k < i then k else k + 1]
  {
    s[..i] + s[i + 1..]
  }

  lemma {:induction false} DropBag<T>(s: seq<T>, i: nat)
    requires i < |s|
    ensures multiset(s) == multiset(Drop(s, i)) + multiset{s[i]}
  {
    assert s == s[..i] + ([s[i]] + s[i + 1..]);
    assert multiset(s) == multiset(s[..i]) + multiset([s[i]] + s[i + 1..]);
    assert multiset(Drop(s, i)) == multiset(s[..i]) + multiset(s[i + 1..]);
  }

  lemma {:induction false} DropDistinct(at: seq<nat>, i: nat)
    requires Distinct(at) && i < |at|
    ensures Distinct(Drop(at, i)) && forall k | 0 <= k < |at| - 1 :: Drop(at, i)[k] != at[i]
  {
  }

  lemma {:induction false} DropRows<T>(part: seq<T>, at: seq<nat>, i: nat)
    requires part != [] && i < |at| && at[i] == |part| - 1 && Distinct(at)
    requires forall k | 0 <= k < |at| :: at[k] < |part|
    ensures forall k | 0 <= k < |Drop(at, i)| :: Drop(at, i)[k] < |part[..|part| - 1]|
    ensures Drop(Rows(part, at), i) == Rows(part[..|part| - 1], Drop(at, i))
  {
    DropDistinct(at, i);
    hide Distinct;
  }

  /** Rows taken by every index exactly once are the page, as a bag. */
  lemma {:induction false} RowsBag<T>(part: seq<T>, at: seq<nat>)
    requires Distinct(at) && |at| == |part| && forall i | 0 <= i < |at| :: at[i] < |part|
    ensures multiset(Rows(part, at)) == multiset(part)
  {
    if part == [] {
      assert Rows(part, at) == part;
    } else {
      var n := |part| - 1;
      DistinctBounded(at, |part|);
      assert n in at;
      var i :| 0 <= i < |at| && at[i] == n;
      DropDistinct(at, i);
      DropRows(part, at, i);
      RowsBag(part[..n], Drop(at, i));
      DropBag(Rows(part, at), i);
      assert part == part[..n] + [part[n]];
    }
  }

  lemma {:induction false} PartialBag<T>(part: seq<T>, retained: seq<nat>, unresolved: seq<nat>)
    requires Partition(|part|, retained, unresolved)
    ensures multiset(PartRows(part, retained, unresolved, retained)) +
      multiset(PartRows(part, retained, unresolved, unresolved))
         == multiset(part)
  {
    RowsBag(part, retained + unresolved);
    var a, b := PartRows(part, retained, unresolved, retained), PartRows(part, retained, unresolved, unresolved);
    assert Rows(part, retained + unresolved) == a + b;
    assert multiset(a + b) == multiset(a) + multiset(b);
  }

  /**
   * Partial answers, and their corrections, may reorder the work, but for every failure pattern each item
   * of the page is in exactly as many leaves as it was in the page.
   */
  lemma {:induction false} CompletesOnce<T(!new), A, V>(
    kit: Kit<T, A>, oracle: Oracle<T, V>, depth: nat, corrections: nat, part: seq<T>, leaves: seq<Leaf<T, V>>)
    requires SplitsWell(kit) && AllValid(kit, part)
    requires CompletePage(kit, oracle, false, depth, corrections, part) == Ok(leaves)
    ensures multiset(Flatten(PartsOf(leaves))) == multiset(part)
    decreases corrections, Weight(kit, part), 1, 0
  {
    if oracle.fits(depth, part) && oracle.answer(depth, part).Complete? {
      OneLeafInOrder(kit, false, part, oracle.answer(depth, part).value);
    } else if oracle.fits(depth, part) && oracle.answer(depth, part).Partial? {
      PartialCompletesOnce(kit, oracle, depth, corrections, part, leaves);
    } else {
      var wrongCount := oracle.fits(depth, part) && oracle.answer(depth, part).WrongCount?;
      assert CompleteSmaller(kit, oracle, false, depth, corrections, part, wrongCount) == Ok(leaves);
      var parts := SmallerParts(kit, part, false, wrongCount).value;
      forall i | 0 <= i < |parts| ensures AllValid(kit, parts[i]) && Weight(kit, parts[i]) < Weight(kit, part) {
        SmallerPartsShrink(kit, part, false, wrongCount, parts, i);
      }
      hide CompletePage, SmallerParts, SplitsWell, Partition;
      AllCompleteOnce(kit, oracle, depth, corrections, Weight(kit, part), parts, leaves);
      SmallerPartsKeep(kit, part, false, wrongCount, parts);
    }
  }

  lemma {:induction false} PartialCompletesOnce<T(!new), A, V>(
    kit: Kit<T, A>, oracle: Oracle<T, V>, depth: nat, corrections: nat, part: seq<T>, leaves: seq<Leaf<T, V>>)
    requires SplitsWell(kit) && AllValid(kit, part)
    requires oracle.fits(depth, part) && oracle.answer(depth, part).Partial?
    requires CompletePage(kit, oracle, false, depth, corrections, part) == Ok(leaves)
    ensures multiset(Flatten(PartsOf(leaves))) == multiset(part)
    decreases corrections, Weight(kit, part), 0, 0
  {
    var Partial(retained, value, unresolved) := oracle.answer(depth, part);
    PartialBag(part, retained, unresolved);
    var rows := PartRows(part, retained, unresolved, retained);
    var kept: seq<Leaf<T, V>> := if retained == [] then [] else [Leaf(rows, value)];
    assert Flatten(PartsOf(kept)) == rows by {
      if retained != [] { OneLeafInOrder(kit, false, rows, value); }
    }
    if unresolved == [] {
      assert leaves == kept;
    } else {
      var pending := PartRows(part, retained, unresolved, unresolved);
      assert AllValid(kit, pending);
      var rest := CompletePage(kit, oracle, false, depth + 1, corrections - 1, pending).value;
      assert leaves == kept + rest;
      hide CompletePage, SplitsWell, Partition;
      CompletesOnce(kit, oracle, depth + 1, corrections - 1, pending, rest);
      PartsConcat(kept, rest);
    }
  }

  lemma {:induction false} AllCompleteOnce<T(!new), A, V>(
    kit: Kit<T, A>, oracle: Oracle<T, V>, depth: nat, corrections: nat, bound: nat, parts: seq<seq<T>>,
    leaves: seq<Leaf<T, V>>)
    requires SplitsWell(kit)
    requires forall i | 0 <= i < |parts| :: AllValid(kit, parts[i]) && Weight(kit, parts[i]) < bound
    requires CompleteAll(kit, oracle, false, depth, corrections, bound, parts) == Ok(leaves)
    ensures multiset(Flatten(PartsOf(leaves))) == multiset(Flatten(parts))
    decreases corrections, bound, 0, 0, |parts|
  {
    if parts == [] {
    } else {
      var first := CompletePage(kit, oracle, false, depth, corrections, parts[0]).value;
      var rest := CompleteAll(kit, oracle, false, depth, corrections, bound, parts[1..]).value;
      hide CompletePage, SplitsWell;
      CompletesOnce(kit, oracle, depth, corrections, parts[0], first);
      AllCompleteOnce(kit, oracle, depth, corrections, bound, parts[1..], rest);
      PartsConcat(first, rest);
    }
  }

  // ---------------------------------------------------------------- exactly what is made smaller, and how

  predicate DividesInto<T(==), A>(kit: Kit<T, A>, part: seq<T>, pieces: seq<T>) {
    |part| == 1 && kit.split(part[0]) == Some(pieces) && pieces != [] && pieces != part
  }

  /** Chunks of one width, the last of them no wider. */
  predicate EvenChunks<T>(parts: seq<seq<T>>, width: nat) {
    && (forall i | 0 <= i < |parts| :: 0 < |parts[i]| <= width)
    && forall i | 0 <= i < |parts| - 1 :: |parts[i]| == width
  }

  lemma {:induction false} ChunksEven<T>(part: seq<T>, width: nat)
    requires width > 0
    ensures EvenChunks(Chunks(part, width), width)
  {
    if |part| > width {
      ChunksEven(part[width..], width);
      var rest := Chunks(part[width..], width);
      var parts := Chunks(part, width);
      assert parts == [part[..width]] + rest;
      forall i | 0 <= i < |parts| - 1 ensures |parts[i]| == width {
        if i > 0 { assert parts[i] == rest[i - 1]; }
      }
    }
  }

  /**
   * More than one item is always made smaller: in two halves, or after a wrong count in chunks of at most half the
   * items. One item is made smaller exactly when it may be split and splits into something else: piece by piece.
   */
  lemma {:induction false} SmallerPartsExactly<T(!new), A>(
      kit: Kit<T, A>, part: seq<T>, split: bool, wrongCount: bool)
    ensures SmallerParts(kit, part, split, wrongCount).Ok? <==>
      |part| > 1 || (split && !wrongCount && exists pieces :: DividesInto(kit, part, pieces))
    ensures SmallerParts(kit, part, split, wrongCount).Ok? ==>
      var parts := SmallerParts(kit, part, split, wrongCount).value;
      if |part| > 1 && wrongCount then
        Flatten(parts) == part && EvenChunks(parts, Half(|part|))
      else if |part| > 1 then
        && |parts| == 2 && parts[0] + parts[1] == part
        && 0 < |parts[0]| <= |parts[1]| <= |parts[0]| + 1
      else
        DividesInto(kit, part, Flatten(parts)) && forall i | 0 <= i < |parts| :: |parts[i]| == 1
    ensures SmallerParts(kit, part, split, wrongCount).Err? ==>
      SmallerParts(kit, part, split, wrongCount) == Err(Indivisible)
  {
    if wrongCount && |part| > 1 { ChunksEven(part, Width(|part|, |part|)); }
    if |part| == 1 && kit.split(part[0]).Some? {
      var pieces := kit.split(part[0]).value;
      assert DividesInto(kit, part, pieces) <==> pieces != [] && pieces != part;
    }
    hide Chunks, Singletons, EvenChunks, Flatten;
  }

  // ---------------------------------------------------------------- what a leaf is, and what a failure means

  /** The leaf is a page that fitted and was answered, or the rows of such a page that a partial answer retained. */
  ghost predicate FromCall<T(!new), V>(oracle: Oracle<T, V>, leaf: Leaf<T, V>) {
    exists depth, page :: FromCallAt(oracle, depth, page, leaf)
  }

  predicate FromCallAt<T(==), V(==)>(oracle: Oracle<T, V>, depth: nat, page: seq<T>, leaf: Leaf<T, V>) {
    && oracle.fits(depth, page)
    && match oracle.answer(depth, page)
       case Complete(value) => leaf.part == page && leaf.value == value
       case Partial(retained, value, unresolved) =>
         && oracle.subsets && Partition(|page|, retained, unresolved) && leaf.value == value
         && leaf.part == PartRows(page, retained, unresolved, retained)
       case _ => false
  }

  /** The page is one on which nothing more can be done, for this reason. */
  ghost predicate BlamedAt<T(!new), A, V>(
    kit: Kit<T, A>, oracle: Oracle<T, V>, split: bool, depth: nat, page: seq<T>, stop: Stop) {
    match stop
    case CallFailed => oracle.fits(depth, page) && oracle.answer(depth, page).Fatal?
    case ForeignSubset =>
      && oracle.fits(depth, page) && oracle.answer(depth, page).Partial?
      && var Partial(retained, _, unresolved) := oracle.answer(depth, page);
         !oracle.subsets || !Partition(|page|, retained, unresolved)
    case CorrectionsExhausted =>
      oracle.fits(depth, page) && oracle.answer(depth, page).Partial? && oracle.answer(depth, page).unresolved != []
    case Indivisible =>
      && |page| <= 1
      && if oracle.fits(depth, page) && !oracle.answer(depth, page).Truncated?
         then oracle.answer(depth, page).WrongCount?
         else !(split && exists pieces :: DividesInto(kit, page, pieces))
  }

  /** Some page of valid work is to blame. */
  ghost predicate Blamed<T(!new), A, V>(kit: Kit<T, A>, oracle: Oracle<T, V>, split: bool, stop: Stop) {
    exists depth, page :: AllValid(kit, page) && BlamedAt(kit, oracle, split, depth, page, stop)
  }

  /** Every leaf was answered, and a failure has a page to blame. */
  ghost predicate Explained<T(!new), A, V>(
    kit: Kit<T, A>, oracle: Oracle<T, V>, split: bool, r: Result<seq<Leaf<T, V>>, Stop>) {
    match r
    case Ok(leaves) => forall i | 0 <= i < |leaves| :: FromCall(oracle, leaves[i])
    case Err(stop) => Blamed(kit, oracle, split, stop)
  }

  lemma {:induction false} SmallerExplained<T(!new), A, V>(
    kit: Kit<T, A>, oracle: Oracle<T, V>, split: bool, depth: nat, corrections: nat, part: seq<T>, wrongCount: bool)
    requires SplitsWell(kit) && AllValid(kit, part)
    requires if oracle.fits(depth, part) && !oracle.answer(depth, part).Truncated?
      then wrongCount && oracle.answer(depth, part).WrongCount? else !wrongCount
    ensures Explained(kit, oracle, split, CompleteSmaller(kit, oracle, split, depth, corrections, part, wrongCount))
    decreases corrections, Weight(kit, part), 1, 0
  {
    SmallerPartsExactly(kit, part, split, wrongCount);
    if SmallerParts(kit, part, split, wrongCount).Ok? {
      var parts := SmallerParts(kit, part, split, wrongCount).value;
      forall i | 0 <= i < |parts| ensures AllValid(kit, parts[i]) && Weight(kit, parts[i]) < Weight(kit, part) {
        SmallerPartsShrink(kit, part, split, wrongCount, parts, i);
      }
      hide SmallerParts, SplitsWell, CompletePage;
      AllExplained(kit, oracle, split, depth, corrections, Weight(kit, part), parts);
      hide BlamedAt, FromCallAt;
    } else {
      assert BlamedAt(kit, oracle, split, depth, part, Indivisible);
      hide SmallerParts, SplitsWell, CompletePage;
    }
  }

  lemma {:induction false} AllExplained<T(!new), A, V>(
    kit: Kit<T, A>, oracle: Oracle<T, V>, split: bool, depth: nat, corrections: nat, bound: nat, parts: seq<seq<T>>)
    requires SplitsWell(kit)
    requires forall i | 0 <= i < |parts| :: AllValid(kit, parts[i]) && Weight(kit, parts[i]) < bound
    ensures Explained(kit, oracle, split, CompleteAll(kit, oracle, split, depth, corrections, bound, parts))
    decreases corrections, bound, 0, 0, |parts|
  {
    hide SplitsWell, Blamed, FromCall;
    if parts == [] {
    } else {
      CompletesExplained(kit, oracle, split, depth, corrections, parts[0]);
      AllExplained(kit, oracle, split, depth, corrections, bound, parts[1..]);
      hide CompletePage;
    }
  }

  lemma {:induction false} PartialExplained<T(!new), A, V>(
    kit: Kit<T, A>, oracle: Oracle<T, V>, split: bool, depth: nat, corrections: nat, part: seq<T>)
    requires SplitsWell(kit) && AllValid(kit, part)
    requires oracle.fits(depth, part) && oracle.answer(depth, part).Partial?
    ensures Explained(kit, oracle, split, CompletePage(kit, oracle, split, depth, corrections, part))
    decreases corrections, Weight(kit, part), 1, 0
  {
    var Partial(retained, value, unresolved) := oracle.answer(depth, part);
    var r := CompletePage(kit, oracle, split, depth, corrections, part);
    if !oracle.subsets || !Partition(|part|, retained, unresolved) {
      assert BlamedAt(kit, oracle, split, depth, part, ForeignSubset);
    } else {
      var rows := PartRows(part, retained, unresolved, retained);
      assert FromCallAt(oracle, depth, part, Leaf(rows, value));
      if unresolved != [] {
        if corrections == 0 {
          assert BlamedAt(kit, oracle, split, depth, part, CorrectionsExhausted);
        } else {
          var pending := PartRows(part, retained, unresolved, unresolved);
          assert AllValid(kit, pending);
          var rest := CompletePage(kit, oracle, split, depth + 1, corrections - 1, pending);
          hide BlamedAt, FromCallAt, SplitsWell, Partition;
          CompletesExplained(kit, oracle, split, depth + 1, corrections - 1, pending);
        }
      }
    }
  }

  /** Whatever the calls do, every leaf of a completed page was answered as it stands, and a failure has a cause. */
  lemma {:induction false} CompletesExplained<T(!new), A, V>(
    kit: Kit<T, A>, oracle: Oracle<T, V>, split: bool, depth: nat, corrections: nat, part: seq<T>)
    requires SplitsWell(kit) && AllValid(kit, part)
    ensures Explained(kit, oracle, split, CompletePage(kit, oracle, split, depth, corrections, part))
    decreases corrections, Weight(kit, part), 2, 0
  {
    if !oracle.fits(depth, part) {
      SmallerExplained(kit, oracle, split, depth, corrections, part, false);
    } else {
      match oracle.answer(depth, part)
      case Complete(value) => assert FromCallAt(oracle, depth, part, Leaf(part, value));
      case Fatal => assert BlamedAt(kit, oracle, split, depth, part, CallFailed);
      case Truncated => SmallerExplained(kit, oracle, split, depth, corrections, part, false);
      case WrongCount => SmallerExplained(kit, oracle, split, depth, corrections, part, true);
      case Partial(retained, value, unresolved) => PartialExplained(kit, oracle, split, depth, corrections, part);
    }
  }

  /** A page that fits is asked as it stands, and its own answer is taken. */
  lemma {:induction false} WholePageFirst<T(!new), A, V>(
    kit: Kit<T, A>, oracle: Oracle<T, V>, split: bool, depth: nat, corrections: nat, part: seq<T>)
    requires SplitsWell(kit) && AllValid(kit, part) && oracle.fits(depth, part)
    ensures var r := CompletePage(kit, oracle, split, depth, corrections, part);
      match oracle.answer(depth, part)
      case Complete(value) => r == Ok([Leaf(part, value)])
      case Fatal => r == Err(CallFailed)
      case Partial(retained, value, unresolved) =>
        (retained != [] && r.Ok? ==> r.value != [] && FromCallAt(oracle, depth, part, r.value[0]))
      case _ => true
  {
  }

  // ---------------------------------------------------------------- the calls of all pages

  /** Every leaf was answered by the calls of some page. */
  ghost predicate AllFromCalls<T(!new), V>(oracles: nat -> Oracle<T, V>, leaves: seq<Leaf<T, V>>) {
    forall i | 0 <= i < |leaves| :: exists page :: FromCall(oracles(page), leaves[i])
  }

  /** The records cannot be cut further, or a page of them cannot be completed. */
  ghost predicate CannotPage<T(!new), A, V>(
    kit: Kit<T, A>, fits: (nat, seq<T>) -> bool, oracles: nat -> Oracle<T, V>)
  {
    || (exists n, left :: Stuck(kit, fits, true, n, left))
    || exists page, stop :: Blamed(kit, oracles(page), true, stop)
  }

  lemma {:induction false} FailedPage<T(!new), A, V>(
    kit: Kit<T, A>, fits: (nat, seq<T>) -> bool, oracles: nat -> Oracle<T, V>, page: nat, stop: Stop)
    requires Explained(kit, oracles(page), true, Err(stop))
    ensures CannotPage(kit, fits, oracles)
  {
    assert Blamed(kit, oracles(page), true, stop);
    hide Blamed, Stuck;
  }

  lemma {:induction false} MoreFromCalls<T(!new), A, V>(
    kit: Kit<T, A>, oracles: nat -> Oracle<T, V>, split: bool, done: seq<Leaf<T, V>>, page: nat,
    more: seq<Leaf<T, V>>)
    requires AllFromCalls(oracles, done) && Explained(kit, oracles(page), split, Ok(more))
    ensures AllFromCalls(oracles, done + more)
  {
    hide FromCall;
    forall i | 0 <= i < |done + more| ensures exists page :: FromCall(oracles(page), (done + more)[i]) {
      if i < |done| {
        assert (done + more)[i] == done[i];
      } else {
        assert FromCall(oracles(page), more[i - |done|]);
      }
    }
  }

  /** After a failure that is already known: every leaf was answered, and it fails only on one item or with a cause. */
  lemma {:induction false} SmallerFails<T(!new), A, V>(
    kit: Kit<T, A>, oracle: Oracle<T, V>, split: bool, depth: nat, corrections: nat, part: seq<T>)
    requires SplitsWell(kit) && AllValid(kit, part)
    ensures match CompleteSmaller(kit, oracle, split, depth, corrections, part, false)
      case Ok(leaves) => forall i | 0 <= i < |leaves| :: FromCall(oracle, leaves[i])
      case Err(stop) => |part| <= 1 || Blamed(kit, oracle, split, stop)
  {
    SmallerPartsExactly(kit, part, split, false);
    if SmallerParts(kit, part, split, false).Ok? {
      var parts := SmallerParts(kit, part, split, false).value;
      forall i | 0 <= i < |parts| ensures AllValid(kit, parts[i]) && Weight(kit, parts[i]) < Weight(kit, part) {
        SmallerPartsShrink(kit, part, split, false, parts, i);
      }
      hide SmallerParts, SplitsWell, CompletePage, FromCall, Blamed;
      AllExplained(kit, oracle, split, depth, corrections, Weight(kit, part), parts);
    } else {
      hide SmallerParts, SplitsWell, CompletePage, FromCall, Blamed;
    }
  }

  /** Pages cut without splitting cannot be cut further, or a page of them cannot be completed. */
  ghost predicate CannotComplete<T(!new), A, V>(
    kit: Kit<T, A>, fits: (nat, seq<T>) -> bool, oracles: nat -> Oracle<T, V>)
  {
    || (exists n, left :: Stuck(kit, fits, false, n, left))
    || exists page, stop :: Blamed(kit, oracles(page), false, stop)
  }
}
