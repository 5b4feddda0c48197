/** Cutting work into pages that fit, and completing pages whose answers fail. */
module Paging {
  import opened Common

  /**
   * What paging may assume of its items: how an item splits, the characters it holds, and a weight that
   * splitting reduces. Items that never split return `None`.
   */
  datatype Kit<!T, !A> = Kit(
    valid: T -> bool, split: T -> Option<seq<T>>, atoms: T -> seq<A>, weight: T -> nat)

  function AtomsOf<T, A>(kit: Kit<T, A>, items: seq<T>): seq<A> {
    if items == [] then [] else kit.atoms(items[0]) + AtomsOf(kit, items[1..])
  }

  function Weight<T, A>(kit: Kit<T, A>, items: seq<T>): nat {
    if items == [] then 0 else kit.weight(items[0]) + Weight(kit, items[1..])
  }

  ghost predicate AllValid<T, A>(kit: Kit<T, A>, items: seq<T>) {
    forall i | 0 <= i < |items| :: kit.valid(items[i])
  }

  /** A split keeps the characters in order and makes lighter items. */
  ghost predicate SplitsWell<T(!new), A>(kit: Kit<T, A>) {
    && (forall x {:trigger kit.weight(x)} :: kit.valid(x) ==> kit.weight(x) > 0)
    && (forall x {:trigger kit.split(x)} :: kit.valid(x) && kit.split(x).Some? ==>
          && AllValid(kit, kit.split(x).value)
          && AtomsOf(kit, kit.split(x).value) == kit.atoms(x)
          && Weight(kit, kit.split(x).value) < kit.weight(x))
  }

  lemma {:induction false} AtomsConcat<T, A>(kit: Kit<T, A>, a: seq<T>, b: seq<T>)
    ensures AtomsOf(kit, a + b) == AtomsOf(kit, a) + AtomsOf(kit, b)
  {
    if a == [] {
      assert a + b == b;
    } else {
      AtomsConcat(kit, a[1..], b);
      assert (a + b)[0] == a[0] && (a + b)[1..] == a[1..] + b;
      Associates(kit.atoms(a[0]), AtomsOf(kit, a[1..]), AtomsOf(kit, b));
    }
  }

  lemma {:induction false} WeightConcat<T, A>(kit: Kit<T, A>, a: seq<T>, b: seq<T>)
    ensures Weight(kit, a + b) == Weight(kit, a) + Weight(kit, b)
  {
    if a == [] {
      assert a + b == b;
    } else {
      WeightConcat(kit, a[1..], b);
      assert (a + b)[1..] == a[1..] + b;
    }
  }

  lemma {:induction false} WeightPositive<T(!new), A>(kit: Kit<T, A>, items: seq<T>)
    requires SplitsWell(kit) && AllValid(kit, items) && items != []
    ensures Weight(kit, items) > 0
  {
    assert kit.valid(items[0]) && kit.weight(items[0]) > 0;
  }

  /** Items that never split; each weighs one. */
  function Indivisibles<T>(): Kit<T, T> {
    Kit(_ => true, _ => None, t => [t], _ => 1)
  }

  lemma {:induction false} IndivisiblesSplitWell<T(!new)>()
    ensures SplitsWell(Indivisibles<T>())
  {
  }

  /** Replacing the first item by its pieces keeps the characters and loses weight. */
  lemma {:induction false} SplitFirst<T(!new), A>(kit: Kit<T, A>, items: seq<T>, pieces: seq<T>)
    requires SplitsWell(kit) && AllValid(kit, items) && items != [] && kit.split(items[0]) == Some(pieces)
    ensures AllValid(kit, pieces + items[1..])
    ensures AtomsOf(kit, pieces + items[1..]) == AtomsOf(kit, items)
    ensures Weight(kit, pieces + items[1..]) < Weight(kit, items)
  {
    assert kit.valid(items[0]);
    AtomsConcat(kit, pieces, items[1..]);
    WeightConcat(kit, pieces, items[1..]);
  }

  // ---------------------------------------------------------------- cutting into pages

  /** Fitting is monotone: whatever fits, every shorter beginning of it fits too. */
  ghost predicate Monotone<T(!new)>(fits: (nat, seq<T>) -> bool) {
    forall n, items: seq<T>, k | 0 <= k <= |items| && fits(n, items) :: fits(n, items[..k])
  }

  /** `page` is a fitting beginning of `pending`, and when fitting is monotone no longer one fits. */
  ghost predicate Longest<T(!new)>(fits: (nat, seq<T>) -> bool, n: nat, page: seq<T>, pending: seq<T>) {
    && page != [] && page <= pending && fits(n, page)
    && (Monotone(fits) ==> forall k | |page| < k <= |pending| :: !fits(n, pending[..k]))
  }

  method LongestPrefix<T(!new)>(fits: (nat, seq<T>) -> bool, n: nat, pending: seq<T>) returns (best: nat)
    requires pending != [] && fits(n, pending[..1])
    ensures 1 <= best <= |pending| && Longest(fits, n, pending[..best], pending)
  {
    best := 1;
    var upper := if |pending| < 2 then |pending| else 2;
    while upper > best && fits(n, pending[..upper])
      invariant 1 <= best <= upper <= |pending|
      invariant fits(n, pending[..best])
      invariant upper == best ==> best == |pending|
      decreases |pending| - best
    {
      best := upper;
      if best == |pending| { break; }
      upper := if upper * 2 < |pending| then upper * 2 else |pending|;
    }
    var low, high := best + 1, upper - 1;
    while low <= high
      invariant low == best + 1 && 1 <= best <= |pending| && high < |pending|
      invariant fits(n, pending[..best])
      invariant best == |pending| || (best <= high && !fits(n, pending[..high + 1]))
      decreases high - low
    {
      var middle := (low + high) / 2;
      if fits(n, pending[..middle]) {
        best := middle;
        low := middle + 1;
      } else {
        high := middle - 1;
      }
    }
    if Monotone(fits) && best < |pending| {
      forall k | best < k <= |pending| ensures !fits(n, pending[..k]) {
        assert pending[..k][..best + 1] == pending[..best + 1];
      }
    }
  }

  /**
   * Page `i` is the longest fitting beginning of what was pending when it was cut, and what was pending is
   * what the pages before it had left.
   */
  ghost predicate CutAt<T(!new), A>(
    kit: Kit<T, A>, fits: (nat, seq<T>) -> bool, records: seq<T>, split: bool, first: nat,
    pages: seq<seq<T>>, pendings: seq<seq<T>>, i: nat)
    requires i < |pages| == |pendings|
  {
    && Longest(fits, first + i, pages[i], pendings[i]) && AllValid(kit, pages[i])
    && AtomsOf(kit, Flatten(pages[..i])) + AtomsOf(kit, pendings[i]) == AtomsOf(kit, records)
    && (!split ==> Flatten(pages[..i]) + pendings[i] == records)
  }

  /** Nothing more can be cut: the next item does not fit, and it is not split further. */
  ghost predicate Stuck<T(!new), A>(kit: Kit<T, A>, fits: (nat, seq<T>) -> bool, split: bool, n: nat, left: seq<T>) {
    && left != [] && !fits(n, left[..1])
    && (split ==> kit.split(left[0]).None? || kit.split(left[0]).value == [left[0]])
  }

  lemma {:induction false} CutsKept<T(!new), A>(
    kit: Kit<T, A>, fits: (nat, seq<T>) -> bool, records: seq<T>, split: bool, first: nat,
    pages: seq<seq<T>>, pendings: seq<seq<T>>, page: seq<T>, pending: seq<T>)
    requires |pages| == |pendings|
    requires forall i | 0 <= i < |pages| :: CutAt(kit, fits, records, split, first, pages, pendings, i)
    requires Longest(fits, first + |pages|, page, pending) && AllValid(kit, page)
    requires AtomsOf(kit, Flatten(pages)) + AtomsOf(kit, pending) == AtomsOf(kit, records)
    requires !split ==> Flatten(pages) + pending == records
    ensures forall i | 0 <= i <= |pages| ::
      CutAt(kit, fits, records, split, first, pages + [page], pendings + [pending], i)
  {
    hide Longest, AllValid, AtomsOf, Flatten;
    forall i | 0 <= i <= |pages|
      ensures CutAt(kit, fits, records, split, first, pages + [page], pendings + [pending], i)
    {
      assert (pages + [page])[..i] == pages[..i];
      if i < |pages| {
        assert CutAt(kit, fits, records, split, first, pages, pendings, i);
      } else {
        assert pages[..i] == pages;
      }
    }
  }

  /**
   * Pages of `records`, in order. `failed` is set where the generator raises; the pages before it have then
   * already been handed out.
   */
  method Pages<T(!new, ==), A(!new)>(
    kit: Kit<T, A>, fits: (nat, seq<T>) -> bool, records: seq<T>, split: bool, first: nat)
    returns (pages: seq<seq<T>>, failed: bool, ghost pendings: seq<seq<T>>, ghost left: seq<T>)
    requires SplitsWell(kit) && AllValid(kit, records)
    ensures |pendings| == |pages|
    ensures forall i | 0 <= i < |pages| :: CutAt(kit, fits, records, split, first, pages, pendings, i)
    ensures forall i | 0 <= i < |pages| :: AllValid(kit, pages[i])
    ensures AtomsOf(kit, Flatten(pages)) + AtomsOf(kit, left) == AtomsOf(kit, records)
    ensures !failed ==> left == [] && AtomsOf(kit, Flatten(pages)) == AtomsOf(kit, records)
    ensures failed ==> Stuck(kit, fits, split, first + |pages|, left)
    ensures !split ==> Flatten(pages) + left == records
  {
    var pending, number := records, first;
    pages, failed, pendings, left := [], false, [], records;
    hide SplitsWell, AllValid, Longest, CutAt;
    while pending != []
      invariant AllValid(kit, pending) && number == first + |pages| && |pendings| == |pages|
      invariant forall i | 0 <= i < |pages| :: CutAt(kit, fits, records, split, first, pages, pendings, i)
      invariant forall i | 0 <= i < |pages| :: AllValid(kit, pages[i])
      invariant AtomsOf(kit, Flatten(pages)) + AtomsOf(kit, pending) == AtomsOf(kit, records)
      invariant !split ==> Flatten(pages) + pending == records
      decreases Weight(kit, pending)
    {
      if !fits(number, pending[..1]) {
        if !split { left := pending; return pages, true, pendings, left; }
        var pieces := kit.split(pending[0]);
        if pieces.None? || (|pieces.value| == 1 && pieces.value[0] == pending[0]) {
          left := pending;
          return pages, true, pendings, left;
        }
        SplitFirst(kit, pending, pieces.value);
        pending := pieces.value + pending[1..];
      } else {
        var best := LongestPrefix(fits, number, pending);
        CutPage(kit, pages, pending, best);
        CutsKept(kit, fits, records, split, first, pages, pendings, pending[..best], pending);
        pages, pendings := pages + [pending[..best]], pendings + [pending];
        pending, number := pending[best..], number + 1;
      }
    }
    left := [];
  }

  lemma {:induction false} CutPage<T(!new), A>(kit: Kit<T, A>, pages: seq<seq<T>>, pending: seq<T>, best: nat)
    requires SplitsWell(kit) && AllValid(kit, pending) && 1 <= best <= |pending|
    ensures AllValid(kit, pending[..best]) && AllValid(kit, pending[best..])
    ensures Weight(kit, pending[best..]) < Weight(kit, pending)
    ensures Flatten(pages + [pending[..best]]) == Flatten(pages) + pending[..best]
    ensures AtomsOf(kit, Flatten(pages) + pending[..best]) + AtomsOf(kit, pending[best..])
         == AtomsOf(kit, Flatten(pages)) + AtomsOf(kit, pending)
  {
    assert pending == pending[..best] + pending[best..];
    WeightConcat(kit, pending[..best], pending[best..]);
    WeightPositive(kit, pending[..best]);
    FlattenConcat(pages, [pending[..best]]);
    assert Flatten([pending[..best]]) == pending[..best] + Flatten([]);
    AtomsConcat(kit, Flatten(pages), pending[..best]);
    AtomsConcat(kit, pending[..best], pending[best..]);
  }

  // ---------------------------------------------------------------- completing a page

  /** How a model call on a page can end. Indexes of a partial answer point into the page. */
  datatype Answer<V> =
    | Complete(value: V)
    | Truncated
    | WrongCount
    | Partial(retained: seq<nat>, value: V, unresolved: seq<nat>)
    | Fatal

  datatype Leaf<T, V> = Leaf(part: seq<T>, value: V)

  datatype Stop = Indivisible | ForeignSubset | CallFailed | CorrectionsExhausted

  /** The retained and unresolved rows are a partition of the page's rows. */
  predicate Partition(n: nat, retained: seq<nat>, unresolved: seq<nat>) {
    && (forall i | 0 <= i < |retained + unresolved| :: (retained + unresolved)[i] < n)
    && Distinct(retained + unresolved) && |retained + unresolved| == n
  }

  function Rows<T>(part: seq<T>, at: seq<nat>): (rows: seq<T>)
    requires forall i | 0 <= i < |at| :: at[i] < |part|
    ensures |rows| == |at| && forall i | 0 <= i < |at| :: rows[i] == part[at[i]]
  {
    seq(|at|, i requires 0 <= i < |at| => part[at[i]])
  }

  function Chunks<T>(part: seq<T>, width: nat): (chunks: seq<seq<T>>)
    requires width > 0
    ensures Flatten(chunks) == part
    ensures forall c | c in chunks :: 0 < |c| <= width
  {
    if part == [] then []
    else if |part| <= width then
      assert Flatten([part]) == part + Flatten([]);
      [part]
    else
      var rest := Chunks(part[width..], width);
      assert ([part[..width]] + rest)[1..] == rest;
      [part[..width]] + rest
  }

  function Singletons<T>(items: seq<T>): (parts: seq<seq<T>>)
    ensures |parts| == |items| && forall i | 0 <= i < |items| :: parts[i] == [items[i]]
    ensures Flatten(parts) == items
  {
    if items == [] then [] else
      var rest := Singletons(items[1..]);
      assert ([[items[0]]] + rest)[1..] == rest;
      [[items[0]]] + rest
  }

  function Min(a: nat, b: nat): nat {
    if a < b then a else b
  }

  /** Half of the items, but at least one. */
  function Half(items: nat): (half: nat)
    ensures half >= 1 && (items > 1 ==> half < items)
  {
    if items / 2 < 1 then 1 else items / 2
  }

  /** The width of the chunks after a wrong count: fewer than the logical items, and no more than half. */
  function Width(logical: nat, items: nat): (width: nat)
    requires logical > 1
    ensures 1 <= width < logical && width <= Half(items)
  {
    Min(logical - 1, Half(items))
  }

  /** `_smaller_parts`: chunks after a wrong count, halves after truncation, pieces of a single item. */
  function SmallerParts<T(==), A>(
    kit: Kit<T, A>, part: seq<T>, split: bool, wrongCount: bool): Result<seq<seq<T>>, Stop> {
    if wrongCount then
      var limit := |part| - 1;
      if limit < 1 then Err(Indivisible)
      else Ok(Chunks(part, Width(|part|, |part|)))
    else if |part| > 1 then Ok([part[..|part| / 2], part[|part| / 2..]])
    else if split && part != [] then
      match kit.split(part[0])
      case None => Err(Indivisible)
      case Some(pieces) => if pieces == [] || pieces == part then Err(Indivisible) else Ok(Singletons(pieces))
    else Err(Indivisible)
  }

  /** Every child is valid, lighter than its parent, and together they are the parent. */
  lemma {:induction false} SmallerPartsShrink<T(!new), A>(
    kit: Kit<T, A>, part: seq<T>, split: bool, wrongCount: bool, parts: seq<seq<T>>, i: nat)
    requires SplitsWell(kit) && AllValid(kit, part)
    requires SmallerParts(kit, part, split, wrongCount) == Ok(parts) && i < |parts|
    ensures AllValid(kit, parts[i]) && Weight(kit, parts[i]) < Weight(kit, part)
  {
    if wrongCount || |part| > 1 {
      assert Flatten(parts) == part by { HalvesFlatten(part); }
      assert parts[i] in parts && |parts[i]| < |part|;
      SubpartShrinks(kit, part, parts, i);
    } else {
      var pieces := kit.split(part[0]).value;
      assert kit.valid(part[0]);
      assert part == [part[0]];
      assert parts[i] == [pieces[i]];
      ItemLighter(kit, pieces, i);
      assert Weight(kit, [pieces[i]]) == kit.weight(pieces[i]) + Weight(kit, [pieces[i]][1..]);
      assert Weight(kit, part) == kit.weight(part[0]) + Weight(kit, part[1..]);
    }
  }

  lemma {:induction false} HalvesFlatten<T>(part: seq<T>)
    ensures Flatten([part[..|part| / 2], part[|part| / 2..]]) == part
  {
    var m := |part| / 2;
    assert Flatten([part[..m], part[m..]]) == part[..m] + Flatten([part[..m], part[m..]][1..]);
    assert [part[..m], part[m..]][1..] == [part[m..]];
    assert Flatten([part[m..]]) == part[m..] + Flatten([]);
  }

  lemma {:induction false} ItemLighter<T, A>(kit: Kit<T, A>, items: seq<T>, i: nat)
    requires i < |items|
    ensures kit.weight(items[i]) <= Weight(kit, items)
  {
    if i == 0 {
    } else {
      ItemLighter(kit, items[1..], i - 1);
    }
  }

  /** A part that is shorter than the list it is cut from is lighter. */
  lemma {:induction false} SubpartShrinks<T(!new), A>(kit: Kit<T, A>, part: seq<T>, parts: seq<seq<T>>, i: nat)
    requires SplitsWell(kit) && AllValid(kit, part) && Flatten(parts) == part && i < |parts| && |parts[i]| < |part|
    ensures AllValid(kit, parts[i]) && Weight(kit, parts[i]) < Weight(kit, part)
  {
    var before, after := Flatten(parts[..i]), Flatten(parts[i + 1..]);
    assert parts == parts[..i] + ([parts[i]] + parts[i + 1..]);
    FlattenConcat(parts[..i], [parts[i]] + parts[i + 1..]);
    assert ([parts[i]] + parts[i + 1..])[1..] == parts[i + 1..];
    assert part == before + (parts[i] + after);
    assert forall k | 0 <= k < |parts[i]| :: parts[i][k] == part[|before| + k];
    WeightConcat(kit, before, parts[i] + after);
    WeightConcat(kit, parts[i], after);
    assert forall k | 0 <= k < |before| :: before[k] == part[k];
    assert forall k | 0 <= k < |after| :: after[k] == part[|before| + |parts[i]| + k];
    if before != [] { WeightPositive(kit, before); }
    if after != [] { WeightPositive(kit, after); }
  }

  /**
   * The oracle: whether a page fits and how its call ends, after a number of partial corrections. Only the
   * calls for assessments admit an answer for a subset of the page.
   */
  datatype Oracle<!T, !V> = Oracle(fits: (nat, seq<T>) -> bool, answer: (nat, seq<T>) -> Answer<V>, subsets: bool)

  /**
   * `_complete_page`: the leaves in the order they complete. Truncation and wrong counts recurse on
   * strictly lighter parts; `corrections` bounds only how often a partial answer may be corrected.
   */
  function CompletePage<T(==,!new), A, V>(
    kit: Kit<T, A>, oracle: Oracle<T, V>, split: bool, depth: nat, corrections: nat, part: seq<T>)
    : Result<seq<Leaf<T, V>>, Stop>
    requires SplitsWell(kit) && AllValid(kit, part)
    decreases corrections, Weight(kit, part), 1, 0
  {
    if !oracle.fits(depth, part) then CompleteSmaller(kit, oracle, split, depth, corrections, part, false)
    else
      match oracle.answer(depth, part)
      case Complete(value) => Ok([Leaf(part, value)])
      case Fatal => Err(CallFailed)
      case Truncated => CompleteSmaller(kit, oracle, split, depth, corrections, part, false)
      case WrongCount => CompleteSmaller(kit, oracle, split, depth, corrections, part, true)
      case Partial(retained, value, unresolved) =>
        if !oracle.subsets || !Partition(|part|, retained, unresolved) then Err(ForeignSubset)
        else
          var kept := if retained == [] then [] else [Leaf(PartRows(part, retained, unresolved, retained), value)];
          if unresolved == [] then Ok(kept)
          else if corrections == 0 then Err(CorrectionsExhausted)
          else
            var pending := PartRows(part, retained, unresolved, unresolved);
            assert AllValid(kit, pending);
            var rest :- CompletePage(kit, oracle, split, depth + 1, corrections - 1, pending);
            Ok(kept + rest)
  }

  function PartRows<T>(part: seq<T>, retained: seq<nat>, unresolved: seq<nat>, at: seq<nat>): (rows: seq<T>)
    requires Partition(|part|, retained, unresolved) && (at == retained || at == unresolved)
    ensures |rows| == |at| && forall i | 0 <= i < |at| :: at[i] < |part| && rows[i] == part[at[i]]
  {
    assert forall i | 0 <= i < |retained| :: (retained + unresolved)[i] == retained[i];
    assert forall i | 0 <= i < |unresolved| :: (retained + unresolved)[|retained| + i] == unresolved[i];
    Rows(part, at)
  }

  function CompleteSmaller<T(==,!new), A, V>(
    kit: Kit<T, A>, oracle: Oracle<T, V>, split: bool, depth: nat, corrections: nat, part: seq<T>, wrongCount: bool)
    : Result<seq<Leaf<T, V>>, Stop>
    requires SplitsWell(kit) && AllValid(kit, part)
    decreases corrections, Weight(kit, part), 0, 0
  {
    var parts :- SmallerParts(kit, part, split, wrongCount);
    assert forall i | 0 <= i < |parts| :: AllValid(kit, parts[i]) && Weight(kit, parts[i]) < Weight(kit, part) by {
      forall i | 0 <= i < |parts| ensures AllValid(kit, parts[i]) && Weight(kit, parts[i]) < Weight(kit, part) {
        SmallerPartsShrink(kit, part, split, wrongCount, parts, i);
      }
    }
    CompleteAll(kit, oracle, split, depth, corrections, Weight(kit, part), parts)
  }

  function CompleteAll<T(==,!new), A, V>(
    kit: Kit<T, A>, oracle: Oracle<T, V>, split: bool, depth: nat, corrections: nat, ghost bound: nat,
    parts: seq<seq<T>>)
    : Result<seq<Leaf<T, V>>, Stop>
    requires SplitsWell(kit)
    requires forall i | 0 <= i < |parts| :: AllValid(kit, parts[i]) && Weight(kit, parts[i]) < bound
    decreases corrections, bound, 0, 0, |parts|
  {
    if parts == [] then Ok([]) else
      var first :- CompletePage(kit, oracle, split, depth, corrections, parts[0]);
      var rest :- CompleteAll(kit, oracle, split, depth, corrections, bound, parts[1..]);
      Ok(first + rest)
  }
}
