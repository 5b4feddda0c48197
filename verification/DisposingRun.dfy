/** One whole disposition: the direct call, or units, pages, recomposition and the final check. */
module DisposingRun {
  import opened Common
  import Coverage
  import CoverageExact
  import CoverageSplit
  import opened Paging
  import opened PagingProofs
  import Transport
  import opened DispositionContract
  import opened Disposing

  /** A source acquired for the review. */
  datatype Acquired = Acquired(id: string, value: Json)

  function Items(web: seq<Acquired>): (items: seq<Item>)
    ensures |items| == |web| && forall i | 0 <= i < |web| :: items[i] == Item(web[i].id, Full(web[i].value))
  {
    seq(|web|, i requires 0 <= i < |web| => Item(web[i].id, Full(web[i].value)))
  }

  function SourcePath(id: string): string {
    "/web/sources/" + id
  }

  // ---------------------------------------------------------------- what units hold

  /** The characters of the sources that the units show. */
  function UnitAtoms(canon: Json -> string, u: Unit): seq<Coverage.Atom> {
    match u
    case Source(id, value) => Coverage.ValueAtoms(canon, SourcePath(id), value)
    case SourceFragment(_, piece) => Coverage.PieceAtoms(canon, piece)
    case _ => []
  }

  function UnitAtomLists(canon: Json -> string, units: seq<Unit>): (lists: seq<seq<Coverage.Atom>>)
    ensures |lists| == |units| && forall i | 0 <= i < |units| :: lists[i] == UnitAtoms(canon, units[i])
  {
    seq(|units|, i requires 0 <= i < |units| => UnitAtoms(canon, units[i]))
  }

  function Supplied(canon: Json -> string, units: seq<Unit>): seq<Coverage.Atom> {
    Flatten(UnitAtomLists(canon, units))
  }

  function SourceAtomLists(canon: Json -> string, web: seq<Acquired>): (lists: seq<seq<Coverage.Atom>>)
    ensures |lists| == |web|
    ensures forall i | 0 <= i < |web| :: lists[i] == Coverage.ValueAtoms(canon, SourcePath(web[i].id), web[i].value)
  {
    seq(|web|, i requires 0 <= i < |web| => Coverage.ValueAtoms(canon, SourcePath(web[i].id), web[i].value))
  }

  /** Every character of every source, in order. */
  function Acquisition(canon: Json -> string, web: seq<Acquired>): seq<Coverage.Atom> {
    Flatten(SourceAtomLists(canon, web))
  }

  lemma {:induction false} SuppliedConcat(canon: Json -> string, a: seq<Unit>, b: seq<Unit>)
    ensures Supplied(canon, a + b) == Supplied(canon, a) + Supplied(canon, b)
  {
    hide Flatten, UnitAtoms, UnitAtomLists;
    assert UnitAtomLists(canon, a + b) == UnitAtomLists(canon, a) + UnitAtomLists(canon, b);
    FlattenConcat(UnitAtomLists(canon, a), UnitAtomLists(canon, b));
  }

  lemma {:induction false} SuppliedOne(canon: Json -> string, u: Unit)
    ensures Supplied(canon, [u]) == UnitAtoms(canon, u)
  {
    assert UnitAtomLists(canon, [u]) == [UnitAtoms(canon, u)];
    assert Flatten([UnitAtoms(canon, u)]) == UnitAtoms(canon, u) + Flatten([UnitAtoms(canon, u)][1..]);
  }

  lemma {:induction false} AcquisitionNext(canon: Json -> string, web: seq<Acquired>, i: nat)
    requires i < |web|
    ensures Acquisition(canon, web[..i + 1])
         == Acquisition(canon, web[..i]) + Coverage.ValueAtoms(canon, SourcePath(web[i].id), web[i].value)
  {
    var one := [Coverage.ValueAtoms(canon, SourcePath(web[i].id), web[i].value)];
    assert SourceAtomLists(canon, web[..i + 1]) == SourceAtomLists(canon, web[..i]) + one;
    FlattenConcat(SourceAtomLists(canon, web[..i]), one);
    assert Flatten(one) == one[0] + Flatten(one[1..]);
  }

  // ---------------------------------------------------------------- fragmenting one source

  ghost function PiecesWeight(canon: Json -> string, pending: seq<Piece>): nat {
    Weight(Transport.PieceKit(canon, Coverage.Scalar(""), false), pending)
  }

  lemma {:induction false} SplitFirstPiece(canon: Json -> string, pending: seq<Piece>, qs: seq<Piece>)
    requires pending != [] && Coverage.Split(canon, pending[0]) == Some(qs)
    ensures qs != []
    ensures Coverage.Atoms(canon, qs + pending[1..]) == Coverage.Atoms(canon, pending)
    ensures PiecesWeight(canon, qs + pending[1..]) < PiecesWeight(canon, pending)
  {
    var kit := Transport.PieceKit(canon, Coverage.Scalar(""), false);
    Transport.SplitHolds(canon, pending[0], qs);
    Transport.SplitLosesWeight(canon, Coverage.Scalar(""), false, pending[0], qs);
    hide Coverage.Split, Coverage.PieceAtoms;
    CoverageExact.AtomsConcat(canon, qs, pending[1..]);
    WeightConcat(kit, qs, pending[1..]);
  }

  function FragmentUnits(id: string, pieces: seq<Piece>): (units: seq<Unit>)
    ensures |units| == |pieces| && forall i | 0 <= i < |pieces| :: units[i] == SourceFragment(id, pieces[i])
  {
    seq(|pieces|, i requires 0 <= i < |pieces| => SourceFragment(id, pieces[i]))
  }

  lemma {:induction false} FragmentsSupply(canon: Json -> string, id: string, pieces: seq<Piece>)
    ensures Supplied(canon, FragmentUnits(id, pieces)) == Coverage.Atoms(canon, pieces)
    ensures Opinions(FragmentUnits(id, pieces)) == []
    ensures Elements(SourceIds(FragmentUnits(id, pieces))) == if pieces == [] then {} else {id}
  {
    if pieces == [] {
    } else {
      var first, rest := SourceFragment(id, pieces[0]), FragmentUnits(id, pieces[1..]);
      FragmentsSupply(canon, id, pieces[1..]);
      assert FragmentUnits(id, pieces) == [first] + rest;
      SuppliedConcat(canon, [first], rest);
      SuppliedOne(canon, first);
      ElementsConcat([id], SourceIds(rest));
      assert SourceIds(FragmentUnits(id, pieces)) == [id] + SourceIds(rest);
    }
  }

  /** Fragments of one source, each of which fits where it stands. */
  predicate Fragmented(id: string, number: nat, fits: (nat, seq<Unit>) -> bool, units: seq<Unit>) {
    forall k | 0 <= k < |units| :: units[k].SourceFragment? && units[k].id == id && fits(number + k, [units[k]])
  }

  /** Some piece of the source fits nowhere it is tried, and is too short to be split. */
  ghost predicate Unsplittable(canon: Json -> string, id: string, fits: (nat, seq<Unit>) -> bool) {
    exists n, piece :: !fits(n, [SourceFragment(id, piece)]) && CoverageSplit.TooShort(canon, piece)
  }

  lemma {:induction false} CannotSplit(
      canon: Json -> string, id: string, fits: (nat, seq<Unit>) -> bool, n: nat, piece: Piece)
    requires Coverage.Split(canon, piece).None? && !fits(n, [SourceFragment(id, piece)])
    ensures Unsplittable(canon, id, fits)
  {
    CoverageSplit.SplitExactly(canon, piece);
    assert CoverageSplit.TooShort(canon, piece);
  }

  lemma {:induction false} FragmentsFit(
      id: string, number: nat, fits: (nat, seq<Unit>) -> bool, pieces: seq<Piece>)
    requires forall k | 0 <= k < |pieces| :: fits(number + k, [SourceFragment(id, pieces[k])])
    ensures Fragmented(id, number, fits, FragmentUnits(id, pieces))
  {
  }

  method FragmentSource(canon: Json -> string, source: Acquired, number: nat, fits: (nat, seq<Unit>) -> bool)
    returns (more: Option<seq<Unit>>)
    ensures more.Some? ==>
      Supplied(canon, more.value) == Coverage.ValueAtoms(canon, SourcePath(source.id), source.value)
    ensures more.Some? ==> Opinions(more.value) == [] && Elements(SourceIds(more.value)) == {source.id}
    ensures more.Some? ==> Fragmented(source.id, number, fits, more.value)
    ensures more.None? ==> Unsplittable(canon, source.id, fits)
  {
    var pending, done := [Coverage.Whole(SourcePath(source.id), source.value)], [];
    StartSource(canon, SourcePath(source.id), source.value);
    hide *;
    while pending != []
      invariant Coverage.Atoms(canon, done) + Coverage.Atoms(canon, pending)
             == Coverage.ValueAtoms(canon, SourcePath(source.id), source.value)
      invariant done != [] || pending != []
      invariant forall k | 0 <= k < |done| :: fits(number + k, [SourceFragment(source.id, done[k])])
      decreases PiecesWeight(canon, pending), |pending|
    {
      var record := pending[0];
      if fits(number + |done|, [SourceFragment(source.id, record)]) {
        TakeFirst(canon, done, pending);
        done, pending := done + [record], pending[1..];
      } else {
        var pieces := Coverage.Split(canon, record);
        if pieces.None? {
          CannotSplit(canon, source.id, fits, number + |done|, record);
          return None;
        }
        SplitFirstPiece(canon, pending, pieces.value);
        pending := pieces.value + pending[1..];
      }
    }
    CoverageExact.AtomsNone(canon);
    FragmentsSupply(canon, source.id, done);
    FragmentsFit(source.id, number, fits, done);
    more := Some(FragmentUnits(source.id, done));
  }

  lemma {:induction false} StartSource(canon: Json -> string, path: string, v: Json)
    ensures Coverage.Atoms(canon, []) + Coverage.Atoms(canon, [Coverage.Whole(path, v)]) ==
      Coverage.ValueAtoms(canon, path, v)
  {
    CoverageExact.AtomsOne(canon, Coverage.Whole(path, v));
    CoverageExact.AtomsNone(canon);
  }

  lemma {:induction false} TakeFirst(canon: Json -> string, done: seq<Piece>, pending: seq<Piece>)
    requires pending != []
    ensures Coverage.Atoms(canon, done + [pending[0]]) + Coverage.Atoms(canon, pending[1..])
         == Coverage.Atoms(canon, done) + Coverage.Atoms(canon, pending)
    ensures PiecesWeight(canon, pending[1..]) <= PiecesWeight(canon, pending)
  {
    hide Coverage.Atoms, Coverage.PieceAtoms, Transport.PieceKit;
    assert pending == [pending[0]] + pending[1..];
    CoverageExact.AtomsConcat(canon, done, [pending[0]]);
    CoverageExact.AtomsConcat(canon, [pending[0]], pending[1..]);
  }

  // ---------------------------------------------------------------- all units

  function OpinionUnits(opinions: seq<Item>): (units: seq<Unit>)
    ensures |units| == |opinions| && forall i | 0 <= i < |opinions| :: units[i] == Opinion(opinions[i])
  {
    seq(|opinions|, i requires 0 <= i < |opinions| => Opinion(opinions[i]))
  }

  lemma {:induction false} OpinionUnitsHold(canon: Json -> string, opinions: seq<Item>)
    ensures Opinions(OpinionUnits(opinions)) == opinions && SourceIds(OpinionUnits(opinions)) == []
    ensures Supplied(canon, OpinionUnits(opinions)) == []
  {
    if opinions == [] {
    } else {
      OpinionUnitsHold(canon, opinions[1..]);
      var first, rest := Opinion(opinions[0]), OpinionUnits(opinions[1..]);
      assert OpinionUnits(opinions) == [first] + rest;
      SuppliedConcat(canon, [first], rest);
      SuppliedOne(canon, first);
    }
  }

  lemma {:induction false} AddSource(
    canon: Json -> string, units: seq<Unit>, more: seq<Unit>, opinions: seq<Item>, web: seq<Acquired>, i: nat)
    requires i < |web| && Represents(units, opinions, Items(web[..i]))
    requires Supplied(canon, units) == Acquisition(canon, web[..i])
    requires Opinions(more) == [] && Elements(SourceIds(more)) == {web[i].id}
    requires Supplied(canon, more) == Coverage.ValueAtoms(canon, SourcePath(web[i].id), web[i].value)
    ensures Represents(units + more, opinions, Items(web[..i + 1]))
    ensures Supplied(canon, units + more) == Acquisition(canon, web[..i + 1])
  {
    hide Supplied, Acquisition, Opinions, SourceIds;
    SuppliedConcat(canon, units, more);
    AcquisitionNext(canon, web, i);
    OpinionsConcat(units, more);
    SourceIdsConcat(units, more);
    ElementsConcat(SourceIds(units), SourceIds(more));
    assert IdsOf(Items(web[..i + 1])) == IdsOf(Items(web[..i])) + [web[i].id];
    ElementsConcat(IdsOf(Items(web[..i])), [web[i].id]);
  }

  lemma {:induction false} WholeSourceUnit(canon: Json -> string, source: Acquired)
    ensures Supplied(canon, [Source(source.id, source.value)])
         == Coverage.ValueAtoms(canon, SourcePath(source.id), source.value)
    ensures Opinions([Source(source.id, source.value)]) == []
    ensures Elements(SourceIds([Source(source.id, source.value)])) == {source.id}
  {
    var u := Source(source.id, source.value);
    SuppliedOne(canon, u);
    assert [u][1..] == [];
    assert SourceIds([u]) == [source.id];
  }

  lemma {:induction false} NothingUnit(canon: Json -> string)
    ensures Supplied(canon, [Nothing]) == [] && Opinions([Nothing]) == [] && SourceIds([Nothing]) == []
    ensures Supplied(canon, []) == [] && Opinions([]) == [] && SourceIds([]) == []
  {
    SuppliedOne(canon, Nothing);
    assert [Nothing][1..] == [];
  }

  /** Each source has its units: itself where it fits whole, otherwise fragments that fit. */
  predicate UnitsOf(
    opinions: seq<Item>, web: seq<Acquired>, fits: (nat, seq<Unit>) -> bool, chunks: seq<seq<Unit>>)
  {
    |chunks| <= |web| && forall i | 0 <= i < |chunks| ::
      var number, whole := |opinions| + |Flatten(chunks[..i])|, Source(web[i].id, web[i].value);
      if fits(number, [whole]) then chunks[i] == [whole] else Fragmented(web[i].id, number, fits, chunks[i])
  }

  lemma {:induction false} OneMoreSource(
      opinions: seq<Item>, web: seq<Acquired>, fits: (nat, seq<Unit>) -> bool, chunks: seq<seq<Unit>>, more: seq<Unit>)
    requires UnitsOf(opinions, web, fits, chunks) && |chunks| < |web|
    requires
      var number, whole := |opinions| + |Flatten(chunks)|, Source(web[|chunks|].id, web[|chunks|].value);
      if fits(number, [whole]) then more == [whole] else Fragmented(web[|chunks|].id, number, fits, more)
    ensures UnitsOf(opinions, web, fits, chunks + [more]) && Flatten(chunks + [more]) == Flatten(chunks) + more
  {
    hide Fragmented, Flatten;
    FlattenOneMore(chunks, more);
    forall i | 0 <= i <= |chunks| ensures (chunks + [more])[..i] == chunks[..i] {}
    assert chunks[..|chunks|] == chunks;
  }

  /** There is always something to put on a page. */
  function OrNothing(units: seq<Unit>): (r: seq<Unit>)
    ensures r != []
  {
    if units == [] then [Nothing] else units
  }

  lemma {:induction false} NoSources(
      canon: Json -> string, opinions: seq<Item>, web: seq<Acquired>, fits: (nat, seq<Unit>) -> bool)
    ensures var all := OpinionUnits(opinions);
      && |all| == |opinions| && all == all + Flatten<Unit>([]) && UnitsOf(opinions, web, fits, [])
      && Represents(all, opinions, Items(web[..0])) && Supplied(canon, all) == Acquisition(canon, web[..0])
  {
    OpinionUnitsHold(canon, opinions);
    assert Items(web[..0]) == [];
  }

  lemma {:induction false} NothingIfEmpty(units: seq<Unit>)
    ensures OrNothing(units) == if units == [] then [Nothing] else units
  {
  }

  /**
   * The units of a disposition: the opinions, then each source whole where it fits and otherwise in
   * fragments that fit. They hold every character of every source exactly once, in order.
   */
  method Units(canon: Json -> string, opinions: seq<Item>, web: seq<Acquired>, fits: (nat, seq<Unit>) -> bool)
    returns (units: Option<seq<Unit>>, ghost chunks: seq<seq<Unit>>)
    ensures units.Some? ==> Represents(units.value, opinions, Items(web))
    ensures units.Some? ==> Supplied(canon, units.value) == Acquisition(canon, web)
    ensures UnitsOf(opinions, web, fits, chunks)
    ensures units.Some? ==> |chunks| == |web| && units.value == OrNothing(OpinionUnits(opinions) + Flatten(chunks))
    ensures units.None? ==> exists i :: 0 <= i < |web| && Unsplittable(canon, web[i].id, fits)
  {
    hide *;
    var all, i := OpinionUnits(opinions), 0;
    chunks := [];
    NoSources(canon, opinions, web, fits);
    while i < |web|
      invariant 0 <= i <= |web| && |chunks| == i && all == OpinionUnits(opinions) + Flatten(chunks)
      invariant Represents(all, opinions, Items(web[..i])) && Supplied(canon, all) == Acquisition(canon, web[..i])
      invariant UnitsOf(opinions, web, fits, chunks)
    {
      var unit := Source(web[i].id, web[i].value);
      var more := [unit];
      if fits(|all|, [unit]) {
        WholeSourceUnit(canon, web[i]);
      } else {
        var fragments := FragmentSource(canon, web[i], |all|, fits);
        if fragments.None? { return None, chunks; }
        more := fragments.value;
      }
      AddSource(canon, all, more, opinions, web, i);
      OneMoreSource(opinions, web, fits, chunks, more);
      all, chunks, i := all + more, chunks + [more], i + 1;
    }
    assert web[..i] == web;
    if all == [] { EmptyUnits(canon, opinions, Items(web)); }
    NothingIfEmpty(all);
    units := Some(OrNothing(all));
  }

  lemma {:induction false} EmptyUnits(canon: Json -> string, opinions: seq<Item>, sources: seq<Item>)
    ensures Represents([Nothing], opinions, sources) <==> Represents([], opinions, sources)
    ensures Supplied(canon, [Nothing]) == Supplied(canon, [])
  {
    NothingUnit(canon);
  }

  // ---------------------------------------------------------------- the disposition

  /** How a disposition ends. The direct call has no leaves. */
  datatype Outcome =
    | Disposed(value: Disposition, leaves: seq<Leaf<Unit, Disposition>>)
    | ContextFailed
    | Unrepresentable
    | CallStopped
    | PageRefused
    | WholeRefused(fault: Fault)

  function WholePayload(opinions: seq<Item>, web: seq<Acquired>): Payload {
    Payload(opinions, Some(Items(web)), None)
  }

  /** Why the pages of the units could not be completed. */
  ghost predicate CannotDispose(
    units: seq<Unit>, truncated: bool, fits: (nat, seq<Unit>) -> bool, oracles: nat -> Oracle<Unit, Disposition>)
  {
    CannotComplete(Indivisibles<Unit>(), fits, oracles) || (truncated && |units| <= 1)
  }

  /** The pages of the units, completed; after a truncated direct call the units themselves are reduced. */
  method CompleteUnits(
    units: seq<Unit>, truncated: bool, fits: (nat, seq<Unit>) -> bool, oracles: nat -> Oracle<Unit, Disposition>,
    corrections: nat)
    returns (leaves: Option<seq<Leaf<Unit, Disposition>>>)
    requires forall page :: !oracles(page).subsets
    ensures leaves.Some? ==> Flatten(PartsOf(leaves.value)) == units && AllFromCalls(oracles, leaves.value)
    ensures leaves.None? ==> CannotDispose(units, truncated, fits, oracles)
  {
    var kit := Indivisibles<Unit>();
    IndivisiblesSplitWell<Unit>();
    hide SplitsWell, PartsOf, CompletePage, CompleteSmaller, Flatten, FromCall, Blamed, Stuck;
    if truncated {
      var smaller := CompleteSmaller(kit, oracles(0), false, 0, corrections, units, false);
      SmallerFails(kit, oracles(0), false, 0, corrections, units);
      if smaller.Err? { return None; }
      SmallerInOrder(kit, oracles(0), false, 0, corrections, units, false, smaller.value);
      return Some(smaller.value);
    }
    var pages, failed, pendings, left := Pages(kit, fits, units, false, 0);
    if failed { return None; }
    var done: seq<Leaf<Unit, Disposition>>, i := [], 0;
    assert pages[..0] == [];
    while i < |pages|
      invariant 0 <= i <= |pages| && Flatten(PartsOf(done)) == Flatten(pages[..i]) && AllFromCalls(oracles, done)
    {
      var page := CompletePage(kit, oracles(i), false, 0, corrections, pages[i]);
      CompletesExplained(kit, oracles(i), false, 0, corrections, pages[i]);
      if page.Err? { return None; }
      CompletesInOrder(kit, oracles(i), false, 0, corrections, pages[i], page.value);
      MoreFromCalls(kit, oracles, false, done, i, page.value);
      PartsConcat(done, page.value);
      FlattenNext(pages, i);
      done := done + page.value;
      i := i + 1;
    }
    assert pages[..i] == pages;
    leaves := Some(done);
  }

  /** The direct call went out and was cut off, or did not go out at all. */
  predicate GoesPaged(direct: Option<Answer<Disposition>>) {
    direct.None? || direct.value.Truncated?
  }

  /** The whole is the combination of answers to pages that hold all units, each valid for its own page. */
  ghost predicate DisposedFrom(
    canon: Json -> string, opinions: seq<Item>, web: seq<Acquired>, oracles: nat -> Oracle<Unit, Disposition>,
    d: Disposition, leaves: seq<Leaf<Unit, Disposition>>)
  {
    && d == Combine(Values(leaves)) && Validate(WholePayload(opinions, web), d).Ok?
    && AllFromCalls(oracles, leaves) && (forall i | 0 <= i < |leaves| :: PageValid(leaves[i]))
    && Represents(Flatten(PartsOf(leaves)), opinions, Items(web))
    && Supplied(canon, Flatten(PartsOf(leaves))) == Acquisition(canon, web)
  }

  /** How a paged disposition ends, and why. */
  ghost predicate PagedEnd(
    canon: Json -> string, opinions: seq<Item>, web: seq<Acquired>, truncated: bool,
    fits: (nat, seq<Unit>) -> bool, oracles: nat -> Oracle<Unit, Disposition>, out: Outcome)
  {
    match out
    case Disposed(d, leaves) => DisposedFrom(canon, opinions, web, oracles, d, leaves)
    case Unrepresentable => exists i :: 0 <= i < |web| && Unsplittable(canon, web[i].id, fits)
    case CallStopped =>
      exists units :: Represents(units, opinions, Items(web)) && CannotDispose(units, truncated, fits, oracles)
    case PageRefused => exists page, leaf :: FromCall(oracles(page), leaf) && !PageValid(leaf)
    case WholeRefused(fault) =>
      ContractOf(WholePayload(opinions, web)).Err?
    case ContextFailed => false
  }

  lemma {:induction false} Refuses(
      canon: Json -> string, opinions: seq<Item>, web: seq<Acquired>, truncated: bool,
      fits: (nat, seq<Unit>) -> bool, oracles: nat -> Oracle<Unit, Disposition>,
      leaves: seq<Leaf<Unit, Disposition>>, i: nat)
    requires AllFromCalls(oracles, leaves) && i < |leaves| && !PageValid(leaves[i])
    ensures PagedEnd(canon, opinions, web, truncated, fits, oracles, PageRefused)
  {
    hide PageValid, FromCall;
    var page :| FromCall(oracles(page), leaves[i]);
  }

  /** The pages of all units, each answer checked against its page, and the whole against its own contract. */
  method DisposePaged(
    canon: Json -> string, opinions: seq<Item>, web: seq<Acquired>, truncated: bool,
    fits: (nat, seq<Unit>) -> bool, oracles: nat -> Oracle<Unit, Disposition>, corrections: nat)
    returns (out: Outcome)
    requires forall page :: !oracles(page).subsets
    ensures PagedEnd(canon, opinions, web, truncated, fits, oracles, out)
  {
    hide Represents, Items, Unsplittable, CannotDispose, FromCall, PageValid, ContractOf, Validate, WholePayload,
      Combine, Values, Supplied, Acquisition, Flatten, PartsOf, UnitsOf, OpinionUnits, OrNothing, AllFromCalls;
    var units, chunks := Units(canon, opinions, web, fits);
    if units.None? { return Unrepresentable; }
    var leaves := CompleteUnits(units.value, truncated, fits, oracles, corrections);
    if leaves.None? { return CallStopped; }
    var i := 0;
    while i < |leaves.value|
      invariant 0 <= i <= |leaves.value|
      invariant forall k | 0 <= k < i :: PageValid(leaves.value[k])
    {
      if !PageValid(leaves.value[i]) {
        Refuses(canon, opinions, web, truncated, fits, oracles, leaves.value, i);
        return PageRefused;
      }
      i := i + 1;
    }
    var combined := Combine(Values(leaves.value));
    var valid := Validate(WholePayload(opinions, web), combined);
    WholeComposes(leaves.value, opinions, web);
    out := if valid.Ok? then Disposed(combined, leaves.value) else WholeRefused(valid.error);
  }

  /**
   * `_dispose`: the direct call when everything fits, otherwise the context is compacted and there are pages. A paged
   * disposition that returns is the combination of answers that are valid for their own pages, which hold the
   * opinions in order and every character of every source; its final check can refuse only a review or sources whose
   * own identities are inexact. Every other end has its cause.
   */
  method Dispose(
    canon: Json -> string, opinions: seq<Item>, web: seq<Acquired>, direct: Option<Answer<Disposition>>,
    compacted: bool,
    fits: (nat, seq<Unit>) -> bool, oracles: nat -> Oracle<Unit, Disposition>, corrections: nat)
    returns (out: Outcome)
    requires forall page :: !oracles(page).subsets
    ensures out.Disposed? ==> Validate(WholePayload(opinions, web), out.value).Ok?
    ensures if !GoesPaged(direct) then
              match direct.value
              case Complete(d) =>
                var valid := Validate(WholePayload(opinions, web), d);
                out == if valid.Ok? then Disposed(d, []) else WholeRefused(valid.error)
              case _ => out == CallStopped
            else if !compacted then out == ContextFailed
            else PagedEnd(canon, opinions, web, direct.Some?, fits, oracles, out)
  {
    hide Validate, WholePayload, AllFromCalls, PageValid, Represents, Supplied, Acquisition, Unsplittable,
      CannotDispose, FromCall, ContractOf;
    if GoesPaged(direct) {
      if !compacted { return ContextFailed; }
      out := DisposePaged(canon, opinions, web, direct.Some?, fits, oracles, corrections);
      return;
    }
    match direct.value
    case Complete(d) =>
      var valid := Validate(WholePayload(opinions, web), d);
      out := if valid.Ok? then Disposed(d, []) else WholeRefused(valid.error);
    case _ => out := CallStopped;
  }

  lemma {:induction false} WholeComposes(leaves: seq<Leaf<Unit, Disposition>>, opinions: seq<Item>, web: seq<Acquired>)
    requires forall i | 0 <= i < |leaves| :: PageValid(leaves[i])
    requires Represents(Flatten(PartsOf(leaves)), opinions, Items(web))
    ensures Validate(WholePayload(opinions, web), Combine(Values(leaves))).Ok? <==>
      ContractOf(WholePayload(opinions, web)).Ok?
  {
    hide PageValid, Represents, Validate, ContractOf, Combine;
    PagesComposeContract(leaves, opinions, Items(web));
  }
}
