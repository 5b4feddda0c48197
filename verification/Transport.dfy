/** Reading a JSON context through bounded calls: every character is supplied exactly once. */
module Transport {
  import opened Common
  import opened Paths
  import Coverage
  import CoverageExact
  import CoverageResume
  import CoverageSplit
  import opened Paging
  import opened PagingProofs

  type Json = Coverage.Json
  type Piece = Coverage.Piece
  type Atom = Coverage.Atom

  // ---------------------------------------------------------------- pieces as paged items

  function ValueWeight(canon: Json -> string, v: Json): nat
    decreases v, 1, 0
  {
    if Coverage.Leaf(v) then 2 * |canon(v)| else 1 + KidsWeight(canon, v, 0)
  }

  function KidsWeight(canon: Json -> string, v: Json, k: nat): nat
    requires k <= |Coverage.Kids(v)|
    decreases v, 0, |Coverage.Kids(v)| - k
  {
    if k == |Coverage.Kids(v)| then 0
    else ValueWeight(canon, Coverage.Kids(v)[k].value) + KidsWeight(canon, v, k + 1)
  }

  /** Twice the text a piece holds, less one for a fragment: halving a text loses one. */
  function PieceWeight(canon: Json -> string, p: Piece): nat {
    match p
    case Whole(_, v) => ValueWeight(canon, v)
    case Fragment(_, text, _, _, _) => if text == "" then 0 else 2 * |text| - 1
  }

  predicate Placed(canon: Json -> string, root: Json, p: Piece) {
    Coverage.Exact(canon, root, p) && CoverageExact.Good(root, p)
  }

  /** A fragment is never empty. */
  predicate Sound(p: Piece) {
    p.Fragment? ==> p.text != ""
  }

  /** Pieces as paged items: with `named`, only those named as splitting names them in `root`. */
  function PieceKit(canon: Json -> string, root: Json, named: bool): Kit<Piece, Atom> {
    Kit(p => if named then Placed(canon, root, p)
      else Sound(p), p => Coverage.Split(canon, p), p => Coverage.PieceAtoms(canon, p), p => PieceWeight(canon, p))
  }

  /** A piece on a page can be cut, into what splitting makes of it, unless it is too short. */
  lemma {:induction false} PieceDivides(canon: Json -> string, root: Json, named: bool, p: Piece)
    ensures var kit := PieceKit(canon, root, named);
      && (CoverageSplit.TooShort(canon, p) <==> forall pieces :: !DividesInto(kit, [p], pieces))
      && forall pieces | DividesInto(kit, [p], pieces) ::
           if p.Whole? && CoverageSplit.Opens(p.value) then CoverageSplit.OpenedInto(p, pieces)
           else CoverageSplit.HalvedInto(canon, p, pieces)
  {
    var kit := PieceKit(canon, root, named);
    CoverageSplit.SplitExactly(canon, p);
    assert kit.split(p) == Coverage.Split(canon, p);
    if kit.split(p).Some? {
      CoverageSplit.SplitMoves(canon, p);
      assert DividesInto(kit, [p], kit.split(p).value);
    }
    hide CoverageSplit.TooShort, CoverageSplit.Opens, CoverageSplit.OpenedInto, CoverageSplit.HalvedInto,
      Coverage.Split;
  }

  /** Where the paging of pieces is stuck, a piece does not fit and is too short to be cut. */
  lemma {:induction false} StuckIsShort(
      canon: Json -> string, root: Json, named: bool, fits: (nat, seq<Piece>) -> bool, n: nat, left: seq<Piece>)
    requires Stuck(PieceKit(canon, root, named), fits, true, n, left)
    ensures left != [] && !fits(n, left[..1]) && CoverageSplit.TooShort(canon, left[0])
  {
    assert PieceKit(canon, root, named).split(left[0]) == Coverage.Split(canon, left[0]);
    CoverageSplit.SplitExactly(canon, left[0]);
    if Coverage.Split(canon, left[0]).Some? { CoverageSplit.SplitMoves(canon, left[0]); }
    hide CoverageSplit.TooShort, Coverage.Split;
  }

  lemma {:induction false} KitAtoms(canon: Json -> string, root: Json, named: bool, ps: seq<Piece>)
    ensures AtomsOf(PieceKit(canon, root, named), ps) == Coverage.Atoms(canon, ps)
  {
    if ps == [] {
    } else {
      KitAtoms(canon, root, named, ps[1..]);
    }
  }

  lemma {:induction false} KidPiecesWeight(
      canon: Json -> string, root: Json, named: bool, path: string, v: Json, k: nat)
    requires k <= |Coverage.Kids(v)|
    ensures Weight(PieceKit(canon, root, named), Coverage.KidPieces(path, Coverage.Kids(v)[k..])) ==
      KidsWeight(canon, v, k)
    decreases |Coverage.Kids(v)| - k
  {
    if k == |Coverage.Kids(v)| {
    } else {
      KidPiecesWeight(canon, root, named, path, v, k + 1);
      assert Coverage.Kids(v)[k..][1..] == Coverage.Kids(v)[k + 1..];
    }
  }

  lemma {:induction false} ValueWeightPositive(canon: Json -> string, v: Json)
    requires CoverageResume.TextsNonEmpty(canon)
    ensures ValueWeight(canon, v) > 0
  {
    assert canon(v) != "";
  }

  lemma {:induction false} SplitLosesWeight(canon: Json -> string, root: Json, named: bool, p: Piece, qs: seq<Piece>)
    requires Coverage.Split(canon, p) == Some(qs)
    ensures Weight(PieceKit(canon, root, named), qs) < PieceWeight(canon, p)
  {
    if p.Whole? && !Coverage.Leaf(p.value) {
      assert Coverage.Kids(p.value)[0..] == Coverage.Kids(p.value);
      KidPiecesWeight(canon, root, named, p.path, p.value, 0);
    } else {
      hide Coverage.Exact, CoverageExact.Good, Coverage.Kids;
      var kit := PieceKit(canon, root, named);
      assert qs == [qs[0], qs[1]] && qs[1..] == [qs[1]];
      assert Weight(kit, qs) == PieceWeight(canon, qs[0]) + Weight(kit, [qs[1]]);
      assert Weight(kit, [qs[1]]) == PieceWeight(canon, qs[1]) + Weight(kit, [qs[1]][1..]);
    }
  }

  lemma {:induction false} TextHalves(path: string, text: string, start: nat, m: nat)
    requires m <= |text|
    ensures Coverage.TextAtoms(path, text, start)
         == Coverage.TextAtoms(path, text[..m], start) + Coverage.TextAtoms(path, text[m..], start + m)
  {
    hide *;
  }

  lemma {:induction false} FragmentHolds(
      canon: Json -> string, path: string, text: string, start: nat, end: nat, source: Json)
    ensures Coverage.Atoms(canon, [Coverage.Fragment(path, text, start, end, source)]) ==
      Coverage.TextAtoms(path, text, start)
  {
    hide Coverage.TextAtoms, Coverage.Atoms;
    CoverageExact.AtomsOne(canon, Coverage.Fragment(path, text, start, end, source));
  }

  lemma {:induction false} HalvesHold(
      canon: Json -> string, path: string, text: string, start: nat, m: nat, source: Json)
    requires m <= |text|
    ensures Coverage.Atoms(canon, [Coverage.Fragment(path, text[..m], start, start + m, source),
                                   Coverage.Fragment(path, text[m..], start + m, start + |text|, source)])
         == Coverage.TextAtoms(path, text, start)
  {
    hide *;
    var a := Coverage.Fragment(path, text[..m], start, start + m, source);
    var b := Coverage.Fragment(path, text[m..], start + m, start + |text|, source);
    assert [a, b] == [a] + [b];
    CoverageExact.AtomsConcat(canon, [a], [b]);
    FragmentHolds(canon, path, text[..m], start, start + m, source);
    FragmentHolds(canon, path, text[m..], start + m, start + |text|, source);
    TextHalves(path, text, start, m);
  }

  lemma {:induction false} KidsHold(canon: Json -> string, path: string, v: Json)
    requires !Coverage.Leaf(v)
    ensures Coverage.KidPieces(path, Coverage.Kids(v)) != []
    ensures Coverage.Atoms(canon, Coverage.KidPieces(path, Coverage.Kids(v))) == Coverage.ValueAtoms(canon, path, v)
  {
    assert Coverage.Kids(v)[0..] == Coverage.Kids(v);
    CoverageSplit.KidPiecesAtoms(canon, path, v, 0);
  }

  /** A split loses no character, wherever the piece comes from, and never yields nothing. */
  lemma {:induction false} SplitHolds(canon: Json -> string, p: Piece, qs: seq<Piece>)
    requires Coverage.Split(canon, p) == Some(qs)
    ensures qs != [] && Coverage.Atoms(canon, qs) == Coverage.PieceAtoms(canon, p)
  {
    hide Coverage.TextAtoms, Coverage.Kids, Coverage.Atoms, Coverage.KidAtoms, Coverage.KidPieces;
    if p.Whole? && !Coverage.Leaf(p.value) {
      KidsHold(canon, p.path, p.value);
    } else {
      var text, start, source :=
        if p.Whole? then canon(p.value) else p.text, if p.Whole? then 0 else p.start,
        if p.Whole? then p.value else p.source;
      HalvesHold(canon, p.path, text, start, |text| / 2, source);
    }
  }

  lemma {:induction false} PieceKitSplits(canon: Json -> string, root: Json, named: bool, p: Piece, qs: seq<Piece>)
    requires Coverage.DistinctKeys(root) && PieceKit(canon, root, named).valid(p)
    requires Coverage.Split(canon, p) == Some(qs)
    ensures AllValid(PieceKit(canon, root, named), qs)
    ensures Coverage.Atoms(canon, qs) == Coverage.PieceAtoms(canon, p)
  {
    if named {
      hide Coverage.Exact, CoverageExact.Good, Coverage.Split;
      CoverageSplit.SplitKeepsAtoms(canon, root, p, qs);
    } else {
      SplitHolds(canon, p, qs);
      SplitIsSound(canon, p, qs);
      hide Coverage.Split;
    }
  }

  lemma {:induction false} SplitIsSound(canon: Json -> string, p: Piece, qs: seq<Piece>)
    requires Coverage.Split(canon, p) == Some(qs)
    ensures forall i | 0 <= i < |qs| :: Sound(qs[i])
  {
    if p.Whole? && !Coverage.Leaf(p.value) {
      KidsAreWhole(p.path, Coverage.Kids(p.value));
    } else {
      hide Coverage.Kids;
    }
  }

  lemma {:induction false} KidsAreWhole(path: string, ks: seq<Coverage.Kid>)
    ensures forall i | 0 <= i < |Coverage.KidPieces(path, ks)| :: Coverage.KidPieces(path, ks)[i].Whole?
  {
    if ks == [] {
    } else {
      KidsAreWhole(path, ks[1..]);
    }
  }

  lemma {:induction false} PiecesSplitWell(canon: Json -> string, root: Json, named: bool)
    requires Coverage.DistinctKeys(root) && CoverageResume.TextsNonEmpty(canon)
    ensures SplitsWell(PieceKit(canon, root, named))
  {
    var kit := PieceKit(canon, root, named);
    hide Coverage.Exact, CoverageExact.Good, Coverage.Split;
    forall p | kit.valid(p) ensures kit.weight(p) > 0 {
      if named { FragmentsNonEmpty(canon, root, p); }
      if p.Whole? { ValueWeightPositive(canon, p.value); }
    }
    forall p | kit.valid(p) && kit.split(p).Some?
      ensures AllValid(kit, kit.split(p).value)
      ensures AtomsOf(kit, kit.split(p).value) == kit.atoms(p)
      ensures Weight(kit, kit.split(p).value) < kit.weight(p)
    {
      PieceKitSplits(canon, root, named, p, kit.split(p).value);
      KitAtoms(canon, root, named, kit.split(p).value);
      SplitLosesWeight(canon, root, named, p, kit.split(p).value);
    }
  }

  lemma {:induction false} FragmentsNonEmpty(canon: Json -> string, root: Json, p: Piece)
    requires Placed(canon, root, p)
    ensures Sound(p)
  {
  }

  // ---------------------------------------------------------------- paged calls

  /** `_page_calls`: cut into pages, complete each page, in order. `None` where a call or a cut raises. */
  method PageCalls<V>(
    canon: Json -> string, root: Json, named: bool, fits: (nat, seq<Piece>) -> bool, oracles: nat -> Oracle<Piece, V>,
    corrections: nat,
    records: seq<Piece>)
    returns (leaves: Option<seq<Leaf<Piece, V>>>)
    requires SplitsWell(PieceKit(canon, root, named)) && AllValid(PieceKit(canon, root, named), records)
    requires forall page :: !oracles(page).subsets
    ensures leaves.Some? ==>
      AtomsOf(PieceKit(canon, root, named), Flatten(PartsOf(leaves.value)))
      == AtomsOf(PieceKit(canon, root, named), records)
    ensures leaves.Some? ==> AllValid(PieceKit(canon, root, named), Flatten(PartsOf(leaves.value)))
    ensures leaves.Some? ==> AllFromCalls(oracles, leaves.value)
    ensures leaves.None? ==> CannotPage(PieceKit(canon, root, named), fits, oracles)
  {
    var kit := PieceKit(canon, root, named);
    var pages, failed, pendings, left := Pages(kit, fits, records, true, 0);
    hide SplitsWell, PieceKit, Explained, FromCall, Blamed, Stuck;
    if failed {
      assert Stuck(kit, fits, true, |pages|, left);
      return None;
    }
    var done: seq<Leaf<Piece, V>>, i := [], 0;
    assert pages[..0] == [];
    while i < |pages|
      invariant 0 <= i <= |pages|
      invariant AtomsOf(kit, Flatten(PartsOf(done))) == AtomsOf(kit, Flatten(pages[..i]))
      invariant AllValid(kit, Flatten(PartsOf(done))) && AllFromCalls(oracles, done)
    {
      var page := CompletePage(kit, oracles(i), true, 0, corrections, pages[i]);
      CompletesExplained(kit, oracles(i), true, 0, corrections, pages[i]);
      if page.Err? {
        FailedPage(kit, fits, oracles, i, page.error);
        return None;
      }
      MoreFromCalls(kit, oracles, true, done, i, page.value);
      CompletesInOrder(kit, oracles(i), true, 0, corrections, pages[i], page.value);
      LeavesValid(kit, oracles(i), true, 0, corrections, pages[i], page.value);
      NextPage(kit, pages, i, done, page.value);
      done := done + page.value;
      i := i + 1;
    }
    assert pages[..i] == pages;
    leaves := Some(done);
  }

  lemma {:induction false} NextPage<T, A, V>(
    kit: Kit<T, A>, pages: seq<seq<T>>, i: nat, done: seq<Leaf<T, V>>, more: seq<Leaf<T, V>>)
    requires i < |pages| && InOrder(kit, true, pages[i], more)
    requires AtomsOf(kit, Flatten(PartsOf(done))) == AtomsOf(kit, Flatten(pages[..i]))
    requires AllValid(kit, Flatten(PartsOf(done))) && AllValid(kit, Flatten(PartsOf(more)))
    ensures AtomsOf(kit, Flatten(PartsOf(done + more))) == AtomsOf(kit, Flatten(pages[..i + 1]))
    ensures AllValid(kit, Flatten(PartsOf(done + more)))
  {
    FlattenNext(pages, i);
    PartsConcat(done, more);
    AllValidConcat(kit, Flatten(PartsOf(done)), Flatten(PartsOf(more)));
    AtomsConcat(kit, Flatten(PartsOf(done)), Flatten(PartsOf(more)));
    AtomsConcat(kit, Flatten(pages[..i]), pages[i]);
  }

  // ---------------------------------------------------------------- context compaction

  /** A reader's answer: the records it says it read, and its synopsis. */
  datatype Observation = Observation(coverage: seq<Piece>, summary: string, limitations: seq<string>)

  function Scalars(texts: seq<string>): Json {
    Coverage.List(seq(|texts|, i requires 0 <= i < |texts| => Coverage.Scalar(texts[i])))
  }

  /** A page's observation as a record of the next round, under the name of the page and its report. */
  function SummaryRecord(id: string, o: Observation): Json {
    Coverage.Dict([Coverage.Entry("id", Coverage.Scalar(id)),
                   Coverage.Entry("summary", Coverage.Scalar(o.summary)),
                   Coverage.Entry("limitations", Scalars(o.limitations))])
  }

  function SummaryKey(): string {
    "summaries"
  }

  function SummaryRoot(records: seq<Json>): Json {
    Coverage.Dict([Coverage.Entry(SummaryKey(), Coverage.List(records))])
  }

  function SummaryPieces(records: seq<Json>): seq<Piece> {
    Coverage.KidPieces("/" + SummaryKey(), Coverage.Kids(Coverage.List(records)))
  }

  /** What the calls of one compaction do, by level and page: cutting, answering, naming, sizing, and the final fit. */
  datatype Reader = Reader(
    cut: nat -> ((nat, seq<Piece>) -> bool),
    read: (nat, nat) -> Oracle<Piece, Observation>,
    name: (seq<Piece>, Observation) -> string,
    size: seq<Json> -> nat,
    supplied: (nat, seq<Json>) -> bool)

  type Reads = seq<Leaf<Piece, Observation>>

  /** The calls of one level, page by page. */
  function CallsOf(reader: Reader, level: nat): nat -> Oracle<Piece, Observation> {
    (page: nat) => reader.read(level, page)
  }

  ghost predicate ReadsWhole(reader: Reader) {
    forall level, page :: !reader.read(level, page).subsets
  }

  /** What a consumer is given: the context itself, a synopsis of these reads of it, or why there is nothing. */
  datatype Supply =
    | Original(context: Json)
    | Synopsis(firstReads: seq<Piece>)
    | NoRoom
    | ReadFailed
    | MisreportedReads
    | NotShrinking

  /** The record says what was observed: its summary and its limitations, in their order. */
  predicate Reports(record: Json, id: string, o: Observation) {
    && record.Dict? && |record.fields| == 3
    && record.fields[0] == Coverage.Entry("id", Coverage.Scalar(id))
    && record.fields[1] == Coverage.Entry("summary", Coverage.Scalar(o.summary))
    && record.fields[2].key == "limitations" && record.fields[2].value.List?
    && var limitations := record.fields[2].value.items;
    && |limitations| == |o.limitations|
    && forall i | 0 <= i < |limitations| :: limitations[i] == Coverage.Scalar(o.limitations[i])
  }

  /** Each read covers exactly its part, and has its record. */
  predicate RoundReports(name: (seq<Piece>, Observation) -> string, readings: Reads, records: seq<Json>) {
    && |records| == |readings|
    && forall i | 0 <= i < |readings| ::
         && IdsExact(readings[i].value.coverage, readings[i].part)
         && Reports(records[i], name(readings[i].part, readings[i].value), readings[i].value)
  }

  predicate Misreports(readings: Reads) {
    exists i :: 0 <= i < |readings| && !IdsExact(readings[i].value.coverage, readings[i].part)
  }

  /** The summaries of one round of reads; `None` when a read does not cover exactly its part. */
  method Summaries(name: (seq<Piece>, Observation) -> string, leaves: Reads) returns (records: Option<seq<Json>>)
    ensures records.Some? ==> |records.value| == |leaves| && RoundReports(name, leaves, records.value)
    ensures records.Some? ==> forall i | 0 <= i < |leaves| ::
              records.value[i] == SummaryRecord(name(leaves[i].part, leaves[i].value), leaves[i].value)
    ensures records.None? <==> Misreports(leaves)
  {
    var done: seq<Json>, i := [], 0;
    while i < |leaves|
      invariant 0 <= i <= |leaves| && |done| == i
      invariant forall k | 0 <= k < i ::
        && IdsExact(leaves[k].value.coverage, leaves[k].part)
        && done[k] == SummaryRecord(name(leaves[k].part, leaves[k].value), leaves[k].value)
    {
      if !IdsExact(leaves[i].value.coverage, leaves[i].part) { return None; }
      done := done + [SummaryRecord(name(leaves[i].part, leaves[i].value), leaves[i].value)];
      i := i + 1;
    }
    records := Some(done);
    hide IdsExact;
  }

  /** The characters of the records of a round, each under its number. */
  function RecordAtoms(canon: Json -> string, records: seq<Json>): seq<Atom> {
    Flatten(EachAtoms(canon, records))
  }

  function EachAtoms(canon: Json -> string, records: seq<Json>): seq<seq<Atom>> {
    seq(|records|, i requires 0 <= i < |records| =>
      Coverage.ValueAtoms(canon, "/summaries/" + Decimal(i), records[i]))
  }

  /** What a round is given to read: the whole context first, then the records of the round before. */
  function GivenTo(canon: Json -> string, context: Json, rounds: seq<seq<Json>>, k: nat): seq<Atom>
    requires k <= |rounds|
  {
    if k == 0 then Coverage.ValueAtoms(canon, "", context) else RecordAtoms(canon, rounds[k - 1])
  }

  /** The reads of a round hold exactly these characters, once and in order, and each was answered by a call. */
  ghost predicate RoundReads(
    canon: Json -> string, reader: Reader, level: nat, given: seq<Atom>, readings: Reads)
  {
    && Coverage.Atoms(canon, Flatten(PartsOf(readings))) == given
    && AllFromCalls(CallsOf(reader, level), readings)
  }

  /** No round so far fitted its consumer, and each was smaller than the one before. */
  ghost predicate Underway(reader: Reader, rounds: seq<seq<Json>>) {
    && (forall i | 0 <= i < |rounds| :: !reader.supplied(i, rounds[i]))
    && (forall i, j :: 0 <= i < j < |rounds| ==> reader.size(rounds[i]) > reader.size(rounds[j]))
  }

  function BeforeLast<T>(s: seq<T>): seq<T> {
    if s == [] then [] else s[..|s| - 1]
  }

  lemma {:induction false} NextRound(reader: Reader, rounds: seq<seq<Json>>, next: seq<Json>)
    requires Underway(reader, rounds) && !reader.supplied(|rounds|, next)
    requires rounds != [] ==> reader.size(next) < reader.size(rounds[|rounds| - 1])
    ensures Underway(reader, rounds + [next])
  {
  }

  lemma {:induction false} FewerRounds(reader: Reader, rounds: seq<seq<Json>>, next: seq<Json>)
    requires Underway(reader, rounds)
    ensures Underway(reader, BeforeLast(rounds)) && BeforeLast(rounds + [next]) == rounds
  {
  }

  lemma {:induction false} RecordPieces(canon: Json -> string, records: seq<Json>, k: nat)
    requires k <= |records|
    ensures Coverage.Atoms(canon, Coverage.KidPieces("/summaries", Coverage.Kids(Coverage.List(records))[k..]))
         == Flatten(EachAtoms(canon, records)[k..])
    decreases |records| - k
  {
    var kids, each := Coverage.Kids(Coverage.List(records)), EachAtoms(canon, records);
    hide Coverage.ValueAtoms;
    if k == |records| {
    } else {
      RecordPieces(canon, records, k + 1);
      assert kids[k..][1..] == kids[k + 1..] && each[k..][1..] == each[k + 1..];
      assert "/summaries" + "/" + Decimal(k) == "/summaries/" + Decimal(k);
    }
  }

  lemma {:induction false} SummaryAtoms(canon: Json -> string, records: seq<Json>)
    ensures Coverage.Atoms(canon, SummaryPieces(records)) == RecordAtoms(canon, records)
  {
    RecordPieces(canon, records, 0);
    var kids, each := Coverage.Kids(Coverage.List(records)), EachAtoms(canon, records);
    assert kids[0..] == kids && each[0..] == each && "/" + SummaryKey() == "/summaries";
    hide Coverage.Kids, EachAtoms, Coverage.Atoms, Coverage.KidPieces, Flatten;
  }

  /** Some page of the round cannot be cut, or its calls fail on a page that cannot be made smaller. */
  ghost predicate CannotRead(canon: Json -> string, root: Json, reader: Reader, level: nat) {
    CannotPage(PieceKit(canon, root, true), reader.cut(level), CallsOf(reader, level))
  }

  /** One round: the records are read in pages, and every page's synopsis becomes a record of the next round. */
  method ReadRound(
    canon: Json -> string, root: Json, records: seq<Piece>, reader: Reader, level: nat, corrections: nat)
    returns (readings: Option<Reads>, summaries: Option<seq<Json>>)
    requires Coverage.DistinctKeys(root) && CoverageResume.TextsNonEmpty(canon) && ReadsWhole(reader)
    requires AllValid(PieceKit(canon, root, true), records)
    ensures readings.Some? ==> RoundReads(canon, reader, level, Coverage.Atoms(canon, records), readings.value)
    ensures readings.None? ==> CannotRead(canon, root, reader, level) && summaries.None?
    ensures readings.Some? ==> (summaries.None? <==> Misreports(readings.value))
    ensures summaries.Some? ==> RoundReports(reader.name, readings.value, summaries.value)
    ensures summaries.Some? ==> Coverage.DistinctKeys(SummaryRoot(summaries.value))
    ensures summaries.Some? ==>
      AllValid(PieceKit(canon, SummaryRoot(summaries.value), true), SummaryPieces(summaries.value))
  {
    hide SplitsWell, AllValid, AtomsOf, PieceKit, Flatten, IdsExact, SummaryRoot, SummaryPieces, SummaryRecord,
      Coverage.DistinctKeys, CoverageResume.TextsNonEmpty, Coverage.Atoms, AllFromCalls, CannotPage, RoundReports,
      Misreports;
    PiecesSplitWell(canon, root, true);
    var leaves := PageCalls(canon, root, true, reader.cut(level), CallsOf(reader, level), corrections, records);
    if leaves.None? { return None, None; }
    readings := Some(leaves.value);
    KitAtoms(canon, root, true, Flatten(PartsOf(leaves.value)));
    KitAtoms(canon, root, true, records);
    summaries := Summaries(reader.name, leaves.value);
    if summaries.Some? { SummariesPlaced(canon, reader.name, leaves.value, summaries.value); }
  }

  /** A last round that fits its consumer, or that did not shrink. */
  ghost predicate EndsWith(reader: Reader, rounds: seq<seq<Json>>, supply: Supply) {
    && Underway(reader, BeforeLast(rounds))
    && (supply.Synopsis? ==> rounds != [] && reader.supplied(|rounds| - 1, rounds[|rounds| - 1]))
    && (supply.NotShrinking? ==>
      && |rounds| >= 2 && !reader.supplied(|rounds| - 1, rounds[|rounds| - 1])
      && reader.size(rounds[|rounds| - 1]) >= reader.size(rounds[|rounds| - 2]))
    && (!supply.Synopsis? && !supply.NotShrinking? ==> Underway(reader, rounds))
  }

  lemma {:induction false} FailedRound(reader: Reader, rounds: seq<seq<Json>>, supply: Supply)
    requires Underway(reader, rounds) && !supply.Synopsis? && !supply.NotShrinking?
    ensures EndsWith(reader, rounds, supply)
  {
    FewerRounds(reader, rounds, []);
  }

  lemma {:induction false} LastRound(reader: Reader, rounds: seq<seq<Json>>, next: seq<Json>, supply: Supply)
    requires Underway(reader, rounds) && (supply.Synopsis? || supply.NotShrinking?)
    requires supply.Synopsis? <==> reader.supplied(|rounds|, next)
    requires supply.NotShrinking? ==> rounds != [] && reader.size(next) >= reader.size(rounds[|rounds| - 1])
    ensures EndsWith(reader, rounds + [next], supply)
  {
    FewerRounds(reader, rounds, next);
  }

  /**
   * Round `k` has read exactly what it was given, and has the records of what it read. Reads without records are
   * those of a last round that misreports.
   */
  ghost predicate ReadsAll(
    canon: Json -> string, context: Json, reader: Reader, rounds: seq<seq<Json>>, readings: seq<Reads>)
  {
    && |rounds| <= |readings| <= |rounds| + 1
    && (forall k | 0 <= k < |readings| :: RoundReads(canon, reader, k, GivenTo(canon, context, rounds, k), readings[k]))
    && forall k | 0 <= k < |rounds| :: RoundReports(reader.name, readings[k], rounds[k])
  }

  /** What the next round reads in. */
  function RoundRoot(context: Json, rounds: seq<seq<Json>>): Json {
    if rounds == [] then context else SummaryRoot(rounds[|rounds| - 1])
  }

  /** Why there is no synopsis, where it is the reading that fails. */
  ghost predicate Fails(
    canon: Json -> string, context: Json, reader: Reader, rounds: seq<seq<Json>>, readings: seq<Reads>, supply: Supply)
    requires |rounds| <= |readings| <= |rounds| + 1
  {
    && (|readings| > |rounds| <==> supply.MisreportedReads?)
    && (supply.MisreportedReads? ==> Misreports(readings[|rounds|]))
    && (supply.ReadFailed? ==> CannotRead(canon, RoundRoot(context, rounds), reader, |rounds|))
  }

  lemma {:induction false} OneMoreRead(
      canon: Json -> string, context: Json, reader: Reader, rounds: seq<seq<Json>>, readings: seq<Reads>, more: Reads)
    requires ReadsAll(canon, context, reader, rounds, readings) && |readings| == |rounds|
    requires RoundReads(canon, reader, |rounds|, GivenTo(canon, context, rounds, |rounds|), more)
    ensures ReadsAll(canon, context, reader, rounds, readings + [more])
  {
    hide RoundReads, RoundReports, GivenTo;
  }

  lemma {:induction false} GivenBefore(
      canon: Json -> string, context: Json, rounds: seq<seq<Json>>, next: seq<Json>, k: nat)
    requires k <= |rounds|
    ensures GivenTo(canon, context, rounds + [next], k) == GivenTo(canon, context, rounds, k)
  {
    hide Coverage.ValueAtoms, RecordAtoms;
  }

  lemma {:induction false} OneMoreRound(
      canon: Json -> string, context: Json, reader: Reader, rounds: seq<seq<Json>>, readings: seq<Reads>,
      next: seq<Json>)
    requires ReadsAll(canon, context, reader, rounds, readings) && |readings| == |rounds| + 1
    requires RoundReports(reader.name, readings[|rounds|], next)
    ensures ReadsAll(canon, context, reader, rounds + [next], readings)
  {
    var more := rounds + [next];
    hide RoundReads, RoundReports, GivenTo;
    forall k | 0 <= k < |readings|
      ensures RoundReads(canon, reader, k, GivenTo(canon, context, more, k), readings[k])
    {
      GivenBefore(canon, context, rounds, next, k);
    }
    forall k | 0 <= k < |more| ensures RoundReports(reader.name, readings[k], more[k]) {
      if k < |rounds| { assert more[k] == rounds[k]; }
    }
  }

  lemma {:induction false} FailsSo(
      canon: Json -> string, context: Json, reader: Reader, rounds: seq<seq<Json>>, readings: seq<Reads>,
      supply: Supply)
    requires |rounds| <= |readings| <= |rounds| + 1 && (|readings| > |rounds| <==> supply.MisreportedReads?)
    requires supply.MisreportedReads? ==> Misreports(readings[|rounds|])
    requires supply.ReadFailed? ==> CannotRead(canon, RoundRoot(context, rounds), reader, |rounds|)
    ensures Fails(canon, context, reader, rounds, readings, supply)
  {
    hide Misreports, CannotRead;
  }

  lemma {:induction false} NothingRead(canon: Json -> string, context: Json, reader: Reader)
    ensures Underway(reader, []) && ReadsAll(canon, context, reader, [], [])
  {
    hide RoundReads, RoundReports;
  }

  lemma {:induction false} WholeGiven(canon: Json -> string, context: Json)
    ensures Coverage.Atoms(canon, [Coverage.Whole("", context)]) == GivenTo(canon, context, [], 0)
    ensures RoundRoot(context, []) == context
  {
    CoverageExact.AtomsOne(canon, Coverage.Whole("", context));
  }

  lemma {:induction false} NextGiven(canon: Json -> string, context: Json, rounds: seq<seq<Json>>, next: seq<Json>)
    ensures var more := rounds + [next];
      && Coverage.Atoms(canon, SummaryPieces(next)) == GivenTo(canon, context, more, |more|)
      && RoundRoot(context, more) == SummaryRoot(next)
  {
    SummaryAtoms(canon, next);
    hide SummaryPieces, RecordAtoms, SummaryRoot, Coverage.Atoms;
  }

  /** The rounds of a compaction, from the whole context as the first record. */
  method CompactRounds(canon: Json -> string, context: Json, reader: Reader, corrections: nat)
    returns (supply: Supply, rounds: seq<seq<Json>>, ghost readings: seq<Reads>)
    requires Coverage.DistinctKeys(context) && CoverageResume.TextsNonEmpty(canon) && ReadsWhole(reader)
    ensures !supply.Original? && !supply.NoRoom? && EndsWith(reader, rounds, supply)
    ensures ReadsAll(canon, context, reader, rounds, readings)
    ensures Fails(canon, context, reader, rounds, readings, supply)
    ensures supply.Synopsis? ==> rounds != [] && supply.firstReads == Flatten(PartsOf(readings[0]))
  {
    hide *;
    rounds, readings := [], [];
    NothingRead(canon, context, reader);
    RootPlaced(canon, context);
    WholeGiven(canon, context);
    var root, records, firstReads: seq<Piece> := context, [Coverage.Whole("", context)], [];
    var size := 0;
    while true
      invariant Coverage.DistinctKeys(root) && AllValid(PieceKit(canon, root, true), records)
      invariant Underway(reader, rounds) && (rounds != [] ==> size == reader.size(rounds[|rounds| - 1]))
      invariant ReadsAll(canon, context, reader, rounds, readings) && |readings| == |rounds|
      invariant root == RoundRoot(context, rounds)
      invariant Coverage.Atoms(canon, records) == GivenTo(canon, context, rounds, |rounds|)
      invariant rounds != [] ==> firstReads == Flatten(PartsOf(readings[0]))
      decreases rounds == [], size
    {
      var level := |rounds|;
      var read, summaries := ReadRound(canon, root, records, reader, level, corrections);
      if read.None? {
        FailedRound(reader, rounds, ReadFailed);
        FailsSo(canon, context, reader, rounds, readings, ReadFailed);
        return ReadFailed, rounds, readings;
      }
      OneMoreRead(canon, context, reader, rounds, readings, read.value);
      readings := readings + [read.value];
      if summaries.None? {
        FailedRound(reader, rounds, MisreportedReads);
        FailsSo(canon, context, reader, rounds, readings, MisreportedReads);
        return MisreportedReads, rounds, readings;
      }
      if level == 0 { firstReads := Flatten(PartsOf(read.value)); }
      var next := summaries.value;
      OneMoreRound(canon, context, reader, rounds, readings, next);
      if reader.supplied(level, next) {
        LastRound(reader, rounds, next, Synopsis(firstReads));
        FailsSo(canon, context, reader, rounds + [next], readings, Synopsis(firstReads));
        return Synopsis(firstReads), rounds + [next], readings;
      }
      if level > 0 && reader.size(next) >= size {
        LastRound(reader, rounds, next, NotShrinking);
        FailsSo(canon, context, reader, rounds + [next], readings, NotShrinking);
        return NotShrinking, rounds + [next], readings;
      }
      NextRound(reader, rounds, next);
      NextGiven(canon, context, rounds, next);
      rounds, size := rounds + [next], reader.size(next);
      root, records := SummaryRoot(next), SummaryPieces(next);
    }
  }

  /**
   * `compact_context`: rounds of pieces, each over the summaries of the round before, until the synopsis fits. A
   * round that does not shrink fails, so the rounds end. Every round reads every character it is given once, in
   * order: the first the original context, each later one all summaries of the round before.
   */
  method CompactContext(
    canon: Json -> string, context: Json, force: bool, fitsWhole: bool, available: int, reader: Reader,
    corrections: nat)
    returns (supply: Supply, rounds: seq<seq<Json>>, ghost readings: seq<Reads>)
    requires Coverage.DistinctKeys(context) && CoverageResume.TextsNonEmpty(canon) && ReadsWhole(reader)
    ensures supply.Original? <==> !force && fitsWhole
    ensures supply.Original? ==> supply.context == context
    ensures supply.NoRoom? <==> available <= 0 && !supply.Original?
    ensures EndsWith(reader, rounds, supply)
    ensures ReadsAll(canon, context, reader, rounds, readings)
    ensures Fails(canon, context, reader, rounds, readings, supply)
    ensures supply.Synopsis? ==> rounds != [] && supply.firstReads == Flatten(PartsOf(readings[0]))
    ensures supply.Synopsis? ==> Coverage.Atoms(canon, supply.firstReads) == Coverage.ValueAtoms(canon, "", context)
  {
    if !force && fitsWhole { return Original(context), [], []; }
    if available <= 0 { return NoRoom, [], []; }
    hide EndsWith, Coverage.Atoms, Coverage.ValueAtoms, Coverage.DistinctKeys, CoverageResume.TextsNonEmpty, Fails,
      RoundReports, RecordAtoms, AllFromCalls, Flatten;
    supply, rounds, readings := CompactRounds(canon, context, reader, corrections);
    if supply.Synopsis? {
      assert RoundReads(canon, reader, 0, GivenTo(canon, context, rounds, 0), readings[0]);
    }
  }

  lemma {:induction false} RootPlaced(canon: Json -> string, root: Json)
    requires Coverage.DistinctKeys(root)
    ensures AllValid(PieceKit(canon, root, true), [Coverage.Whole("", root)])
  {
    assert CoverageResume.Named(root, [], "", root);
    CoverageSplit.WholePlaced(canon, root, [], "", root);
  }

  lemma {:induction false} ScalarsDistinct(texts: seq<string>)
    ensures Coverage.DistinctKeys(Scalars(texts))
  {
    var v := Scalars(texts);
    forall j | 0 <= j < |Coverage.Kids(v)| ensures Coverage.DistinctKeys(Coverage.Kids(v)[j].value) {
      assert Coverage.Kids(Coverage.Kids(v)[j].value) == [];
    }
  }

  lemma {:induction false} SummaryDistinct(id: string, o: Observation)
    ensures Coverage.DistinctKeys(SummaryRecord(id, o))
  {
    hide Scalars;
    var v := SummaryRecord(id, o);
    ScalarsDistinct(o.limitations);
    forall k | 0 <= k < |Coverage.Kids(v)| ensures Coverage.DistinctKeys(Coverage.Kids(v)[k].value) {
      assert Coverage.Kids(v)[k].value == v.fields[k].value;
      if k < 2 { assert Coverage.Kids(v.fields[k].value) == []; }
    }
    assert |"id"| < |"summary"| < |"limitations"|;
  }

  lemma {:induction false} SummariesPlaced(
      canon: Json -> string, name: (seq<Piece>, Observation) -> string, leaves: Reads, records: seq<Json>)
    requires |records| == |leaves|
    requires forall i | 0 <= i < |leaves| ::
      records[i] == SummaryRecord(name(leaves[i].part, leaves[i].value), leaves[i].value)
    ensures Coverage.DistinctKeys(SummaryRoot(records))
    ensures AllValid(PieceKit(canon, SummaryRoot(records), true), SummaryPieces(records))
  {
    var root, list := SummaryRoot(records), Coverage.List(records);
    forall i | 0 <= i < |records| ensures Coverage.DistinctKeys(records[i]) {
      SummaryDistinct(name(leaves[i].part, leaves[i].value), leaves[i].value);
    }
    assert Coverage.DistinctKeys(list) by {
      forall k | 0 <= k < |Coverage.Kids(list)| ensures Coverage.DistinctKeys(Coverage.Kids(list)[k].value) {
        assert Coverage.Kids(list)[k].value == records[k];
      }
    }
    assert Coverage.DistinctKeys(root) by {
      forall k | 0 <= k < |Coverage.Kids(root)| ensures Coverage.DistinctKeys(Coverage.Kids(root)[k].value) {
        assert Coverage.Kids(root)[k].value == list;
      }
    }
    SummaryNamed(records);
    SummaryPiecesPlaced(canon, records);
    PlacedValid(canon, root, SummaryPieces(records));
  }

  lemma {:induction false} SummaryPiecesPlaced(canon: Json -> string, records: seq<Json>)
    requires CoverageResume.Named(SummaryRoot(records), [SummaryKey()], "/" + SummaryKey(), Coverage.List(records))
    ensures CoverageResume.AllPlaced(canon, SummaryRoot(records), SummaryPieces(records))
  {
    var list := Coverage.List(records);
    hide CoverageResume.AllPlaced, CoverageResume.Named, SummaryKey;
    CoverageSplit.KidPiecesPlaced(canon, SummaryRoot(records), [SummaryKey()], "/" + SummaryKey(), list, 0);
    assert Coverage.Kids(list)[0..] == Coverage.Kids(list);
  }

  lemma {:induction false} SummaryKid(records: seq<Json>)
    ensures Coverage.Kids(SummaryRoot(records)) == [Coverage.Kid(SummaryKey(), Coverage.List(records))]
  {
    PlainToken();
    hide SummaryKey, Escape;
  }

  lemma {:induction false} SummaryNamed(records: seq<Json>)
    requires Coverage.DistinctKeys(SummaryRoot(records))
    ensures CoverageResume.Named(SummaryRoot(records), [SummaryKey()], "/" + SummaryKey(), Coverage.List(records))
  {
    hide *;
    var root := SummaryRoot(records);
    CoverageResume.RootNamed(root);
    SummaryKid(records);
    CoverageResume.NamedKid(root, [], "", root, 0);
    assert [] + [SummaryKey()] == [SummaryKey()];
    assert "" + "/" + SummaryKey() == "/" + SummaryKey();
  }

  lemma {:induction false} PlainEscape(s: string)
    requires '~' !in s && '/' !in s
    ensures Escape(s) == s
  {
    PlainReplace(s, '~', "~0");
    PlainReplace(s, '/', "~1");
  }

  lemma {:induction false} PlainToken()
    ensures Escape(SummaryKey()) == SummaryKey()
  {
    hide Escape;
    PlainEscape(SummaryKey());
  }

  lemma {:induction false} PlainReplace(s: string, c: char, with: string)
    requires c !in s
    ensures ReplaceChar(s, c, with) == s
  {
    if s == "" {
    } else {
      PlainReplace(s[1..], c, with);
      assert s == [s[0]] + s[1..];
    }
  }

  // ---------------------------------------------------------------- resuming a review

  /** A retained page: the records it was given, and the review its call returned, if it did. */
  datatype Retained<V> = Retained(part: seq<Piece>, answer: Option<V>)

  /** How resuming ends; `Incomplete` is the final check that something still remains. */
  datatype Resumed<V> = Covered(leaves: seq<Leaf<Piece, V>>) | ForeignCoverage | CallsFailed | Incomplete

  /** The retained pages are named as splitting names them. */
  predicate WellNamed<V>(payload: Json, pages: seq<Retained<V>>) {
    forall i | 0 <= i < |pages| :: forall k | 0 <= k < |pages[i].part| :: CoverageExact.Good(payload, pages[i].part[k])
  }

  function Pieces<V>(leaves: seq<Leaf<Piece, V>>): seq<Piece> {
    Flatten(PartsOf(leaves))
  }

  /** What is known of the pieces admitted so far. */
  ghost predicate Admitted(canon: Json -> string, payload: Json, named: bool, done: seq<Piece>) {
    named ==> CoverageResume.AllPlaced(canon, payload, done)
  }

  /** A retained review stands for its page; a page without one is read again, every character once. */
  ghost predicate Resumes<V>(
    canon: Json -> string, page: Retained<V>, retry: Oracle<Piece, V>, leaves: seq<Leaf<Piece, V>>)
  {
    if page.answer.Some? then leaves == [Leaf(page.part, page.answer.value)]
    else
      && Coverage.Atoms(canon, Pieces(leaves)) == Coverage.Atoms(canon, page.part)
      && forall i | 0 <= i < |leaves| :: FromCall(retry, leaves[i])
  }

  ghost predicate AllResume<V>(
    canon: Json -> string, pages: seq<Retained<V>>, retry: nat -> Oracle<Piece, V>,
    chunks: seq<seq<Leaf<Piece, V>>>)
  {
    |chunks| <= |pages| && forall i | 0 <= i < |chunks| :: Resumes(canon, pages[i], retry(i), chunks[i])
  }

  /** The pieces whose coverage is refused: those read so far with the next page, or all pages. */
  function Refused<V>(pages: seq<Retained<V>>, chunks: seq<seq<Leaf<Piece, V>>>): seq<Piece> {
    Pieces(Flatten(chunks)) + if |chunks| < |pages| then pages[|chunks|].part else []
  }

  /** The call that could not be made: on the page at hand, or on what remains after all pages. */
  ghost predicate CannotResume<V>(
    kit: Kit<Piece, Atom>, pages: seq<Retained<V>>, fits: (nat, seq<Piece>) -> bool, retry: nat -> Oracle<Piece, V>,
    oracles: nat -> Oracle<Piece, V>, done: nat)
  {
    if done < |pages| then pages[done].answer.None? && exists stop :: Blamed(kit, retry(done), true, stop)
    else CannotPage(kit, fits, oracles)
  }

  lemma {:induction false} AnswerResumes<V>(
      canon: Json -> string, page: Retained<V>, retry: Oracle<Piece, V>)
    requires page.answer.Some?
    ensures Resumes(canon, page, retry, [Leaf(page.part, page.answer.value)])
    ensures Pieces([Leaf(page.part, page.answer.value)]) == page.part
  {
    assert PartsOf([Leaf(page.part, page.answer.value)]) == [page.part];
    assert Flatten([page.part]) == page.part + Flatten([page.part][1..]);
  }

  lemma {:induction false} ReadResumes<V>(
      canon: Json -> string, payload: Json, named: bool, page: Retained<V>, retry: Oracle<Piece, V>, corrections: nat,
      leaves: seq<Leaf<Piece, V>>)
    requires SplitsWell(PieceKit(canon, payload, named)) && AllValid(PieceKit(canon, payload, named), page.part)
    requires page.answer.None? && !retry.subsets
    requires CompletePage(PieceKit(canon, payload, named), retry, true, 0, corrections, page.part) == Ok(leaves)
    ensures Resumes(canon, page, retry, leaves) && AllValid(PieceKit(canon, payload, named), Pieces(leaves))
  {
    var kit := PieceKit(canon, payload, named);
    hide SplitsWell, AllValid, CompletePage, PieceKit, FromCall;
    CompletesInOrder(kit, retry, true, 0, corrections, page.part, leaves);
    LeavesValid(kit, retry, true, 0, corrections, page.part, leaves);
    CompletesExplained(kit, retry, true, 0, corrections, page.part);
    KitAtoms(canon, payload, named, Pieces(leaves));
    KitAtoms(canon, payload, named, page.part);
  }

  lemma {:induction false} OneMoreChunk<V>(
      canon: Json -> string, pages: seq<Retained<V>>, retry: nat -> Oracle<Piece, V>,
      chunks: seq<seq<Leaf<Piece, V>>>, more: seq<Leaf<Piece, V>>)
    requires AllResume(canon, pages, retry, chunks) && |chunks| < |pages|
    requires Resumes(canon, pages[|chunks|], retry(|chunks|), more)
    ensures AllResume(canon, pages, retry, chunks + [more])
    ensures Flatten(chunks + [more]) == Flatten(chunks) + more
    ensures Pieces(Flatten(chunks) + more) == Pieces(Flatten(chunks)) + Pieces(more)
  {
    hide Resumes, Flatten;
    FlattenOneMore(chunks, more);
    PartsConcat(Flatten(chunks), more);
  }

  /**
   * `_resume_review_pages`: admit the answered pages, complete the others, read what remains, and check that nothing
   * does. A review that is resumed has every retained review for its page, and has covered every character of the
   * payload exactly once if and only if all its pieces are named as splitting names them; with retained pages that
   * are, it always has, and the final check never fails.
   */
  method ResumeReview<V>(
    canon: Json -> string, payload: Json, pages: seq<Retained<V>>, fits: (nat, seq<Piece>) -> bool,
    retry: nat -> Oracle<Piece, V>, oracles: nat -> Oracle<Piece, V>, corrections: nat)
    returns (r: Resumed<V>, ghost chunks: seq<seq<Leaf<Piece, V>>>)
    requires Coverage.DistinctKeys(payload) && CoverageResume.TextsNonEmpty(canon)
    requires forall page :: !oracles(page).subsets
    requires forall page :: !retry(page).subsets
    ensures AllResume(canon, pages, retry, chunks)
    ensures r.Incomplete? ==> !WellNamed(payload, pages)
    ensures r.ForeignCoverage? ==> Coverage.Remaining(canon, payload, Refused(pages, chunks)).None?
    ensures r.CallsFailed? ==>
      CannotResume(PieceKit(canon, payload, WellNamed(payload, pages)), pages, fits, retry, oracles, |chunks|)
    ensures r.Covered? ==>
      && |chunks| == |pages| && Flatten(chunks) <= r.leaves
      && AllFromCalls(oracles, r.leaves[|Flatten(chunks)|..])
    ensures r.Covered? ==> Coverage.Remaining(canon, payload, Pieces(r.leaves)) == Some([])
    ensures r.Covered? ==>
              (CoversOnce(canon, payload, Pieces(r.leaves)) <==> CoverageExact.AllGood(payload, Pieces(r.leaves)))
    ensures r.Covered? && WellNamed(payload, pages) ==> CoversOnce(canon, payload, Pieces(r.leaves))
  {
    var named := WellNamed(payload, pages);
    PiecesSplitWell(canon, payload, named);
    var kit := PieceKit(canon, payload, named);
    var done: seq<Leaf<Piece, V>>, i := [], 0;
    chunks := [];
    assert Pieces(done) == [] && Flatten(chunks) == done;
    assert Admitted(canon, payload, named, []) && AllResume(canon, pages, retry, chunks);
    hide *;
    while i < |pages|
      invariant 0 <= i <= |pages| && |chunks| == i && Flatten(chunks) == done
      invariant Admitted(canon, payload, named, Pieces(done)) && AllResume(canon, pages, retry, chunks)
    {
      var part := pages[i].part;
      RefusedHere(pages, chunks);
      if Coverage.Remaining(canon, payload, Pieces(done) + part).None? { return ForeignCoverage, chunks; }
      AdmitPart(canon, payload, pages, named, Pieces(done), i);
      var more: seq<Leaf<Piece, V>>;
      if pages[i].answer.Some? {
        more := [Leaf(part, pages[i].answer.value)];
        AnswerResumes(canon, pages[i], retry(i));
      } else {
        var page := CompletePage(kit, retry(i), true, 0, corrections, part);
        if page.Err? {
          PageFails(kit, pages, fits, retry, oracles, i, corrections);
          return CallsFailed, chunks;
        }
        more := page.value;
        ReadResumes(canon, payload, named, pages[i], retry(i), corrections, more);
        AdmitMore(canon, payload, named, Pieces(done), Pieces(more));
      }
      OneMoreChunk(canon, pages, retry, chunks, more);
      done, chunks, i := done + more, chunks + [more], i + 1;
    }
    RefusedHere(pages, chunks);
    var remaining := Coverage.Remaining(canon, payload, Pieces(done));
    if remaining.None? { return ForeignCoverage, chunks; }
    RemainingValid(canon, payload, named, Pieces(done), remaining.value);
    var leaves := PageCalls(canon, payload, named, fits, oracles, corrections, remaining.value);
    if leaves.None? {
      RestFails(kit, pages, fits, retry, oracles);
      return CallsFailed, chunks;
    }
    AllPieces(done, leaves.value);
    if named { Finished(canon, payload, Pieces(done), remaining.value, Pieces(leaves.value)); }
    if Coverage.Remaining(canon, payload, Pieces(done + leaves.value)) != Some([]) { return Incomplete, chunks; }
    NothingLeft(canon, payload, Pieces(done + leaves.value));
    r := Covered(done + leaves.value);
  }

  lemma {:induction false} RefusedHere<V>(pages: seq<Retained<V>>, chunks: seq<seq<Leaf<Piece, V>>>)
    ensures |chunks| < |pages| ==> Refused(pages, chunks) == Pieces(Flatten(chunks)) + pages[|chunks|].part
    ensures |chunks| >= |pages| ==> Refused(pages, chunks) == Pieces(Flatten(chunks))
  {
    hide Pieces;
  }

  lemma {:induction false} PageFails<V>(
      kit: Kit<Piece, Atom>, pages: seq<Retained<V>>, fits: (nat, seq<Piece>) -> bool,
      retry: nat -> Oracle<Piece, V>, oracles: nat -> Oracle<Piece, V>, i: nat, corrections: nat)
    requires i < |pages| && pages[i].answer.None? && SplitsWell(kit) && AllValid(kit, pages[i].part)
    requires CompletePage(kit, retry(i), true, 0, corrections, pages[i].part).Err?
    ensures CannotResume(kit, pages, fits, retry, oracles, i)
  {
    CompletesExplained(kit, retry(i), true, 0, corrections, pages[i].part);
    hide CompletePage, Blamed, SplitsWell, AllValid;
  }

  lemma {:induction false} RestFails<V>(
      kit: Kit<Piece, Atom>, pages: seq<Retained<V>>, fits: (nat, seq<Piece>) -> bool,
      retry: nat -> Oracle<Piece, V>, oracles: nat -> Oracle<Piece, V>)
    requires CannotPage(kit, fits, oracles)
    ensures CannotResume(kit, pages, fits, retry, oracles, |pages|)
  {
    hide CannotPage;
  }

  lemma {:induction false} AllPieces<V>(done: seq<Leaf<Piece, V>>, rest: seq<Leaf<Piece, V>>)
    ensures Pieces(done + rest) == Pieces(done) + Pieces(rest) && Pieces(rest) == Flatten(PartsOf(rest))
    ensures done <= done + rest && (done + rest)[|done|..] == rest
  {
    PartsConcat(done, rest);
    hide Flatten;
  }

  ghost predicate CoversOnce(canon: Json -> string, payload: Json, ps: seq<Piece>) {
    multiset(Coverage.Atoms(canon, ps)) == multiset(Coverage.ValueAtoms(canon, "", payload))
  }

  lemma {:induction false} PlacedValid(canon: Json -> string, root: Json, ps: seq<Piece>)
    ensures CoverageResume.AllPlaced(canon, root, ps) <==> AllValid(PieceKit(canon, root, true), ps)
  {
    hide Coverage.Exact, CoverageExact.Good;
    forall i | 0 <= i < |ps| ensures PieceKit(canon, root, true).valid(ps[i]) == Placed(canon, root, ps[i]) {}
  }

  lemma {:induction false} SoundValid(canon: Json -> string, root: Json, ps: seq<Piece>)
    requires forall i | 0 <= i < |ps| :: Sound(ps[i])
    ensures AllValid(PieceKit(canon, root, false), ps)
  {
    forall i | 0 <= i < |ps| ensures PieceKit(canon, root, false).valid(ps[i]) {}
  }

  lemma {:induction false} AdmittedIsPlaced(canon: Json -> string, payload: Json, done: seq<Piece>, part: seq<Piece>)
    requires CoverageResume.AllPlaced(canon, payload, done) && CoverageExact.AllGood(payload, part)
    requires Coverage.Remaining(canon, payload, done + part).Some?
    ensures CoverageResume.AllPlaced(canon, payload, done + part) && CoverageResume.AllPlaced(canon, payload, part)
  {
    hide Coverage.Exact, CoverageExact.Good, Coverage.Remaining;
    assert CoverageExact.AllGood(payload, done + part);
    CoverageResume.AcceptedIsPlaced(canon, payload, done + part);
    assert forall k | 0 <= k < |part| :: (done + part)[|done| + k] == part[k];
  }

  lemma {:induction false} AcceptedIsSound(canon: Json -> string, root: Json, ps: seq<Piece>)
    requires Coverage.Remaining(canon, root, ps).Some?
    ensures forall i | 0 <= i < |ps| :: Sound(ps[i])
  {
    forall i | 0 <= i < |ps| ensures Sound(ps[i]) {
      assert Coverage.Exact(canon, root, ps[i]);
      hide Coverage.Lookup;
    }
  }

  lemma {:induction false} PartIsGood<V>(payload: Json, pages: seq<Retained<V>>, i: nat)
    requires WellNamed(payload, pages) && i < |pages|
    ensures CoverageExact.AllGood(payload, pages[i].part)
  {
    hide CoverageExact.Good;
  }

  lemma {:induction false} AdmitPart<V>(
    canon: Json -> string, payload: Json, pages: seq<Retained<V>>, named: bool, done: seq<Piece>, i: nat)
    requires named == WellNamed(payload, pages) && i < |pages| && Admitted(canon, payload, named, done)
    requires Coverage.Remaining(canon, payload, done + pages[i].part).Some?
    ensures AllValid(PieceKit(canon, payload, named), pages[i].part)
    ensures Admitted(canon, payload, named, done + pages[i].part)
  {
    var part := pages[i].part;
    hide WellNamed, Coverage.Remaining, CoverageResume.AllPlaced, AllValid, PieceKit, Sound;
    if named {
      PartIsGood(payload, pages, i);
      AdmittedIsPlaced(canon, payload, done, part);
      PlacedValid(canon, payload, part);
    } else {
      AcceptedIsSound(canon, payload, done + part);
      assert forall k | 0 <= k < |part| :: (done + part)[|done| + k] == part[k];
      SoundValid(canon, payload, part);
    }
  }

  lemma {:induction false} AdmitMore(
      canon: Json -> string, payload: Json, named: bool, done: seq<Piece>, more: seq<Piece>)
    requires Admitted(canon, payload, named, done) && AllValid(PieceKit(canon, payload, named), more)
    ensures Admitted(canon, payload, named, done + more)
  {
    hide CoverageResume.AllPlaced, AllValid, PieceKit;
    if named {
      PlacedValid(canon, payload, more);
      CoverageResume.PlacedConcat(canon, payload, done, more);
    }
  }

  // ---------------------------------------------------------------- what remains is never an empty fragment

  lemma {:induction false} GapsAreSound(
    canon: Json -> string, path: string, v: Json, rs: seq<Coverage.Range>, cursor: nat, i: nat)
    requires i < |Coverage.Gaps(canon, path, v, rs, cursor)|
    ensures Sound(Coverage.Gaps(canon, path, v, rs, cursor)[i])
  {
    if rs == [] {
    } else {
      var here: seq<Piece> := if cursor < rs[0].start <= |canon(v)|
        then [Coverage.FragmentOf(canon, path, v, cursor, rs[0].start)] else [];
      assert Coverage.Gaps(canon, path, v, rs, cursor) == here + Coverage.Gaps(canon, path, v, rs[1..], rs[0].end);
      if i >= |here| { GapsAreSound(canon, path, v, rs[1..], rs[0].end, i - |here|); }
    }
  }

  lemma {:induction false} RemainingIsSound(canon: Json -> string, covered: seq<Piece>, path: string, v: Json, i: nat)
    requires i < |Coverage.RemainingAt(canon, covered, path, v)|
    ensures Sound(Coverage.RemainingAt(canon, covered, path, v)[i])
    decreases v, 1, 0
  {
    hide Sound, Coverage.Gaps, Coverage.RemainingKids, Coverage.Kids, Coverage.CoveredBelow;
    if Coverage.CoveredAt(covered, path) {
      hide Coverage.CoveredAt, Coverage.WholeAt;
      GapsAreSound(canon, path, v, Coverage.SortRanges(Coverage.RangesAt(covered, path)), 0, i);
    } else if !Coverage.CoveredBelow(covered, path) {
      WholeIsSound(path, v);
    } else {
      RemainingKidsAreSound(canon, covered, path, v, 0, i);
    }
  }

  lemma {:induction false} WholeIsSound(path: string, v: Json)
    ensures Sound(Coverage.Whole(path, v))
  {
  }

  lemma {:induction false} RemainingKidsAreSound(
      canon: Json -> string, covered: seq<Piece>, path: string, v: Json, k: nat, i: nat)
    requires k <= |Coverage.Kids(v)| && i < |Coverage.RemainingKids(canon, covered, path, v, k)|
    ensures Sound(Coverage.RemainingKids(canon, covered, path, v, k)[i])
    decreases v, 0, |Coverage.Kids(v)| - k
  {
    hide *;
    CoverageResume.KidsLeft(canon, covered, path, v, k, i);
    var kid := Coverage.Kids(v)[k];
    CoverageExact.KidsUnfold(canon, covered, path, v, k);
    var here := Coverage.RemainingAt(canon, covered, path + "/" + kid.token, kid.value);
    if i < |here| {
      RemainingIsSound(canon, covered, path + "/" + kid.token, kid.value, i);
    } else {
      RemainingKidsAreSound(canon, covered, path, v, k + 1, i - |here|);
    }
  }

  lemma {:induction false} RemainingIs(canon: Json -> string, root: Json, covered: seq<Piece>, rem: seq<Piece>)
    requires Coverage.Remaining(canon, root, covered) == Some(rem)
    ensures rem == Coverage.RemainingAt(canon, covered, "", root)
  {
    hide Coverage.RemainingAt, Coverage.Acceptable;
  }

  lemma {:induction false} RemainingValid(
      canon: Json -> string, payload: Json, named: bool, done: seq<Piece>, rem: seq<Piece>)
    requires Coverage.DistinctKeys(payload) && Admitted(canon, payload, named, done)
    requires Coverage.Remaining(canon, payload, done) == Some(rem)
    ensures AllValid(PieceKit(canon, payload, named), rem)
  {
    hide CoverageResume.AllPlaced, AllValid, PieceKit, Coverage.Remaining, Sound;
    if named {
      CoverageResume.PlacedIsGood(canon, payload, done);
      CoverageResume.RemainingIsPlaced(canon, payload, done, rem);
      PlacedValid(canon, payload, rem);
    } else {
      RemainingIs(canon, payload, done, rem);
      forall i | 0 <= i < |rem| ensures Sound(rem[i]) { RemainingIsSound(canon, done, "", payload, i); }
      SoundValid(canon, payload, rem);
    }
  }

  // ---------------------------------------------------------------- the end of a resumed review

  /** Well-named pages with what is read of the rest leave nothing. */
  lemma {:induction false} Finished(
      canon: Json -> string, payload: Json, done: seq<Piece>, remaining: seq<Piece>, rest: seq<Piece>)
    requires Coverage.DistinctKeys(payload) && CoverageResume.TextsNonEmpty(canon)
    requires Admitted(canon, payload, true, done)
    requires Coverage.Remaining(canon, payload, done) == Some(remaining)
    requires AllValid(PieceKit(canon, payload, true), rest)
    requires AtomsOf(PieceKit(canon, payload, true), rest) == AtomsOf(PieceKit(canon, payload, true), remaining)
    ensures Coverage.Remaining(canon, payload, done + rest) == Some([])
    ensures CoversOnce(canon, payload, done + rest)
  {
    hide CoverageResume.AllPlaced, AllValid, PieceKit, Coverage.Remaining, AtomsOf, Coverage.Atoms, Coverage.ValueAtoms;
    KitAtoms(canon, payload, true, rest);
    KitAtoms(canon, payload, true, remaining);
    PlacedValid(canon, payload, rest);
    CoverageResume.PlacedConcat(canon, payload, done, rest);
    CoverageResume.PlacedIsGood(canon, payload, done);
    CoverageExact.CoveredPlusRemaining(canon, payload, done, remaining);
    CoverageExact.AtomsConcat(canon, done, rest);
    CoverageResume.CompleteIffNothingRemains(canon, payload, done + rest);
  }

  /** Where nothing remains, everything is covered once exactly when every piece is well named. */
  lemma {:induction false} NothingLeft(canon: Json -> string, payload: Json, ps: seq<Piece>)
    requires Coverage.DistinctKeys(payload) && CoverageResume.TextsNonEmpty(canon)
    requires Coverage.Remaining(canon, payload, ps) == Some([])
    ensures CoversOnce(canon, payload, ps) <==> CoverageExact.AllGood(payload, ps)
  {
    hide Coverage.Remaining, Coverage.Atoms, Coverage.ValueAtoms, CoverageExact.AllGood;
    CoverageSplit.ExactIffWellNamed(canon, payload, ps, []);
    CoverageExact.AtomsNone(canon);
  }
}
