/** Disposing of a review page by page, and recomposing the pages into one disposition. */
module Disposing {
  import opened Common
  import Coverage
  import opened Paging
  import opened PagingProofs
  import opened DispositionContract

  type Json = Coverage.Json
  type Piece = Coverage.Piece

  /** What a page is made of: an opinion, a source, or a fragment of a source too large for a page. */
  datatype Unit =
    | Opinion(item: Item)
    | Source(id: string, value: Json)
    | SourceFragment(id: string, piece: Piece)
    | Nothing

  predicate OfSource(u: Unit) {
    u.Source? || u.SourceFragment?
  }

  function Opinions(part: seq<Unit>): seq<Item> {
    if part == [] then [] else (if part[0].Opinion? then [part[0].item] else []) + Opinions(part[1..])
  }

  function SourceIds(part: seq<Unit>): seq<string> {
    if part == [] then [] else (if OfSource(part[0]) then [part[0].id] else []) + SourceIds(part[1..])
  }

  lemma {:induction false} OpinionsConcat(a: seq<Unit>, b: seq<Unit>)
    ensures Opinions(a + b) == Opinions(a) + Opinions(b)
  {
    if a == [] {
      assert a + b == b;
    } else {
      OpinionsConcat(a[1..], b);
      assert (a + b)[0] == a[0] && (a + b)[1..] == a[1..] + b;
      Associates(if a[0].Opinion? then [a[0].item] else [], Opinions(a[1..]), Opinions(b));
    }
  }

  lemma {:induction false} SourceIdsConcat(a: seq<Unit>, b: seq<Unit>)
    ensures SourceIds(a + b) == SourceIds(a) + SourceIds(b)
  {
    if a == [] {
      assert a + b == b;
    } else {
      SourceIdsConcat(a[1..], b);
      assert (a + b)[0] == a[0] && (a + b)[1..] == a[1..] + b;
      Associates(if OfSource(a[0]) then [a[0].id] else [], SourceIds(a[1..]), SourceIds(b));
    }
  }

  // ---------------------------------------------------------------- the sources a page shows

  function Place(items: seq<Item>, id: string): (r: Option<nat>)
    ensures r.Some? ==> r.value < |items| && items[r.value].id == id
    ensures r.None? ==> id !in IdsOf(items)
  {
    FirstWhere(items, (item: Item) => item.id == id)
  }

  /**
   * One unit shown: a source replaces what its identity held, a fragment joins the fragments of its source.
   * A fragment beside the whole source needs two sources of one identity, which the contract refuses.
   */
  function Show(items: seq<Item>, u: Unit): seq<Item> {
    if !OfSource(u) then items else
      match Place(items, u.id)
      case None => items + [Item(u.id, if u.Source? then Full(u.value) else Fragments([u.piece]))]
      case Some(k) =>
        if u.Source? then items[k := Item(u.id, Full(u.value))]
        else if items[k].body.Fragments? then items[k := Item(u.id, Fragments(items[k].body.pieces + [u.piece]))]
        else items
  }

  function Shown(part: seq<Unit>): seq<Item> {
    if part == [] then [] else Show(Shown(part[..|part| - 1]), part[|part| - 1])
  }

  function PagePayload(part: seq<Unit>): Payload {
    Payload(Opinions(part), Some(Shown(part)), None)
  }

  lemma {:induction false} ShowIds(items: seq<Item>, u: Unit)
    ensures IdsOf(Show(items, u)) ==
      if OfSource(u) && u.id !in IdsOf(items) then IdsOf(items) + [u.id] else IdsOf(items)
  {
    if OfSource(u) && Place(items, u.id).Some? {
      var k := Place(items, u.id).value;
      assert IdsOf(items)[k] == u.id;
    }
  }

  /** A page shows each of its sources once, however many fragments of it the page holds. */
  lemma {:induction false} ShownIds(part: seq<Unit>)
    ensures IdsOf(Shown(part)) == Dedup(SourceIds(part))
  {
    if part == [] {
    } else {
      var front, last := part[..|part| - 1], part[|part| - 1];
      assert part == front + [last];
      ShownIds(front);
      ShowIds(Shown(front), last);
      SourceIdsConcat(front, [last]);
      assert SourceIds([last]) == (if OfSource(last) then [last.id] else []) + SourceIds([last][1..]);
      assert forall x :: x in Dedup(SourceIds(front)) <==> x in Elements(SourceIds(front));
      if OfSource(last) {
        DedupLast(SourceIds(front), last.id);
      } else {
        assert SourceIds(part) == SourceIds(front);
      }
    }
  }

  lemma {:induction false} DedupLast(s: seq<string>, x: string)
    ensures Dedup(s + [x]) == if x in s then Dedup(s) else Dedup(s) + [x]
  {
    assert (s + [x])[..|s + [x]| - 1] == s;
  }

  // ---------------------------------------------------------------- recomposition

  /** hold over revise over proceed. */
  function Worst(ds: seq<Disposition>): Verdict {
    if exists i | 0 <= i < |ds| :: ds[i].verdict.Hold? then Hold
    else if exists i | 0 <= i < |ds| :: ds[i].verdict.Revise? then Revise
    else Proceed
  }

  function ResponseLists(ds: seq<Disposition>): (lists: seq<seq<Response>>)
    ensures |lists| == |ds| && forall i | 0 <= i < |ds| :: lists[i] == ds[i].responses
  {
    seq(|ds|, i requires 0 <= i < |ds| => ds[i].responses)
  }

  function WebRefLists(ds: seq<Disposition>): (lists: seq<seq<string>>)
    ensures |lists| == |ds| && forall i | 0 <= i < |ds| :: lists[i] == ds[i].webRefs
  {
    seq(|ds|, i requires 0 <= i < |ds| => ds[i].webRefs)
  }

  function Responses(ds: seq<Disposition>): seq<Response> {
    Flatten(ResponseLists(ds))
  }

  function WebRefs(ds: seq<Disposition>): seq<string> {
    Flatten(WebRefLists(ds))
  }

  function Combine(ds: seq<Disposition>): Disposition {
    Disposition(Worst(ds), Responses(ds), Dedup(WebRefs(ds)))
  }

  function Values(leaves: seq<Leaf<Unit, Disposition>>): (ds: seq<Disposition>)
    ensures |ds| == |leaves| && forall i | 0 <= i < |leaves| :: ds[i] == leaves[i].value
  {
    seq(|leaves|, i requires 0 <= i < |leaves| => leaves[i].value)
  }

  predicate PageValid(leaf: Leaf<Unit, Disposition>) {
    Validate(PagePayload(leaf.part), leaf.value).Ok?
  }

  lemma {:induction false} ListsConcat(a: seq<Disposition>, b: seq<Disposition>)
    ensures Responses(a + b) == Responses(a) + Responses(b)
    ensures WebRefs(a + b) == WebRefs(a) + WebRefs(b)
  {
    assert ResponseLists(a + b) == ResponseLists(a) + ResponseLists(b);
    assert WebRefLists(a + b) == WebRefLists(a) + WebRefLists(b);
    FlattenConcat(ResponseLists(a), ResponseLists(b));
    FlattenConcat(WebRefLists(a), WebRefLists(b));
  }

  lemma {:induction false} OneDisposition(d: Disposition)
    ensures Responses([d]) == d.responses && WebRefs([d]) == d.webRefs && Worst([d]) == d.verdict
  {
    assert ResponseLists([d]) == [d.responses] && WebRefLists([d]) == [d.webRefs];
    assert Flatten([d.responses]) == d.responses + Flatten([d.responses][1..]);
    assert Flatten([d.webRefs]) == d.webRefs + Flatten([d.webRefs][1..]);
    assert [d][0] == d;
  }

  lemma {:induction false} AnsweredConcat(a: seq<Response>, b: seq<Response>)
    ensures Answered(a + b) == Answered(a) + Answered(b)
  {
  }

  lemma {:induction false} IdsConcat(a: seq<Item>, b: seq<Item>)
    ensures IdsOf(a + b) == IdsOf(a) + IdsOf(b)
  {
  }

  /** A valid page answers its opinions once each and names exactly the sources it was shown. */
  lemma {:induction false} PageNames(leaf: Leaf<Unit, Disposition>)
    requires PageValid(leaf)
    ensures multiset(Answered(leaf.value.responses)) == multiset(IdsOf(Opinions(leaf.part)))
    ensures Elements(leaf.value.webRefs) == Elements(SourceIds(leaf.part))
  {
    var p := PagePayload(leaf.part);
    ValidIffExact(p, leaf.value);
    ShownIds(leaf.part);
    var exact := ContractOf(p).value;
    assert exact == Contract(IdsOf(Opinions(leaf.part)), IdsOf(Shown(leaf.part)));
    assert multiset(leaf.value.webRefs) == multiset(exact.webRefs);
    SameBagSameSet(leaf.value.webRefs, exact.webRefs);
  }

  lemma {:induction false} NamesTogether(d: Disposition, ds: seq<Disposition>, part: seq<Unit>, units: seq<Unit>)
    requires multiset(Answered(d.responses)) == multiset(IdsOf(Opinions(part)))
    requires multiset(Answered(Responses(ds))) == multiset(IdsOf(Opinions(units)))
    requires Elements(d.webRefs) == Elements(SourceIds(part)) && Elements(WebRefs(ds)) == Elements(SourceIds(units))
    ensures multiset(Answered(Responses([d] + ds))) == multiset(IdsOf(Opinions(part + units)))
    ensures Elements(WebRefs([d] + ds)) == Elements(SourceIds(part + units))
  {
    hide *;
    ListsConcat([d], ds);
    OneDisposition(d);
    AnsweredConcat(d.responses, Responses(ds));
    OpinionsConcat(part, units);
    IdsConcat(Opinions(part), Opinions(units));
    SourceIdsConcat(part, units);
    ElementsConcat(d.webRefs, WebRefs(ds));
    ElementsConcat(SourceIds(part), SourceIds(units));
  }

  lemma {:induction false} OneMorePage(first: Leaf<Unit, Disposition>, rest: seq<Leaf<Unit, Disposition>>)
    ensures Values([first] + rest) == [first.value] + Values(rest)
    ensures Flatten(PartsOf([first] + rest)) == first.part + Flatten(PartsOf(rest))
  {
    hide Flatten;
    assert ([first] + rest)[1..] == rest;
    assert PartsOf([first] + rest) == [first.part] + PartsOf(rest);
    FlattenHead(first.part, PartsOf(rest));
  }

  /** Together the pages answer the opinions of their units, and name their sources. */
  ghost predicate Named(leaves: seq<Leaf<Unit, Disposition>>) {
    && multiset(Answered(Responses(Values(leaves)))) == multiset(IdsOf(Opinions(Flatten(PartsOf(leaves)))))
    && Elements(WebRefs(Values(leaves))) == Elements(SourceIds(Flatten(PartsOf(leaves))))
  }

  lemma {:induction false} NamedMeans(leaves: seq<Leaf<Unit, Disposition>>)
    requires Named(leaves)
    ensures multiset(Answered(Responses(Values(leaves)))) == multiset(IdsOf(Opinions(Flatten(PartsOf(leaves)))))
    ensures Elements(WebRefs(Values(leaves))) == Elements(SourceIds(Flatten(PartsOf(leaves))))
  {
  }

  lemma {:induction false} PageJoins(first: Leaf<Unit, Disposition>, rest: seq<Leaf<Unit, Disposition>>)
    requires PageValid(first) && Named(rest)
    ensures Named([first] + rest)
  {
    hide PageValid, SourceIds, Opinions, Responses, WebRefs, Answered, IdsOf, Values, PartsOf, Flatten;
    PageNames(first);
    OneMorePage(first, rest);
    NamesTogether(first.value, Values(rest), first.part, Flatten(PartsOf(rest)));
  }

  lemma {:induction false} PagesName(leaves: seq<Leaf<Unit, Disposition>>)
    requires forall i | 0 <= i < |leaves| :: PageValid(leaves[i])
    ensures Named(leaves)
  {
    if leaves == [] {
    } else {
      hide Named, PageValid;
      PagesName(leaves[1..]);
      PageJoins(leaves[0], leaves[1..]);
      assert leaves == [leaves[0]] + leaves[1..];
    }
  }

  /** The units hold the review's opinions in order, and fragments or wholes of exactly its sources. */
  ghost predicate Represents(units: seq<Unit>, opinions: seq<Item>, sources: seq<Item>) {
    Opinions(units) == opinions && Elements(SourceIds(units)) == Elements(IdsOf(sources))
  }

  /**
   * Paged disposition is compositional: if every page passes its own exact contract, the recombined
   * response passes the whole contract, even when sources were fragmented over pages. The whole payload's
   * own identities are the only thing left that validation can refuse.
   */
  lemma {:induction false} PagesComposeContract(
    leaves: seq<Leaf<Unit, Disposition>>, opinions: seq<Item>, sources: seq<Item>)
    requires forall i | 0 <= i < |leaves| :: PageValid(leaves[i])
    requires Represents(Flatten(PartsOf(leaves)), opinions, sources)
    ensures Validate(Payload(opinions, Some(sources), None), Combine(Values(leaves))).Ok?
       <==> ContractOf(Payload(opinions, Some(sources), None)).Ok?
  {
    hide *;
    var p, d := Payload(opinions, Some(sources), None), Combine(Values(leaves));
    PagesName(leaves);
    NamedMeans(leaves);
    ValidIffExact(p, d);
    CombinedNames(Values(leaves));
    RepresentsNames(Flatten(PartsOf(leaves)), opinions, sources);
    if ContractOf(p).Ok? {
      ContractIsDistinct(p);
      TopContract(opinions, sources);
      ExactByNames(IdsOf(opinions), IdsOf(sources), d);
    }
  }

  lemma {:induction false} CombinedNames(ds: seq<Disposition>)
    ensures Combine(ds).responses == Responses(ds)
    ensures Distinct(Combine(ds).webRefs) && Elements(Combine(ds).webRefs) == Elements(WebRefs(ds))
  {
    hide Worst, Responses, WebRefs;
  }

  lemma {:induction false} RepresentsNames(units: seq<Unit>, opinions: seq<Item>, sources: seq<Item>)
    requires Represents(units, opinions, sources)
    ensures Opinions(units) == opinions && Elements(SourceIds(units)) == Elements(IdsOf(sources))
  {
    hide Opinions, SourceIds;
  }

  lemma {:induction false} TopContract(opinions: seq<Item>, sources: seq<Item>)
    requires ContractOf(Payload(opinions, Some(sources), None)).Ok?
    ensures ContractOf(Payload(opinions, Some(sources), None)).value == Contract(IdsOf(opinions), IdsOf(sources))
  {
  }

  lemma {:induction false} ExactByNames(opinionIds: seq<string>, sourceIds: seq<string>, d: Disposition)
    requires Distinct(opinionIds) && Distinct(sourceIds) && Distinct(d.webRefs)
    requires multiset(Answered(d.responses)) == multiset(opinionIds) && Elements(d.webRefs) == Elements(sourceIds)
    ensures IdsExact(Answered(d.responses), opinionIds) && IdsExact(d.webRefs, sourceIds)
  {
    DistinctByBag(opinionIds, Answered(d.responses));
    SameSetSameBag(d.webRefs, sourceIds);
  }

  // ---------------------------------------------------------------- the partition does not matter

  lemma {:induction false} DedupOfDistinct(s: seq<string>)
    requires Distinct(s)
    ensures Dedup(s) == s
  {
    if s == [] {
    } else {
      var front, last := s[..|s| - 1], s[|s| - 1];
      assert s == front + [last];
      DedupOfDistinct(front);
      assert last !in front;
    }
  }

  lemma {:induction false} DedupBefore(a: seq<string>, b: seq<string>)
    ensures Dedup(Dedup(a) + b) == Dedup(a + b)
  {
    if b == [] {
      assert Dedup(a) + b == Dedup(a) && a + b == a;
      DedupOfDistinct(Dedup(a));
    } else {
      var front, last := b[..|b| - 1], b[|b| - 1];
      DedupBefore(a, front);
      assert Dedup(a) + b == Dedup(a) + front + [last] && a + b == a + front + [last];
      DedupLast(Dedup(a) + front, last);
      DedupLast(a + front, last);
      assert last in Dedup(a) <==> last in Elements(a);
    }
  }

  lemma {:induction false} DedupAfterOne(a: seq<string>, front: seq<string>, last: string)
    requires Dedup(a + Dedup(front)) == Dedup(a + front)
    ensures Dedup(a + Dedup(front + [last])) == Dedup(a + (front + [last]))
  {
    hide *;
    DedupLast(front, last);
    assert a + (front + [last]) == (a + front) + [last];
    DedupLast(a + front, last);
    if last in front {
      assert last in a + front;
    } else {
      assert a + (Dedup(front) + [last]) == (a + Dedup(front)) + [last];
      DedupLast(a + Dedup(front), last);
      DedupMembers(front, last);
    }
  }

  lemma {:induction false} DedupMembers(s: seq<string>, x: string)
    ensures x in Dedup(s) <==> x in s
  {
    assert x in Dedup(s) <==> x in Elements(s);
  }

  lemma {:induction false} DedupAfter(a: seq<string>, b: seq<string>)
    ensures Dedup(a + Dedup(b)) == Dedup(a + b)
  {
    if b == [] {
      assert a + Dedup(b) == a && a + b == a;
    } else {
      var front, last := b[..|b| - 1], b[|b| - 1];
      hide *;
      DedupAfter(a, front);
      assert b == front + [last];
      DedupAfterOne(a, front, last);
    }
  }

  function CombineEach(groups: seq<seq<Disposition>>): (ds: seq<Disposition>)
    ensures |ds| == |groups| && forall i | 0 <= i < |groups| :: ds[i] == Combine(groups[i])
  {
    seq(|groups|, i requires 0 <= i < |groups| => Combine(groups[i]))
  }

  function WorstOf(a: Verdict, b: Verdict): Verdict {
    if a.Hold? || b.Hold? then Hold else if a.Revise? || b.Revise? then Revise else Proceed
  }

  lemma {:induction false} WorstConcat(a: seq<Disposition>, b: seq<Disposition>)
    ensures Worst(a + b) == WorstOf(Worst(a), Worst(b))
  {
    assert forall i | 0 <= i < |a| :: (a + b)[i] == a[i];
    assert forall i | 0 <= i < |b| :: (a + b)[|a| + i] == b[i];
  }

  /** However the pages are grouped, the responses, the references and the worst verdict come out the same. */
  lemma {:induction false} GroupingDoesNotMatter(groups: seq<seq<Disposition>>)
    ensures Combine(Flatten(groups)) == Combine(CombineEach(groups))
  {
    if groups == [] {
    } else {
      var first, rest := groups[0], groups[1..];
      GroupingDoesNotMatter(rest);
      assert Flatten(groups) == first + Flatten(rest);
      assert CombineEach(groups) == [Combine(first)] + CombineEach(rest);
      hide Flatten, Worst, Responses, WebRefs, Dedup;
      GroupAndRest(first, Flatten(rest), CombineEach(rest));
    }
  }

  lemma {:induction false} GroupAndRest(first: seq<Disposition>, rest: seq<Disposition>, combined: seq<Disposition>)
    requires Combine(rest) == Combine(combined)
    ensures Combine(first + rest) == Combine([Combine(first)] + combined)
  {
    hide Worst, Responses, WebRefs, Dedup;
    var one := Combine(first);
    OneDisposition(one);
    ListsConcat(first, rest);
    WorstConcat(first, rest);
    ListsConcat([one], combined);
    WorstConcat([one], combined);
    DedupBefore(WebRefs(first), WebRefs(combined));
    DedupAfter(WebRefs(first), WebRefs(combined));
    DedupAfter(WebRefs(first), WebRefs(rest));
  }

  // ---------------------------------------------------------------- what a page shows and what pages add up to

  /** The fragments of this source on the page, in order. */
  function PiecesOf(part: seq<Unit>, id: string): seq<Piece> {
    if part == [] then []
    else
      var last := part[|part| - 1];
      PiecesOf(part[..|part| - 1], id) + if last.SourceFragment? && last.id == id then [last.piece] else []
  }

  /** No whole source of this identity is on the page. */
  predicate OnlyFragments(part: seq<Unit>, id: string) {
    forall i | 0 <= i < |part| :: !(part[i].Source? && part[i].id == id)
  }

  /** The last unit of this identity that is a whole source. */
  predicate LastSource(part: seq<Unit>, id: string, i: int) {
    && 0 <= i < |part| && part[i].Source? && part[i].id == id
    && forall j | i < j < |part| :: !(part[j].Source? && part[j].id == id)
  }

  /** What is shown under an identity. */
  function BodyAt(items: seq<Item>, id: string): Option<Body> {
    match Place(items, id)
    case None => None
    case Some(k) => Some(items[k].body)
  }

  /** A source is shown whole, or with all its fragments on the page in their order, and only if it is on it. */
  ghost predicate ShownAs(part: seq<Unit>, body: Option<Body>, id: string) {
    && (body.None? <==> OnlyFragments(part, id) && PiecesOf(part, id) == [])
    && (OnlyFragments(part, id) && body.Some? ==> body.value == Fragments(PiecesOf(part, id)))
    && forall i | LastSource(part, id, i) :: body == Some(Full(part[i].value))
  }

  /** What a unit makes of what is shown under its identity. */
  function Joined(body: Option<Body>, u: Unit): Body
    requires OfSource(u)
  {
    if u.Source? then Full(u.value)
    else
      match body
      case None => Fragments([u.piece])
      case Some(Fragments(pieces)) => Fragments(pieces + [u.piece])
      case Some(Full(value)) => Full(value)
  }

  lemma {:induction false} BodyIs(items: seq<Item>, k: nat)
    requires Distinct(IdsOf(items)) && k < |items|
    ensures BodyAt(items, items[k].id) == Some(items[k].body)
  {
    assert IdsOf(items)[k] == items[k].id;
    var at := Place(items, items[k].id);
    assert at.Some? && IdsOf(items)[at.value] == items[k].id;
  }

  lemma {:induction false} NoBody(items: seq<Item>, id: string)
    requires id !in IdsOf(items)
    ensures BodyAt(items, id) == None
  {
    assert forall k | 0 <= k < |items| :: IdsOf(items)[k] == items[k].id;
  }

  lemma {:induction false} ShowOther(items: seq<Item>, u: Unit, id: string)
    requires Distinct(IdsOf(items)) && !(OfSource(u) && u.id == id)
    ensures BodyAt(Show(items, u), id) == BodyAt(items, id)
  {
    var after := Show(items, u);
    ShowIds(items, u);
    if id in IdsOf(items) {
      var k :| 0 <= k < |items| && IdsOf(items)[k] == id;
      assert after[k] == items[k];
      hide Show, BodyAt;
      BodyIs(items, k);
      BodyIs(after, k);
    } else {
      hide Show, BodyAt;
      NoBody(items, id);
      NoBody(after, id);
    }
  }

  lemma {:induction false} ShowOwn(items: seq<Item>, u: Unit)
    requires Distinct(IdsOf(items)) && OfSource(u)
    ensures BodyAt(Show(items, u), u.id) == Some(Joined(BodyAt(items, u.id), u))
  {
    var after := Show(items, u);
    ShowIds(items, u);
    var at := Place(items, u.id);
    var k := if at.None? then |items| else at.value;
    assert after[k] == Item(u.id, Joined(BodyAt(items, u.id), u));
    hide Show, BodyAt, Joined;
    BodyIs(after, k);
  }

  lemma {:induction false} ShowBody(items: seq<Item>, u: Unit, id: string)
    requires Distinct(IdsOf(items))
    ensures BodyAt(Show(items, u), id) ==
      if OfSource(u) && u.id == id then Some(Joined(BodyAt(items, id), u)) else BodyAt(items, id)
  {
    hide Show, BodyAt, Joined;
    if OfSource(u) && u.id == id { ShowOwn(items, u); } else { ShowOther(items, u, id); }
  }

  lemma {:induction false} OtherUnit(front: seq<Unit>, u: Unit, id: string, body: Option<Body>)
    requires ShownAs(front, body, id) && !(OfSource(u) && u.id == id)
    ensures ShownAs(front + [u], body, id)
  {
    var part := front + [u];
    assert part[..|front|] == front && part[|front|] == u;
    assert PiecesOf(part, id) == PiecesOf(front, id);
    assert OnlyFragments(part, id) <==> OnlyFragments(front, id) by {
      assert forall i | 0 <= i < |front| :: part[i] == front[i];
    }
    forall i | LastSource(part, id, i) ensures LastSource(front, id, i) {
      assert forall j | 0 <= j < |front| :: part[j] == front[j];
    }
    hide OnlyFragments, PiecesOf, LastSource;
  }

  lemma {:induction false} WholeUnit(front: seq<Unit>, u: Unit, id: string)
    requires u.Source? && u.id == id
    ensures ShownAs(front + [u], Some(Full(u.value)), id)
  {
    var part := front + [u];
    assert part[|front|] == u;
    assert !OnlyFragments(part, id);
    forall i | LastSource(part, id, i) ensures i == |front| {}
    hide OnlyFragments, PiecesOf;
  }

  lemma {:induction false} FragmentUnit(front: seq<Unit>, u: Unit, id: string, body: Option<Body>)
    requires ShownAs(front, body, id) && u.SourceFragment? && u.id == id
    ensures ShownAs(front + [u], Some(Joined(body, u)), id)
  {
    var part := front + [u];
    assert part[..|front|] == front && part[|front|] == u;
    assert PiecesOf(part, id) == PiecesOf(front, id) + [u.piece];
    assert forall j | 0 <= j < |front| :: part[j] == front[j];
    assert OnlyFragments(part, id) <==> OnlyFragments(front, id);
    forall i | LastSource(part, id, i) ensures LastSource(front, id, i) {}
    if !OnlyFragments(front, id) { SomeLastSource(front, id); }
    hide OnlyFragments, PiecesOf, LastSource;
  }

  lemma {:induction false} SomeLastSource(part: seq<Unit>, id: string)
    requires !OnlyFragments(part, id)
    ensures exists i :: LastSource(part, id, i)
  {
    var front, last := part[..|part| - 1], part[|part| - 1];
    if last.Source? && last.id == id {
      assert LastSource(part, id, |front|);
    } else {
      assert !OnlyFragments(front, id) by {
        var i :| 0 <= i < |part| && part[i].Source? && part[i].id == id;
        assert front[i] == part[i];
      }
      SomeLastSource(front, id);
      var i :| LastSource(front, id, i);
      assert LastSource(part, id, i);
    }
  }

  /** However a page was put together, it shows every source as the units on it have it. */
  lemma {:induction false} PageShows(part: seq<Unit>, id: string)
    ensures ShownAs(part, BodyAt(Shown(part), id), id)
  {
    if part == [] {
    } else {
      var front, last := part[..|part| - 1], part[|part| - 1];
      assert part == front + [last];
      PageShows(front, id);
      ShownIds(front);
      ShowBody(Shown(front), last, id);
      hide ShownAs, BodyAt, Show;
      var body := BodyAt(Shown(front), id);
      if !(OfSource(last) && last.id == id) {
        OtherUnit(front, last, id, body);
      } else if last.Source? {
        WholeUnit(front, last, id);
      } else {
        FragmentUnit(front, last, id, body);
      }
    }
  }

  /** The verdict is one of the pages' verdicts, and no page has a worse one. */
  lemma {:induction false} WorstIsWorst(ds: seq<Disposition>)
    ensures ds == [] ==> Worst(ds) == Proceed
    ensures ds != [] ==> exists i :: 0 <= i < |ds| && ds[i].verdict == Worst(ds)
    ensures forall i | 0 <= i < |ds| :: WorstOf(ds[i].verdict, Worst(ds)) == Worst(ds)
    ensures WorstOf(Proceed, Revise) == Revise && WorstOf(Revise, Hold) == Hold
  {
    if ds != [] && Worst(ds) == Proceed { assert ds[0].verdict == Proceed; }
  }

  /** The pages' responses one after the other, and every reference once, at its first mention. */
  lemma {:induction false} CombineMeans(ds: seq<Disposition>)
    ensures Combine(ds).responses == Flatten(seq(|ds|, i requires 0 <= i < |ds| => ds[i].responses))
    ensures Distinct(Combine(ds).webRefs)
    ensures forall x :: x in Combine(ds).webRefs <==> exists i :: 0 <= i < |ds| && x in ds[i].webRefs
  {
    assert ResponseLists(ds) == seq(|ds|, i requires 0 <= i < |ds| => ds[i].responses);
    forall x ensures x in Combine(ds).webRefs <==> exists i :: 0 <= i < |ds| && x in ds[i].webRefs {
      assert x in Combine(ds).webRefs <==> x in Elements(Combine(ds).webRefs);
      assert x in WebRefs(ds) <==> x in Elements(WebRefs(ds));
      FlattenMembers(WebRefLists(ds), x);
      assert forall i | 0 <= i < |ds| :: WebRefLists(ds)[i] == ds[i].webRefs;
    }
  }

  lemma {:induction false} FlattenMembers(lists: seq<seq<string>>, x: string)
    ensures x in Flatten(lists) <==> exists i :: 0 <= i < |lists| && x in lists[i]
  {
    if lists == [] {
    } else {
      FlattenMembers(lists[1..], x);
      if i :| 0 <= i < |lists[1..]| && x in lists[1..][i] { assert x in lists[i + 1]; }
    }
  }
}
