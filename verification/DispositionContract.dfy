/** The exact reference contract of a disposition: which opinions and sources a response must name. */
module DispositionContract {
  import opened Common
  import Coverage

  /** A source as it is shown: whole, or as fragments of it. */
  datatype Body = Full(value: Coverage.Json) | Fragments(pieces: seq<Coverage.Piece>)
  datatype Item = Item(id: string, body: Body)

  /** The review's opinions, and the sources where the payload has them: at the top, under `web`, or both. */
  datatype Payload = Payload(opinions: seq<Item>, top: Option<seq<Item>>, web: Option<seq<Item>>)

  datatype Contract = Contract(opinionIds: seq<string>, webRefs: seq<string>)

  datatype Verdict = Proceed | Revise | Hold
  datatype Response = Response(opinion: string, text: string)
  datatype Disposition = Disposition(verdict: Verdict, responses: seq<Response>, webRefs: seq<string>)

  datatype Violation = Violation(missing: seq<string>, extra: seq<string>, duplicates: seq<string>)

  datatype Fault =
    | InexactIds
    | ConflictingSources
    | Violated(opinions: Option<Violation>, webRefs: Option<Violation>)

  function IdsOf(items: seq<Item>): (ids: seq<string>)
    ensures |ids| == |items| && forall i | 0 <= i < |items| :: ids[i] == items[i].id
  {
    seq(|items|, i requires 0 <= i < |items| => items[i].id)
  }

  function Answered(responses: seq<Response>): (ids: seq<string>)
    ensures |ids| == |responses| && forall i | 0 <= i < |responses| :: ids[i] == responses[i].opinion
  {
    seq(|responses|, i requires 0 <= i < |responses| => responses[i].opinion)
  }

  /** `_ids`: every identity is named, and none twice. */
  function Ids(items: seq<Item>): Result<seq<string>, Fault> {
    if "" in IdsOf(items) || !Distinct(IdsOf(items)) then Err(InexactIds) else Ok(IdsOf(items))
  }

  /** `sources`: both places must own the same items; `web` decides the order. */
  function Sources(p: Payload): Result<seq<Item>, Fault> {
    var _ :- if p.top.Some? then Ids(p.top.value) else Ok([]);
    var _ :- if p.web.Some? then Ids(p.web.value) else Ok([]);
    if p.top.Some? && p.web.Some? && Elements(p.top.value) != Elements(p.web.value) then Err(ConflictingSources)
    else Ok(if p.web.Some? then p.web.value else if p.top.Some? then p.top.value else [])
  }

  function ContractOf(p: Payload): Result<Contract, Fault> {
    var opinionIds :- Ids(p.opinions);
    var sources :- Sources(p);
    Ok(Contract(opinionIds, IdsOf(sources)))
  }

  // ---------------------------------------------------------------- comparing identities

  function Keep<T(!new)>(s: seq<T>, f: T -> bool): (r: seq<T>)
    ensures forall x :: x in r <==> x in s && f(x)
  {
    if s == [] then [] else (if f(s[0]) then [s[0]] else []) + Keep(s[1..], f)
  }

  function Difference(expected: seq<string>, returned: seq<string>): Option<Violation> {
    var missing := Keep(expected, x => x !in returned);
    var extra := Dedup(Keep(returned, x => x !in expected));
    var duplicates := Keep(Dedup(returned), x => multiset(returned)[x] > 1);
    if missing == [] && extra == [] && duplicates == [] then None else Some(Violation(missing, extra, duplicates))
  }

  lemma {:induction false} Empty<T(!new)>(s: seq<T>)
    ensures s == [] <==> forall x :: x !in s
  {
    if s != [] { assert s[0] in s; }
  }

  /** Nothing is reported exactly when the response names every expected identity once and no other. */
  lemma {:induction false} DifferenceIsExact(expected: seq<string>, returned: seq<string>)
    requires Distinct(expected)
    ensures Difference(expected, returned) == None <==> IdsExact(returned, expected)
  {
    DifferenceTells(expected, returned);
    hide Difference;
    OnceByBag(returned);
    if Difference(expected, returned) == None {
      assert Elements(returned) == Elements(expected);
      SameSetSameBag(returned, expected);
    }
    if IdsExact(returned, expected) {
      SameBagSameSet(returned, expected);
      assert forall x :: x in expected <==> x in Elements(expected);
      assert forall x :: x in returned <==> x in Elements(returned);
    }
  }

  lemma {:induction false} DifferenceTells(expected: seq<string>, returned: seq<string>)
    ensures Difference(expected, returned) == None <==>
      (forall x | x in expected :: x in returned) &&
        (forall x | x in returned :: x in expected && multiset(returned)[x] <= 1)
  {
    var missing := Keep(expected, x => x !in returned);
    var extra := Keep(returned, x => x !in expected);
    var duplicates := Keep(Dedup(returned), x => multiset(returned)[x] > 1);
    Empty(missing);
    Empty(extra);
    Empty(Dedup(extra));
    Empty(duplicates);
    assert forall x :: x in Dedup(extra) <==> x in Elements(extra);
    assert forall x :: x in Dedup(returned) <==> x in Elements(returned);
  }

  /** `validate` */
  function Validate(p: Payload, d: Disposition): Result<(), Fault> {
    var exact :- ContractOf(p);
    var opinions := Difference(exact.opinionIds, Answered(d.responses));
    var webRefs := Difference(exact.webRefs, d.webRefs);
    if opinions == None && webRefs == None then Ok(()) else Err(Violated(opinions, webRefs))
  }

  lemma {:induction false} ContractIsDistinct(p: Payload)
    requires ContractOf(p).Ok?
    ensures Distinct(ContractOf(p).value.opinionIds) && Distinct(ContractOf(p).value.webRefs)
  {
  }

  /** A response is accepted exactly when it answers every opinion once and consumes every source once. */
  lemma {:induction false} ValidIffExact(p: Payload, d: Disposition)
    ensures Validate(p, d).Ok? <==>
      ContractOf(p).Ok? &&
      IdsExact(Answered(d.responses), ContractOf(p).value.opinionIds) &&
        IdsExact(d.webRefs, ContractOf(p).value.webRefs)
  {
    if ContractOf(p).Ok? {
      ContractIsDistinct(p);
      var exact := ContractOf(p).value;
      DifferenceIsExact(exact.opinionIds, Answered(d.responses));
      DifferenceIsExact(exact.webRefs, d.webRefs);
    }
  }

  /** With both places present, which of them is read first only orders the sources. */
  lemma {:induction false} OwnershipAgrees(p: Payload)
    requires Sources(p).Ok? && p.top.Some? && p.web.Some?
    ensures multiset(IdsOf(p.top.value)) == multiset(ContractOf(p.(opinions := [])).value.webRefs)
  {
    var top, web := p.top.value, p.web.value;
    assert Elements(IdsOf(top)) == Elements(IdsOf(web)) by {
      forall id ensures id in IdsOf(top) <==> id in IdsOf(web) {
        if id in IdsOf(top) {
          var i :| 0 <= i < |top| && IdsOf(top)[i] == id;
          assert top[i] in Elements(web);
          var k :| 0 <= k < |web| && web[k] == top[i];
          assert IdsOf(web)[k] == id;
        }
        if id in IdsOf(web) {
          var i :| 0 <= i < |web| && IdsOf(web)[i] == id;
          assert web[i] in Elements(top);
          var k :| 0 <= k < |top| && top[k] == web[i];
          assert IdsOf(top)[k] == id;
        }
      }
    }
    SameSetSameBag(IdsOf(top), IdsOf(web));
  }

  // ---------------------------------------------------------------- exactly what is refused and reported

  /** Every identity is named, and none twice. */
  predicate Identified(items: seq<Item>) {
    && (forall i | 0 <= i < |items| :: items[i].id != "")
    && forall i, j | 0 <= i < j < |items| :: items[i].id != items[j].id
  }

  lemma {:induction false} IdsExactly(items: seq<Item>)
    ensures Ids(items).Ok? <==> Identified(items)
    ensures Ids(items).Ok? ==> Ids(items).value == IdsOf(items)
  {
    if Identified(items) {
      forall i | 0 <= i < |items| ensures IdsOf(items)[i] != "" {}
    } else if i :| 0 <= i < |items| && items[i].id == "" {
      assert IdsOf(items)[i] == "";
    } else {
      var i, j :| 0 <= i < j < |items| && items[i].id == items[j].id;
      assert IdsOf(items)[i] == IdsOf(items)[j];
    }
  }

  /** What a payload owes an answer: its opinions and the sources it owns, which both places agree on. */
  lemma {:induction false} ContractExactly(p: Payload)
    ensures ContractOf(p).Ok? <==>
      && Identified(p.opinions)
      && (p.top.Some? ==> Identified(p.top.value)) && (p.web.Some? ==> Identified(p.web.value))
      && (p.top.Some? && p.web.Some? ==> forall item :: item in p.top.value <==> item in p.web.value)
    ensures ContractOf(p).Ok? ==>
      && ContractOf(p).value.opinionIds == IdsOf(p.opinions)
      && ContractOf(p).value.webRefs
         == IdsOf(if p.web.Some? then p.web.value else if p.top.Some? then p.top.value else [])
  {
    IdsExactly(p.opinions);
    if p.top.Some? { IdsExactly(p.top.value); }
    if p.web.Some? { IdsExactly(p.web.value); }
    if p.top.Some? && p.web.Some? {
      assert Elements(p.top.value) == Elements(p.web.value) <==>
        forall item :: item in p.top.value <==> item in p.web.value by {
        assert forall item :: item in p.top.value <==> item in Elements(p.top.value);
        assert forall item :: item in p.web.value <==> item in Elements(p.web.value);
      }
    }
    hide Ids, Elements, Identified;
  }

  /** A refusal names what is missing, what nobody asked for, and what is named more than once. */
  lemma {:induction false} ViolationReports(expected: seq<string>, returned: seq<string>, v: Violation)
    requires Difference(expected, returned) == Some(v)
    ensures forall x :: x in v.missing <==> x in expected && x !in returned
    ensures forall x :: x in v.extra <==> x in returned && x !in expected
    ensures forall x :: x in v.duplicates <==> multiset(returned)[x] > 1
  {
    var extra := Keep(returned, x => x !in expected);
    assert v.extra == Dedup(extra);
    forall x ensures x in v.extra <==> x in extra { assert x in v.extra <==> x in Elements(v.extra); }
    forall x ensures x in v.duplicates <==> multiset(returned)[x] > 1 {
      assert x in Dedup(returned) <==> x in Elements(Dedup(returned));
      assert multiset(returned)[x] > 1 ==> x in returned;
    }
  }
}
