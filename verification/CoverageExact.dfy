/** Coverage subtraction is exact: covered and remaining pieces hold every character exactly once. */
module CoverageExact {
  import opened Common
  import opened Paths
  import opened Coverage

  // ---------------------------------------------------------------- canonical paths

  function KidIndex(ks: seq<Kid>, token: string): (r: Option<nat>)
    ensures r.Some? ==> r.value < |ks| && ks[r.value].token == token
    ensures r.None? ==> forall i | 0 <= i < |ks| :: ks[i].token != token
  {
    FirstWhere(ks, (kid: Kid) => kid.token == token)
  }

  /** Following path components as they are written out, not as they are read. */
  function Walk(v: Json, ts: seq<string>): Option<Json>
    decreases |ts|
  {
    if ts == [] then Some(v) else
      match KidIndex(Kids(v), ts[0])
      case None => None
      case Some(k) => Walk(Kids(v)[k].value, ts[1..])
  }

  /** The piece's path is the one splitting writes, and only leaf text is fragmented. */
  predicate Good(root: Json, p: Piece) {
    && PathShape(p.path)
    && Walk(root, Tokens(p.path)).Some?
    && (p.Fragment? ==> Leaf(Walk(root, Tokens(p.path)).value))
  }

  ghost predicate AllGood(root: Json, ps: seq<Piece>) {
    forall i | 0 <= i < |ps| :: Good(root, ps[i])
  }

  lemma {:induction false} EscapeInjective(a: string, b: string)
    requires Escape(a) == Escape(b)
    ensures a == b
  {
    UnescapeInvertsEscape(a);
    UnescapeInvertsEscape(b);
  }

  lemma {:induction false} DecimalInjective(a: nat, b: nat)
    requires Decimal(a) == Decimal(b)
    ensures a == b
  {
    ParseDecimal(a);
    ParseDecimal(b);
  }

  lemma {:induction false} TokensDistinct(v: Json)
    requires DistinctKeys(v)
    ensures forall i, j :: 0 <= i < j < |Kids(v)| ==> Kids(v)[i].token != Kids(v)[j].token
    ensures forall k | 0 <= k < |Kids(v)| :: '/' !in Kids(v)[k].token
  {
    forall i, j | 0 <= i < j < |Kids(v)| ensures Kids(v)[i].token != Kids(v)[j].token {
      if v.Dict? {
        if Escape(v.fields[i].key) == Escape(v.fields[j].key) { EscapeInjective(v.fields[i].key, v.fields[j].key); }
      } else {
        if Decimal(i) == Decimal(j) { DecimalInjective(i, j); }
      }
    }
    forall k | 0 <= k < |Kids(v)| ensures '/' !in Kids(v)[k].token {
      if v.Dict? { ReplacedSlashFree(ReplaceChar(v.fields[k].key, '~', "~0")); } else { ParseDecimal(k); }
    }
  }

  lemma {:induction false} ChildOfToken(v: Json, k: nat)
    requires DistinctKeys(v) && k < |Kids(v)|
    ensures Child(v, Unescape(Kids(v)[k].token)) == Some(Kids(v)[k].value)
  {
    if v.Dict? {
      UnescapeInvertsEscape(v.fields[k].key);
      var i := FieldIndex(v.fields, v.fields[k].key);
      assert i.Some? && i.value == k;
    } else {
      ParseDecimal(k);
    }
  }

  /** A canonical path is looked up at the very node it names. */
  lemma {:induction false} WalkIsLookup(v: Json, ts: seq<string>)
    requires DistinctKeys(v) && Walk(v, ts).Some?
    ensures Lookup(v, ts) == Walk(v, ts) && DistinctKeys(Walk(v, ts).value)
    decreases |ts|
  {
    if ts == [] {
    } else {
      var k := KidIndex(Kids(v), ts[0]).value;
      ChildOfToken(v, k);
      WalkIsLookup(Kids(v)[k].value, ts[1..]);
    }
  }

  lemma {:induction false} WalkConcat(v: Json, a: seq<string>, b: seq<string>)
    ensures Walk(v, a + b) == match Walk(v, a) case None => None case Some(x) => Walk(x, b)
    decreases |a|
  {
    if a == [] {
      assert a + b == b;
    } else {
      assert (a + b)[1..] == a[1..] + b;
      match KidIndex(Kids(v), a[0])
      case None =>
      case Some(k) => WalkConcat(Kids(v)[k].value, a[1..], b);
    }
  }

  lemma {:induction false} WalkSlashFree(v: Json, ts: seq<string>)
    requires DistinctKeys(v) && Walk(v, ts).Some?
    ensures forall t | t in ts :: '/' !in t
    decreases |ts|
  {
    if ts == [] {
    } else {
      var k := KidIndex(Kids(v), ts[0]).value;
      TokensDistinct(v);
      WalkSlashFree(Kids(v)[k].value, ts[1..]);
      assert ts == [ts[0]] + ts[1..];
    }
  }

  // ---------------------------------------------------------------- selecting pieces

  function Select(ps: seq<Piece>, f: Piece -> bool): seq<Piece> {
    if ps == [] then [] else (if f(ps[0]) then [ps[0]] else []) + Select(ps[1..], f)
  }

  lemma {:induction false} AtomsConcat(canon: Json -> string, a: seq<Piece>, b: seq<Piece>)
    ensures Atoms(canon, a + b) == Atoms(canon, a) + Atoms(canon, b)
  {
    hide PieceAtoms;
    if a == [] {
      assert a + b == b;
    } else {
      AtomsConcat(canon, a[1..], b);
      assert (a + b)[0] == a[0] && (a + b)[1..] == a[1..] + b;
      Associates(PieceAtoms(canon, a[0]), Atoms(canon, a[1..]), Atoms(canon, b));
    }
  }

  lemma {:induction false} AtomsOne(canon: Json -> string, p: Piece)
    ensures Atoms(canon, [p]) == PieceAtoms(canon, p)
  {
    assert Atoms(canon, [p][1..]) == [];
  }

  lemma {:induction false} AtomsNone(canon: Json -> string)
    ensures Atoms(canon, []) == []
  {
  }

  lemma {:induction false} BagSplits(a: seq<Atom>, b: seq<Atom>, c: seq<Atom>, x: seq<Atom>, y: seq<Atom>, z: seq<Atom>)
    requires (a == b && c == []) || (a == c && b == [])
    requires multiset(x) == multiset(y) + multiset(z)
    ensures multiset(a + x) == multiset(b + y) + multiset(c + z)
  {
    if c == [] { assert c + z == z; } else { assert b + y == y; }
  }

  lemma {:induction false} SelectSplits(
      canon: Json -> string, ps: seq<Piece>, f: Piece -> bool, g: Piece -> bool, h: Piece -> bool)
    requires forall i | 0 <= i < |ps| :: f(ps[i]) == (g(ps[i]) || h(ps[i])) && !(g(ps[i]) && h(ps[i]))
    ensures multiset(Atoms(canon, Select(ps, f))) ==
      multiset(Atoms(canon, Select(ps, g))) + multiset(Atoms(canon, Select(ps, h)))
  {
    if ps == [] {
    } else {
      var rest := ps[1..];
      assert forall i | 0 <= i < |rest| :: rest[i] == ps[i + 1];
      SelectSplits(canon, rest, f, g, h);
      assert f(ps[0]) == (g(ps[0]) || h(ps[0])) && !(g(ps[0]) && h(ps[0]));
      hide Select, Atoms, PieceAtoms;
      SelectHead(canon, ps, f);
      SelectHead(canon, ps, g);
      SelectHead(canon, ps, h);
      BagSplits(if f(ps[0]) then PieceAtoms(canon, ps[0]) else [], if g(ps[0]) then PieceAtoms(canon, ps[0]) else [],
        if h(ps[0]) then PieceAtoms(canon, ps[0]) else [],
        Atoms(canon, Select(rest, f)), Atoms(canon, Select(rest, g)), Atoms(canon, Select(rest, h)));
    }
  }

  lemma {:induction false} SelectHead(canon: Json -> string, ps: seq<Piece>, f: Piece -> bool)
    requires ps != []
    ensures Atoms(canon, Select(ps, f)) ==
      (if f(ps[0]) then PieceAtoms(canon, ps[0]) else []) + Atoms(canon, Select(ps[1..], f))
  {
    AtomsConcat(canon, if f(ps[0]) then [ps[0]] else [], Select(ps[1..], f));
    AtomsOne(canon, ps[0]);
  }

  lemma {:induction false} SelectNone(ps: seq<Piece>, f: Piece -> bool)
    requires forall i | 0 <= i < |ps| :: !f(ps[i])
    ensures Select(ps, f) == []
  {
    if ps == [] {
    } else {
      SelectNone(ps[1..], f);
    }
  }

  lemma {:induction false} SelectAll(ps: seq<Piece>, f: Piece -> bool)
    requires forall i | 0 <= i < |ps| :: f(ps[i])
    ensures Select(ps, f) == ps
  {
    if ps == [] {
    } else {
      SelectAll(ps[1..], f);
    }
  }

  lemma {:induction false} SelectSame(ps: seq<Piece>, f: Piece -> bool, g: Piece -> bool)
    requires forall i | 0 <= i < |ps| :: f(ps[i]) == g(ps[i])
    ensures Select(ps, f) == Select(ps, g)
  {
    if ps == [] {
    } else {
      assert f(ps[0]) == g(ps[0]);
      assert forall i | 0 <= i < |ps[1..]| :: ps[1..][i] == ps[i + 1];
      SelectSame(ps[1..], f, g);
    }
  }

  lemma {:induction false} SelectOnly(ps: seq<Piece>, f: Piece -> bool, at: nat)
    requires at < |ps| && forall i | 0 <= i < |ps| :: f(ps[i]) <==> i == at
    ensures Select(ps, f) == [ps[at]]
  {
    assert f(ps[0]) <==> 0 == at;
    assert forall i | 0 <= i < |ps[1..]| :: ps[1..][i] == ps[i + 1];
    if at == 0 {
      SelectNone(ps[1..], f);
    } else {
      SelectOnly(ps[1..], f, at - 1);
    }
  }

  /** Pieces at or below the node that the components name. */
  function At(ts: seq<string>): Piece -> bool {
    (p: Piece) => ts <= Tokens(p.path)
  }

  // ---------------------------------------------------------------- fragments of one leaf

  predicate Inside(rs: seq<Range>, n: nat) {
    forall i | 0 <= i < |rs| :: rs[i].start < rs[i].end <= n
  }

  function RangeAtoms(path: string, text: string, rs: seq<Range>): seq<Atom>
    requires Inside(rs, |text|)
  {
    if rs == [] then []
    else TextAtoms(path, text[rs[0].start..rs[0].end], rs[0].start) + RangeAtoms(path, text, rs[1..])
  }

  lemma {:induction false} InsertInside(r: Range, rs: seq<Range>, n: nat)
    requires Inside(rs, n) && r.start < r.end <= n
    ensures Inside(InsertRange(r, rs), n)
  {
    if rs == [] {
    } else {
      InsertInside(r, rs[1..], n);
    }
  }

  lemma {:induction false} InsertAtoms(path: string, text: string, r: Range, rs: seq<Range>)
    requires Inside(rs, |text|) && r.start < r.end <= |text|
    ensures Inside(InsertRange(r, rs), |text|)
    ensures multiset(RangeAtoms(path, text, InsertRange(r, rs)))
         == multiset(TextAtoms(path, text[r.start..r.end], r.start)) + multiset(RangeAtoms(path, text, rs))
  {
    InsertInside(r, rs, |text|);
    if rs == [] || r.start < rs[0].start || (r.start == rs[0].start && r.end <= rs[0].end) {
      assert ([r] + rs)[1..] == rs;
    } else {
      InsertAtoms(path, text, r, rs[1..]);
      assert InsertRange(r, rs)[1..] == InsertRange(r, rs[1..]);
    }
  }

  lemma {:induction false} SortAtoms(path: string, text: string, rs: seq<Range>)
    requires Inside(rs, |text|)
    ensures Inside(SortRanges(rs), |text|)
    ensures multiset(RangeAtoms(path, text, SortRanges(rs))) == multiset(RangeAtoms(path, text, rs))
  {
    if rs == [] {
    } else {
      SortAtoms(path, text, rs[1..]);
      InsertAtoms(path, text, rs[0], SortRanges(rs[1..]));
    }
  }

  lemma {:induction false} TextAtomsConcat(path: string, text: string, a: nat, b: nat)
    requires a <= b <= |text|
    ensures TextAtoms(path, text[a..], a) == TextAtoms(path, text[a..b], a) + TextAtoms(path, text[b..], b)
  {
  }

  /** Ranges that lie apart, and the gaps between them, hold the whole text. */
  lemma {:induction false} GapsFill(canon: Json -> string, path: string, v: Json, rs: seq<Range>, cursor: nat)
    requires Inside(rs, |canon(v)|) && Apart(rs, cursor) && cursor <= |canon(v)|
    ensures multiset(RangeAtoms(path, canon(v), rs)) + multiset(Atoms(canon, Gaps(canon, path, v, rs, cursor)))
         == multiset(TextAtoms(path, canon(v)[cursor..], cursor))
  {
    var text := canon(v);
    hide Atoms, TextAtoms;
    if rs == [] {
      if cursor < |text| {
        assert text[cursor..] == text[cursor..|text|];
        AtomsOne(canon, FragmentOf(canon, path, v, cursor, |text|));
      }
      AtomsNone(canon);
      assert cursor == |text| ==> TextAtoms(path, text[cursor..], cursor) == [];
    } else {
      var s, e := rs[0].start, rs[0].end;
      var gap := if cursor < s then [FragmentOf(canon, path, v, cursor, s)] else [];
      GapsFill(canon, path, v, rs[1..], e);
      AtomsConcat(canon, gap, Gaps(canon, path, v, rs[1..], e));
      AtomsNone(canon);
      if cursor < s { AtomsOne(canon, gap[0]); }
      assert Atoms(canon, gap) == TextAtoms(path, text[cursor..s], cursor);
      hide Apart, FragmentOf, InsertRange;
      TextAtomsConcat(path, text, cursor, s);
      TextAtomsConcat(path, text, s, e);
    }
  }

  /** The fragments at a leaf hold exactly the characters of their ranges. */
  lemma {:induction false} FragmentAtoms(canon: Json -> string, covered: seq<Piece>, path: string, v: Json)
    requires forall i | 0 <= i < |covered| && covered[i].path == path ::
      covered[i].Fragment? && covered[i].start < covered[i].end <= |canon(v)|
      && covered[i] == FragmentOf(canon, path, v, covered[i].start, covered[i].end)
    ensures Inside(RangesAt(covered, path), |canon(v)|)
    ensures Atoms(canon, Select(covered, (p: Piece) => p.path == path)) ==
      RangeAtoms(path, canon(v), RangesAt(covered, path))
  {
    if covered == [] {
    } else {
      var rest := covered[1..];
      assert forall i | 0 <= i < |rest| :: rest[i] == covered[i + 1];
      FragmentAtoms(canon, rest, path, v);
      SelectHead(canon, covered, (p: Piece) => p.path == path);
      if covered[0].path == path {
        var r := Range(covered[0].start, covered[0].end);
        assert RangesAt(covered, path) == [r] + RangesAt(rest, path);
        assert ([r] + RangesAt(rest, path))[1..] == RangesAt(rest, path);
      }
    }
  }

  // ---------------------------------------------------------------- the subtraction

  /** The setting of the recursion: an accepted, well-named coverage and a node of the tree. */
  ghost predicate Node(canon: Json -> string, root: Json, covered: seq<Piece>, ts: seq<string>, path: string, v: Json) {
    && DistinctKeys(root) && Acceptable(canon, root, covered) && AllGood(root, covered)
    && Walk(root, ts) == Some(v) && path == Join(ts)
  }

  lemma {:induction false} NodeFacts(
      canon: Json -> string, root: Json, covered: seq<Piece>, ts: seq<string>, path: string, v: Json)
    requires Node(canon, root, covered, ts, path, v)
    ensures PathShape(path) && Tokens(path) == ts && DistinctKeys(v) && Lookup(root, ts) == Some(v)
    ensures forall i | 0 <= i < |covered| ::
      && (covered[i].path == path <==> Tokens(covered[i].path) == ts)
      && (StartsWith(covered[i].path, path + "/") <==> ts < Tokens(covered[i].path))
  {
    WalkSlashFree(root, ts);
    TokensJoin(ts);
    WalkIsLookup(root, ts);
    hide Walk, Lookup, Tokens, DistinctKeys, Join;
    forall i | 0 <= i < |covered|
      ensures (covered[i].path == path <==> Tokens(covered[i].path) == ts)
      ensures (StartsWith(covered[i].path, path + "/") <==> ts < Tokens(covered[i].path))
    {
      assert Good(root, covered[i]);
      BelowIsPrefix(covered[i].path, path);
    }
  }

  lemma {:induction false} OpenNode(
      canon: Json -> string, root: Json, covered: seq<Piece>, ts: seq<string>, path: string, v: Json)
    ensures Node(canon, root, covered, ts, path, v) <==>
      DistinctKeys(root) && Acceptable(canon, root, covered) && AllGood(root, covered)
      && Walk(root, ts) == Some(v) && path == Join(ts)
  {
    hide DistinctKeys, Acceptable, AllGood, Walk, Join;
  }

  /** One step down the tree, in components and in text. */
  lemma {:induction false} StepDown(root: Json, ts: seq<string>, v: Json, k: nat)
    requires Walk(root, ts) == Some(v) && DistinctKeys(v) && k < |Kids(v)|
    ensures Walk(root, ts + [Kids(v)[k].token]) == Some(Kids(v)[k].value)
    ensures Join(ts + [Kids(v)[k].token]) == Join(ts) + "/" + Kids(v)[k].token
  {
    hide *;
    var token := Kids(v)[k].token;
    WalkConcat(root, ts, [token]);
    WalkKid(v, k);
    JoinConcat(ts, [token]);
    JoinOne(token, []);
    JoinNothing();
    assert "/" + token + "" == "/" + token;
    Associates(Join(ts), "/", token);
  }

  lemma {:induction false} JoinNothing()
    ensures Join([]) == ""
  {
  }

  lemma {:induction false} KidNode(
    canon: Json -> string, root: Json, covered: seq<Piece>, ts: seq<string>, path: string, v: Json, k: nat)
    requires Node(canon, root, covered, ts, path, v) && k < |Kids(v)|
    ensures Node(canon, root, covered, ts + [Kids(v)[k].token], path + "/" + Kids(v)[k].token, Kids(v)[k].value)
  {
    hide *;
    OpenNode(canon, root, covered, ts, path, v);
    NodeFacts(canon, root, covered, ts, path, v);
    StepDown(root, ts, v, k);
    OpenNode(canon, root, covered, ts + [Kids(v)[k].token], path + "/" + Kids(v)[k].token, Kids(v)[k].value);
  }

  lemma {:induction false} WalkKid(v: Json, k: nat)
    requires DistinctKeys(v) && k < |Kids(v)|
    ensures Walk(v, [Kids(v)[k].token]) == Some(Kids(v)[k].value)
  {
    var token := Kids(v)[k].token;
    TokensDistinct(v);
    hide DistinctKeys, Kids;
    assert KidIndex(Kids(v), token) == Some(k);
    assert [token][1..] == [];
  }

  lemma {:induction false} WholeNode(
    canon: Json -> string, root: Json, covered: seq<Piece>, ts: seq<string>, path: string, v: Json)
    requires Node(canon, root, covered, ts, path, v) && WholeAt(covered, path)
    ensures Select(covered, At(ts)) == [Whole(path, v)]
  {
    NodeFacts(canon, root, covered, ts, path, v);
    hide Walk, Lookup, Tokens, DistinctKeys, Join, Kids;
    var at :| 0 <= at < |covered| && covered[at].path == path && covered[at].Whole?;
    assert Exact(canon, root, covered[at]);
    assert forall i | 0 <= i < |covered| :: !StartsWith(covered[i].path, covered[at].path + "/");
    assert forall i | 0 <= i < |covered| && i != at :: covered[at].path != covered[i].path;
    SelectOnly(covered, At(ts), at);
  }

  lemma {:induction false} FragmentNode(
    canon: Json -> string, root: Json, covered: seq<Piece>, ts: seq<string>, path: string, v: Json)
    requires Node(canon, root, covered, ts, path, v) && CoveredAt(covered, path) && !WholeAt(covered, path)
    ensures Leaf(v)
    ensures multiset(Atoms(canon, Select(covered, At(ts))))
          + multiset(Atoms(canon, Gaps(canon, path, v, SortRanges(RangesAt(covered, path)), 0)))
         == multiset(ValueAtoms(canon, path, v))
  {
    NodeFacts(canon, root, covered, ts, path, v);
    hide Lookup, Tokens, DistinctKeys, Join, Kids;
    var at :| 0 <= at < |covered| && covered[at].path == path;
    assert Good(root, covered[at]) && covered[at].Fragment?;
    forall i | 0 <= i < |covered| ensures At(ts)(covered[i]) == (covered[i].path == path) {
      assert !StartsWith(covered[i].path, covered[at].path + "/");
    }
    forall i | 0 <= i < |covered| && covered[i].path == path
      ensures covered[i].Fragment? && covered[i].start < covered[i].end <= |canon(v)|
      ensures covered[i] == FragmentOf(canon, path, v, covered[i].start, covered[i].end)
    {
      assert Exact(canon, root, covered[i]);
    }
    assert Apart(SortRanges(RangesAt(covered, path)), 0);
    hide Walk, Acceptable, Exact;
    SelectSame(covered, At(ts), (p: Piece) => p.path == path);
    FragmentAtoms(canon, covered, path, v);
    SortAtoms(path, canon(v), RangesAt(covered, path));
    GapsFill(canon, path, v, SortRanges(RangesAt(covered, path)), 0);
    assert canon(v)[0..] == canon(v);
  }

  /** Pieces at or below one of the children from index `k` on. */
  function AtKids(ts: seq<string>, ks: seq<Kid>, k: nat): Piece -> bool {
    (p: Piece) => exists j :: k <= j < |ks| && ts + [ks[j].token] <= Tokens(p.path)
  }

  ghost predicate UnderKids(ts: seq<string>, ks: seq<Kid>, k: nat, tp: seq<string>) {
    exists j :: k <= j < |ks| && ts + [ks[j].token] <= tp
  }

  /** A path lies under one child or under a later one, never both. */
  lemma {:induction false} UnderOneKid(ts: seq<string>, ks: seq<Kid>, k: nat, tp: seq<string>)
    requires k < |ks| && forall i, j :: 0 <= i < j < |ks| ==> ks[i].token != ks[j].token
    ensures UnderKids(ts, ks, k, tp) == (ts + [ks[k].token] <= tp || UnderKids(ts, ks, k + 1, tp))
    ensures !(ts + [ks[k].token] <= tp && UnderKids(ts, ks, k + 1, tp))
  {
    forall j | 0 <= j < |ks| && ts + [ks[j].token] <= tp ensures |ts| < |tp| && tp[|ts|] == ks[j].token {
      assert (ts + [ks[j].token])[|ts|] == ks[j].token;
    }
  }

  lemma {:induction false} KidsApart(
    canon: Json -> string, covered: seq<Piece>, ts: seq<string>, v: Json, k: nat)
    requires DistinctKeys(v) && k < |Kids(v)|
    ensures multiset(Atoms(canon, Select(covered, AtKids(ts, Kids(v), k))))
         == multiset(Atoms(canon, Select(covered, At(ts + [Kids(v)[k].token]))))
          + multiset(Atoms(canon, Select(covered, AtKids(ts, Kids(v), k + 1))))
  {
    TokensDistinct(v);
    var ks := Kids(v);
    hide Tokens, DistinctKeys, Kids, Atoms, PieceAtoms, Select, UnderKids;
    var f, g, h := AtKids(ts, ks, k), At(ts + [ks[k].token]), AtKids(ts, ks, k + 1);
    forall i | 0 <= i < |covered|
      ensures f(covered[i]) == (g(covered[i]) || h(covered[i])) && !(g(covered[i]) && h(covered[i]))
    {
      UnderOneKid(ts, ks, k, Tokens(covered[i].path));
      AtKidsIs(ts, ks, k, covered[i]);
      AtKidsIs(ts, ks, k + 1, covered[i]);
    }
    SelectSplits(canon, covered, f, g, h);
  }

  lemma {:induction false} AtKidsIs(ts: seq<string>, ks: seq<Kid>, k: nat, p: Piece)
    ensures AtKids(ts, ks, k)(p) == UnderKids(ts, ks, k, Tokens(p.path))
  {
    hide Tokens;
  }

  lemma {:induction false} WalkFirst(v: Json, rest: seq<string>) returns (j: nat)
    requires rest != [] && Walk(v, rest).Some?
    ensures j < |Kids(v)| && Kids(v)[j].token == rest[0]
  {
    hide Kids;
    j := KidIndex(Kids(v), rest[0]).value;
  }

  /** A node strictly below another lies under one of its children. */
  lemma {:induction false} BelowUnderKids(root: Json, ts: seq<string>, v: Json, tp: seq<string>)
    requires Walk(root, ts) == Some(v) && Walk(root, tp).Some? && ts != tp
    ensures ts <= tp <==> UnderKids(ts, Kids(v), 0, tp)
  {
    hide Walk, Kids;
    if ts <= tp {
      var rest := tp[|ts|..];
      assert tp == ts + rest;
      WalkConcat(root, ts, rest);
      var j := WalkFirst(v, rest);
      assert ts + [Kids(v)[j].token] <= tp;
    }
    if UnderKids(ts, Kids(v), 0, tp) {
      var j :| 0 <= j < |Kids(v)| && ts + [Kids(v)[j].token] <= tp;
      assert ts <= ts + [Kids(v)[j].token];
    }
  }

  lemma {:induction false} GoodWalks(root: Json, covered: seq<Piece>, i: nat)
    requires AllGood(root, covered) && i < |covered|
    ensures Walk(root, Tokens(covered[i].path)).Some?
  {
    hide Walk, Tokens;
    assert Good(root, covered[i]);
  }

  lemma {:induction false} BelowIsAtKids(
    canon: Json -> string, root: Json, covered: seq<Piece>, ts: seq<string>, path: string, v: Json)
    requires Node(canon, root, covered, ts, path, v) && !CoveredAt(covered, path)
    ensures Select(covered, At(ts)) == Select(covered, AtKids(ts, Kids(v), 0))
  {
    NodeFacts(canon, root, covered, ts, path, v);
    OpenNode(canon, root, covered, ts, path, v);
    hide Node, Lookup, Tokens, DistinctKeys, Join, Kids, Acceptable, AllGood, Walk, SplitSlash, PathShape, UnderKids,
      AtKids, Select;
    var f, g := At(ts), AtKids(ts, Kids(v), 0);
    forall i | 0 <= i < |covered| ensures f(covered[i]) == g(covered[i]) {
      GoodWalks(root, covered, i);
      AtKidsIs(ts, Kids(v), 0, covered[i]);
      BelowUnderKids(root, ts, v, Tokens(covered[i].path));
    }
    SelectSame(covered, f, g);
  }

  /** At every node, the pieces below it and what remains of it hold exactly its characters. */
  lemma {:induction false} NodeExact(
    canon: Json -> string, root: Json, covered: seq<Piece>, ts: seq<string>, path: string, v: Json)
    requires Node(canon, root, covered, ts, path, v)
    ensures multiset(Atoms(canon, Select(covered, At(ts)))) +
      multiset(Atoms(canon, RemainingAt(canon, covered, path, v)))
         == multiset(ValueAtoms(canon, path, v))
    decreases v, 1, 0
  {
    if CoveredAt(covered, path) {
      if WholeAt(covered, path) {
        WholeNode(canon, root, covered, ts, path, v);
        AtomsOne(canon, Whole(path, v));
      } else {
        FragmentNode(canon, root, covered, ts, path, v);
      }
    } else if !CoveredBelow(covered, path) {
      NodeFacts(canon, root, covered, ts, path, v);
      SelectNone(covered, At(ts));
      AtomsOne(canon, Whole(path, v));
    } else {
      BelowIsAtKids(canon, root, covered, ts, path, v);
      BelowNotLeaf(canon, root, covered, ts, path, v);
      NodeKidsExact(canon, root, covered, ts, path, v, 0);
    }
  }

  lemma {:induction false} BelowNotLeaf(
    canon: Json -> string, root: Json, covered: seq<Piece>, ts: seq<string>, path: string, v: Json)
    requires Node(canon, root, covered, ts, path, v) && CoveredBelow(covered, path)
    ensures !Leaf(v)
  {
    NodeFacts(canon, root, covered, ts, path, v);
    hide Lookup, Tokens, DistinctKeys, Join, Kids, Acceptable;
    var i :| 0 <= i < |covered| && StartsWith(covered[i].path, path + "/");
    var tp := Tokens(covered[i].path);
    assert Good(root, covered[i]) && tp == ts + tp[|ts|..];
    WalkConcat(root, ts, tp[|ts|..]);
  }

  lemma {:induction false} NodeKidsExact(
    canon: Json -> string, root: Json, covered: seq<Piece>, ts: seq<string>, path: string, v: Json, k: nat)
    requires Node(canon, root, covered, ts, path, v) && k <= |Kids(v)|
    ensures multiset(Atoms(canon, Select(covered, AtKids(ts, Kids(v), k))))
          + multiset(Atoms(canon, RemainingKids(canon, covered, path, v, k)))
         == multiset(KidAtoms(canon, path, v, k))
    decreases v, 0, |Kids(v)| - k
  {
    if k == |Kids(v)| {
      SelectNone(covered, AtKids(ts, Kids(v), k));
    } else {
      var kid := Kids(v)[k];
      KidsUnfold(canon, covered, path, v, k);
      hide *;
      KidNode(canon, root, covered, ts, path, v, k);
      NodeFacts(canon, root, covered, ts, path, v);
      NodeExact(canon, root, covered, ts + [kid.token], path + "/" + kid.token, kid.value);
      NodeKidsExact(canon, root, covered, ts, path, v, k + 1);
      KidsApart(canon, covered, ts, v, k);
      AtomsConcat(canon, RemainingAt(canon, covered, path + "/" + kid.token, kid.value),
                  RemainingKids(canon, covered, path, v, k + 1));
    }
  }

  lemma {:induction false} KidsUnfold(canon: Json -> string, covered: seq<Piece>, path: string, v: Json, k: nat)
    requires k < |Kids(v)|
    ensures var kid := Kids(v)[k];
      && RemainingKids(canon, covered, path, v, k)
           == RemainingAt(canon, covered, path + "/" + kid.token, kid.value) +
             RemainingKids(canon, covered, path, v, k + 1)
      && KidAtoms(canon, path, v, k) ==
        ValueAtoms(canon, path + "/" + kid.token, kid.value) + KidAtoms(canon, path, v, k + 1)
  {
    hide RemainingAt, ValueAtoms, Kids;
  }

  /**
   * For accepted coverage whose pieces are named as splitting names them, covered and remaining pieces
   * together hold every character of every leaf exactly once.
   */
  lemma {:induction false} CoveredPlusRemaining(canon: Json -> string, root: Json, covered: seq<Piece>, rem: seq<Piece>)
    requires DistinctKeys(root) && Remaining(canon, root, covered) == Some(rem) && AllGood(root, covered)
    ensures multiset(Atoms(canon, covered)) + multiset(Atoms(canon, rem)) == multiset(ValueAtoms(canon, "", root))
  {
    assert Node(canon, root, covered, [], "", root);
    hide Node, Acceptable, RemainingAt;
    NodeExact(canon, root, covered, [], "", root);
    SelectAll(covered, At([]));
  }
}
