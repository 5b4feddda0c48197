/** Path-addressed pieces of a JSON value: splitting them, and computing what is still uncovered. */
module Coverage {
  import opened Common
  import opened Paths

  /** A JSON value. A scalar is its canonical text; an object keeps its keys in insertion order. */
  datatype Json = Scalar(text: string) | List(items: seq<Json>) | Dict(fields: seq<Entry>)
  datatype Entry = Entry(key: string, value: Json)

  /** A child of a container with the path component that names it. */
  datatype Kid = Kid(token: string, value: Json)

  function Kids(v: Json): (ks: seq<Kid>)
    ensures forall k | 0 <= k < |ks| :: ks[k].value < v
  {
    match v
    case Scalar(_) => []
    case List(items) => seq(|items|, k requires 0 <= k < |items| => Kid(Decimal(k), items[k]))
    case Dict(fields) => seq(|fields|, k requires 0 <= k < |fields| => Kid(Escape(fields[k].key), fields[k].value))
  }

  /** The keys of every object are distinct. */
  predicate DistinctKeys(v: Json)
    decreases v
  {
    && (v.Dict? ==> forall i, j :: 0 <= i < j < |v.fields| ==> v.fields[i].key != v.fields[j].key)
    && forall k | 0 <= k < |Kids(v)| :: DistinctKeys(Kids(v)[k].value)
  }

  predicate Leaf(v: Json) {
    Kids(v) == []
  }

  // ---------------------------------------------------------------- looking a component up

  function FieldIndex(fields: seq<Entry>, key: string): (r: Option<nat>)
    ensures r.Some? ==> r.value < |fields| && fields[r.value].key == key
    ensures r.None? ==> forall i | 0 <= i < |fields| :: fields[i].key != key
  {
    FirstWhere(fields, (e: Entry) => e.key == key)
  }

  /** One step down: a list reads its component as an integer, where a negative one counts from the end. */
  function Child(v: Json, key: string): Option<Json> {
    match v
    case Scalar(_) => None
    case List(items) =>
      (match ParseInt(key)
       case None => None
       case Some(n) =>
         if 0 <= n < |items| then Some(items[n])
         else if -|items| <= n < 0 then Some(items[|items| + n])
         else None)
    case Dict(fields) =>
      (match FieldIndex(fields, key)
       case None => None
       case Some(i) => Some(fields[i].value))
  }

  function Lookup(v: Json, tokens: seq<string>): Option<Json> {
    if tokens == [] then Some(v) else
      match Child(v, Unescape(tokens[0]))
      case None => None
      case Some(child) => Lookup(child, tokens[1..])
  }

  // ---------------------------------------------------------------- pieces

  /** A supplied source record: a whole value at a path, or a stretch of its canonical text. */
  datatype Piece =
    | Whole(path: string, value: Json)
    | Fragment(path: string, text: string, start: nat, end: nat, source: Json)

  function KidPieces(path: string, kids: seq<Kid>): seq<Piece> {
    if kids == [] then [] else [Whole(path + "/" + kids[0].token, kids[0].value)] + KidPieces(path, kids[1..])
  }

  /** One split: a container into its children, text into two halves; text shorter than two is refused. */
  function Split(canon: Json -> string, p: Piece): Option<seq<Piece>> {
    if p.Whole? && !Leaf(p.value) then Some(KidPieces(p.path, Kids(p.value)))
    else
      var text, start, source :=
        if p.Whole? then canon(p.value) else p.text, if p.Whole? then 0 else p.start,
        if p.Whole? then p.value else p.source;
      if |text| < 2 then None
      else
        var middle := |text| / 2;
        Some([Fragment(p.path, text[..middle], start, start + middle, source),
              Fragment(p.path, text[middle..], start + middle, start + |text|, source)])
  }

  // ---------------------------------------------------------------- ranges

  datatype Range = Range(start: nat, end: nat)

  function InsertRange(r: Range, rs: seq<Range>): seq<Range> {
    if rs == [] then [r]
    else if r.start < rs[0].start || (r.start == rs[0].start && r.end <= rs[0].end) then [r] + rs
    else [rs[0]] + InsertRange(r, rs[1..])
  }

  function SortRanges(rs: seq<Range>): seq<Range> {
    if rs == [] then [] else InsertRange(rs[0], SortRanges(rs[1..]))
  }

  /** Taken in order, no range starts before the previous one has ended. */
  predicate Apart(rs: seq<Range>, cursor: nat) {
    rs == [] || (cursor <= rs[0].start && Apart(rs[1..], rs[0].end))
  }

  /** The fragments of `covered` at `path`. */
  function RangesAt(covered: seq<Piece>, path: string): seq<Range> {
    if covered == [] then []
    else if covered[0].Fragment? && covered[0].path == path
    then [Range(covered[0].start, covered[0].end)] + RangesAt(covered[1..], path)
    else RangesAt(covered[1..], path)
  }

  // ---------------------------------------------------------------- accepting coverage

  function FragmentOf(canon: Json -> string, path: string, v: Json, start: nat, end: nat): Piece
    requires start <= end <= |canon(v)|
  {
    Fragment(path, canon(v)[start..end], start, end, v)
  }

  /** The piece is exactly what the source has at its path. */
  predicate Exact(canon: Json -> string, root: Json, p: Piece) {
    && PathShape(p.path)
    && match Lookup(root, Tokens(p.path))
       case None => false
       case Some(v) =>
         if p.Whole? then p.value == v
         else p.start < p.end <= |canon(v)| && p == FragmentOf(canon, p.path, v, p.start, p.end)
  }

  predicate Acceptable(canon: Json -> string, root: Json, covered: seq<Piece>) {
    && (forall i | 0 <= i < |covered| :: Exact(canon, root, covered[i]))
    && (forall i, j | 0 <= i < |covered| && 0 <= j < |covered| && i != j && covered[i].Whole? ::
          covered[i].path != covered[j].path)
    && (forall i, j | 0 <= i < |covered| && 0 <= j < |covered| :: !StartsWith(covered[j].path, covered[i].path + "/"))
    && (forall i | 0 <= i < |covered| :: Apart(SortRanges(RangesAt(covered, covered[i].path)), 0))
  }

  // ---------------------------------------------------------------- what remains

  predicate CoveredAt(covered: seq<Piece>, path: string) {
    exists i :: 0 <= i < |covered| && covered[i].path == path
  }

  predicate WholeAt(covered: seq<Piece>, path: string) {
    exists i :: 0 <= i < |covered| && covered[i].path == path && covered[i].Whole?
  }

  predicate CoveredBelow(covered: seq<Piece>, path: string) {
    exists i :: 0 <= i < |covered| && StartsWith(covered[i].path, path + "/")
  }

  /** The stretches of `text` between the sorted ranges, from `cursor` to the end. */
  function Gaps(canon: Json -> string, path: string, v: Json, rs: seq<Range>, cursor: nat): seq<Piece> {
    if rs == [] then
      if cursor < |canon(v)| then [FragmentOf(canon, path, v, cursor, |canon(v)|)] else []
    else
      (if cursor < rs[0].start <= |canon(v)| then [FragmentOf(canon, path, v, cursor, rs[0].start)] else [])
      + Gaps(canon, path, v, rs[1..], rs[0].end)
  }

  function RemainingAt(canon: Json -> string, covered: seq<Piece>, path: string, v: Json): seq<Piece>
    decreases v, 1, 0
  {
    if CoveredAt(covered, path) then
      if WholeAt(covered, path) then [] else Gaps(canon, path, v, SortRanges(RangesAt(covered, path)), 0)
    else if !CoveredBelow(covered, path) then [Whole(path, v)]
    else RemainingKids(canon, covered, path, v, 0)
  }

  function RemainingKids(canon: Json -> string, covered: seq<Piece>, path: string, v: Json, k: nat): seq<Piece>
    requires k <= |Kids(v)|
    decreases v, 0, |Kids(v)| - k
  {
    if k == |Kids(v)| then [] else
      RemainingAt(canon, covered, path + "/" + Kids(v)[k].token, Kids(v)[k].value) +
        RemainingKids(canon, covered, path, v, k + 1)
  }

  /** `_remaining_review_records`: the uncovered pieces, or `None` where the code raises. */
  function Remaining(canon: Json -> string, root: Json, covered: seq<Piece>): Option<seq<Piece>> {
    if Acceptable(canon, root, covered) then Some(RemainingAt(canon, covered, "", root)) else None
  }

  // ---------------------------------------------------------------- the characters a piece holds

  /** One character of one leaf's canonical text, under the path of the piece that holds it. */
  datatype Atom = Atom(path: string, index: nat, ch: char)

  function TextAtoms(path: string, text: string, start: nat): (atoms: seq<Atom>)
    ensures |atoms| == |text| && forall i | 0 <= i < |text| :: atoms[i] == Atom(path, start + i, text[i])
  {
    if text == "" then [] else [Atom(path, start, text[0])] + TextAtoms(path, text[1..], start + 1)
  }

  /** Every character of every leaf of `v`, in order. */
  function ValueAtoms(canon: Json -> string, path: string, v: Json): seq<Atom>
    decreases v, 1, 0
  {
    if Leaf(v) then TextAtoms(path, canon(v), 0) else KidAtoms(canon, path, v, 0)
  }

  function KidAtoms(canon: Json -> string, path: string, v: Json, k: nat): seq<Atom>
    requires k <= |Kids(v)|
    decreases v, 0, |Kids(v)| - k
  {
    if k == |Kids(v)| then [] else
      ValueAtoms(canon, path + "/" + Kids(v)[k].token, Kids(v)[k].value) + KidAtoms(canon, path, v, k + 1)
  }

  function PieceAtoms(canon: Json -> string, p: Piece): seq<Atom> {
    match p
    case Whole(path, v) => ValueAtoms(canon, path, v)
    case Fragment(path, text, start, _, _) => TextAtoms(path, text, start)
  }

  function Atoms(canon: Json -> string, ps: seq<Piece>): seq<Atom> {
    if ps == [] then [] else PieceAtoms(canon, ps[0]) + Atoms(canon, ps[1..])
  }
}
