/** Vocabulary shared by every component: optional values, results, identifiers and ordered keys. */
module Common {

  datatype Option<+T> = None | Some(value: T)

  /** The outcome of an operation that may refuse. It propagates with `:-`. */
  datatype Result<+T, +E> = Ok(value: T) | Err(error: E) {
    predicate IsFailure() { Err? }

    function PropagateFailure<U>(): Result<U, E>
      requires Err?
    {
      Err(error)
    }

    function Extract(): T
      requires Ok?
    {
      value
    }
  }

  /** Refuses with `error` unless `condition` holds. */
  function Need<E>(condition: bool, error: E): Result<(), E> {
    if condition then Ok(()) else Err(error)
  }

  predicate Distinct<T(==)>(s: seq<T>) {
    forall i, j :: 0 <= i < j < |s| ==> s[i] != s[j]
  }

  /** `_ids_exact`: no identity twice, and the same identities as expected. */
  predicate IdsExact<T(==)>(actual: seq<T>, expected: seq<T>) {
    Distinct(actual) && multiset(actual) == multiset(expected)
  }

  /** The first place where `f` holds. */
  function FirstWhere<T>(s: seq<T>, f: T -> bool): (r: Option<nat>)
    ensures r.Some? ==> r.value < |s| && f(s[r.value]) && forall i | 0 <= i < r.value :: !f(s[i])
    ensures r.None? ==> forall i | 0 <= i < |s| :: !f(s[i])
  {
    if s == [] then None
    else if f(s[0]) then Some(0)
    else
      match FirstWhere(s[1..], f)
      case None =>
        assert forall i | 1 <= i < |s| :: s[i] == s[1..][i - 1];
        None
      case Some(i) =>
        assert forall k | 1 <= k <= i :: s[k] == s[1..][k - 1];
        Some(1 + i)
  }

  function Elements<T>(s: seq<T>): set<T> {
    set x | x in s
  }

  function Flatten<T>(parts: seq<seq<T>>): seq<T> {
    if parts == [] then [] else parts[0] + Flatten(parts[1..])
  }

  lemma {:induction false} Associates<T>(a: seq<T>, b: seq<T>, c: seq<T>)
    ensures a + (b + c) == (a + b) + c
  {
  }

  lemma {:induction false} FlattenHead<T>(part: seq<T>, rest: seq<seq<T>>)
    ensures Flatten([part] + rest) == part + Flatten(rest)
  {
  }

  lemma {:induction false} FlattenConcat<T>(a: seq<seq<T>>, b: seq<seq<T>>)
    ensures Flatten(a + b) == Flatten(a) + Flatten(b)
  {
    if a == [] {
      assert a + b == b;
    } else {
      FlattenConcat(a[1..], b);
      assert (a + b)[0] == a[0] && (a + b)[1..] == a[1..] + b;
      Associates(a[0], Flatten(a[1..]), Flatten(b));
    }
  }

  lemma {:induction false} FlattenOneMore<T>(parts: seq<seq<T>>, part: seq<T>)
    ensures Flatten(parts + [part]) == Flatten(parts) + part
  {
    FlattenConcat(parts, [part]);
    assert Flatten([part]) == part + Flatten([part][1..]);
  }

  lemma {:induction false} FlattenNext<T>(parts: seq<seq<T>>, i: nat)
    requires i < |parts|
    ensures Flatten(parts[..i + 1]) == Flatten(parts[..i]) + parts[i]
  {
    assert parts[..i + 1] == parts[..i] + [parts[i]];
    FlattenOneMore(parts[..i], parts[i]);
  }

  // ---------------------------------------------------------------- bags and sets

  lemma {:induction false} OnceByBag<T(!new)>(s: seq<T>)
    ensures Distinct(s) <==> forall x | x in s :: multiset(s)[x] <= 1
  {
    if s == [] {
    } else {
      var front, last := s[..|s| - 1], s[|s| - 1];
      assert s == front + [last];
      OnceByBag(front);
      forall x ensures multiset(s)[x] == multiset(front)[x] + if x == last then 1 else 0 {}
      if Distinct(s) {
        assert last !in front;
        assert Distinct(front);
      } else if Distinct(front) {
        var i :| 0 <= i < |front| && s[i] == last;
        assert last in multiset(front);
      } else {
        var x :| x in front && multiset(front)[x] > 1;
        assert x in s;
      }
    }
  }

  lemma {:induction false} DistinctByBag<T(!new)>(s: seq<T>, t: seq<T>)
    requires Distinct(s) && multiset(s) == multiset(t)
    ensures Distinct(t)
  {
    OnceByBag(s);
    OnceByBag(t);
    assert forall x | x in t :: x in multiset(s);
  }

  lemma {:induction false} SameSetSameBag<T(!new)>(a: seq<T>, b: seq<T>)
    requires Distinct(a) && Distinct(b) && Elements(a) == Elements(b)
    ensures multiset(a) == multiset(b)
  {
    OnceByBag(a);
    OnceByBag(b);
    forall x ensures multiset(a)[x] == multiset(b)[x] {
      assert x in a <==> x in Elements(a);
      assert x in b <==> x in Elements(b);
      assert x in multiset(a) <==> x in a;
      assert x in multiset(b) <==> x in b;
    }
  }

  lemma {:induction false} SameBagSameSet<T(!new)>(a: seq<T>, b: seq<T>)
    requires multiset(a) == multiset(b)
    ensures Elements(a) == Elements(b)
  {
    forall x ensures x in a <==> x in b {
      assert x in a <==> x in multiset(a);
      assert x in b <==> x in multiset(b);
    }
  }

  lemma {:induction false} ElementsConcat<T(!new)>(a: seq<T>, b: seq<T>)
    ensures Elements(a + b) == Elements(a) + Elements(b)
  {
  }

  // ---------------------------------------------------------------- identifiers

  predicate IsAlnum(c: char) {
    'A' <= c <= 'Z' || 'a' <= c <= 'z' || '0' <= c <= '9'
  }

  /** An identifier: one alphanumeric character, then up to 255 alphanumerics or `._:-`. */
  predicate SafeId(s: string) {
    && 1 <= |s| <= 256
    && IsAlnum(s[0])
    && forall i :: 1 <= i < |s| ==> IsAlnum(s[i]) || s[i] in ['.', '_', ':', '-']
  }

  predicate IsSpace(c: char) {
    c in [' ', '\t', '\n', '\r', 11 as char, 12 as char, 28 as char, 29 as char, 30 as char, 31 as char]
  }

  /** Nothing would be left after stripping white space. */
  predicate Blank(s: string) {
    forall i :: 0 <= i < |s| ==> IsSpace(s[i])
  }

  function TrimLeft(s: string): (t: string)
    ensures |t| <= |s| && (t != "" ==> !IsSpace(t[0])) && (t == "" <==> Blank(s))
  {
    if s == "" then s
    else if IsSpace(s[0]) then
      assert s == [s[0]] + s[1..];
      TrimLeft(s[1..])
    else s
  }

  function TrimRight(s: string): (t: string)
    ensures t <= s && (t != "" ==> !IsSpace(t[|t| - 1])) && (s != "" && !IsSpace(s[0]) ==> t != "")
  {
    if s != "" && IsSpace(s[|s| - 1]) then TrimRight(s[..|s| - 1]) else s
  }

  /** `str.strip`: no white space at either end, and nothing only of blank text. */
  function Strip(s: string): (t: string)
    ensures |t| <= |s| && (t == "" <==> Blank(s))
    ensures t != "" ==> !IsSpace(t[0]) && !IsSpace(t[|t| - 1])
  {
    TrimRight(TrimLeft(s))
  }

  /** Stripping takes white space from the two ends and nothing else. */
  lemma {:induction false} StripKeepsText(s: string) returns (i: nat, j: nat)
    ensures i <= j <= |s| && Strip(s) == s[i..j] && Blank(s[..i]) && Blank(s[j..])
  {
    var left := TrimLeft(s);
    i := TrimLeftCuts(s);
    j := TrimRightCuts(left);
    j := j + i;
    assert s[j..] == left[j - i..] && left[..j - i] == s[i..j];
  }

  lemma {:induction false} TrimLeftCuts(s: string) returns (i: nat)
    ensures i <= |s| && TrimLeft(s) == s[i..] && Blank(s[..i])
  {
    if s == "" || !IsSpace(s[0]) {
      i := 0;
    } else {
      i := TrimLeftCuts(s[1..]);
      i := i + 1;
      assert s[..i] == [s[0]] + s[1..][..i - 1];
    }
  }

  lemma {:induction false} TrimRightCuts(s: string) returns (j: nat)
    ensures j <= |s| && TrimRight(s) == s[..j] && Blank(s[j..])
  {
    if s == "" || !IsSpace(s[|s| - 1]) {
      j := |s|;
    } else {
      var front := s[..|s| - 1];
      j := TrimRightCuts(front);
      assert s[j..] == front[j..] + [s[|s| - 1]] && s[..j] == front[..j];
    }
  }

  lemma {:induction false} StripTwice(s: string)
    ensures Strip(Strip(s)) == Strip(s)
  {
  }

  function UpperChar(c: char): char {
    if 'a' <= c <= 'z' then c - 'a' + 'A' else c
  }

  function Upper(s: string): (r: string)
    ensures |r| == |s|
    ensures forall i :: 0 <= i < |s| ==> r[i] == UpperChar(s[i])
  {
    if s == "" then "" else [UpperChar(s[0])] + Upper(s[1..])
  }

  lemma {:induction false} UpperIdempotent(s: string)
    ensures Upper(Upper(s)) == Upper(s)
  {
    var u, v := Upper(s), Upper(Upper(s));
    forall i | 0 <= i < |s| ensures v[i] == u[i] {
      assert v[i] == UpperChar(u[i]) && u[i] == UpperChar(s[i]);
    }
  }

  // ---------------------------------------------------------------- key order

  /** Different characters have different ranks. */
  ghost predicate Ranks<T(!new)>(rank: T -> int) {
    forall x, y {:trigger rank(x), rank(y)} :: rank(x) == rank(y) ==> x == y
  }

  /** Lexicographic order by the rank of characters. */
  predicate Before<T(==)>(rank: T -> int, a: seq<T>, b: seq<T>) {
    b != [] && (a == [] || rank(a[0]) < rank(b[0]) || (a[0] == b[0] && Before(rank, a[1..], b[1..])))
  }

  lemma {:induction false} BeforeTotal<T(!new)>(rank: T -> int, a: seq<T>, b: seq<T>)
    requires Ranks(rank)
    ensures a == b || Before(rank, a, b) || Before(rank, b, a)
    ensures !(Before(rank, a, b) && Before(rank, b, a))
    ensures !Before(rank, a, a)
  {
    if a != [] && b != [] && a[0] == b[0] {
      BeforeTotal(rank, a[1..], b[1..]);
      assert a == [a[0]] + a[1..] && b == [b[0]] + b[1..];
    }
    if a == [] {
    } else {
      BeforeTotal(rank, a[1..], a[1..]);
    }
  }

  lemma {:induction false} BeforeTransitive<T(!new)>(rank: T -> int, a: seq<T>, b: seq<T>, c: seq<T>)
    requires Before(rank, a, b) && Before(rank, b, c)
    ensures Before(rank, a, c)
  {
    if a != [] && a[0] == b[0] && b[0] == c[0] {
      BeforeTransitive(rank, a[1..], b[1..], c[1..]);
    }
  }

  predicate IsLeast<T(==)>(rank: T -> int, m: seq<T>, s: set<seq<T>>) {
    m in s && forall k | k in s :: k == m || Before(rank, m, k)
  }

  lemma {:induction false} LeastExists<T(!new)>(rank: T -> int, s: set<seq<T>>)
    requires s != {} && Ranks(rank)
    ensures exists m :: IsLeast(rank, m, s)
  {
    var x :| x in s;
    if s - {x} == {} {
      assert s == {x};
      assert IsLeast(rank, x, s);
    } else {
      LeastExists(rank, s - {x});
      var m :| IsLeast(rank, m, s - {x});
      BeforeTotal(rank, x, m);
      if Before(rank, m, x) {
        assert IsLeast(rank, m, s);
      } else {
        forall k | k in s ensures k == x || Before(rank, x, k) {
          if k != x && k != m { BeforeTransitive(rank, x, m, k); }
        }
        assert IsLeast(rank, x, s);
      }
    }
  }

  lemma {:induction false} LeastUnique<T(!new)>(rank: T -> int, a: seq<T>, b: seq<T>, s: set<seq<T>>)
    requires IsLeast(rank, a, s) && IsLeast(rank, b, s) && Ranks(rank)
    ensures a == b
  {
    BeforeTotal(rank, a, b);
  }

  lemma {:induction false} LeastIsUnique<T(!new)>(rank: T -> int, s: set<seq<T>>)
    requires Ranks(rank)
    ensures forall a, b :: IsLeast(rank, a, s) && IsLeast(rank, b, s) ==> a == b
  {
    forall a, b | IsLeast(rank, a, s) && IsLeast(rank, b, s) ensures a == b { LeastUnique(rank, a, b, s); }
  }

  /** The members of `s` in increasing order of their characters' ranks. */
  function SortedBy<T(==, !new)>(rank: T -> int, s: set<seq<T>>): (r: seq<seq<T>>)
    requires Ranks(rank)
    ensures Elements(r) == s && Distinct(r)
    ensures forall i, j :: 0 <= i < j < |r| ==> Before(rank, r[i], r[j])
  {
    if s == {} then [] else
      LeastExists(rank, s);
      LeastIsUnique(rank, s);
      var m :| IsLeast(rank, m, s);
      var rest := SortedBy(rank, s - {m});
      assert Elements([m] + rest) == {m} + Elements(rest);
      assert forall k :: k in rest ==> k in Elements(rest);
      [m] + rest
  }

  function CodePoint(c: char): int {
    c as int
  }

  predicate Ascending(s: seq<string>) {
    forall i, j | 0 <= i < j < |s| :: Before(CodePoint, s[i], s[j])
  }

  /** Strings in the order of their code points. */
  function Sorted(s: set<string>): (r: seq<string>)
    ensures Elements(r) == s && Distinct(r) && Ascending(r)
  {
    SortedBy(CodePoint, s)
  }

  // ---------------------------------------------------------------- de-duplication

  /** The first occurrence of every value, in order of first occurrence. */
  function Dedup(s: seq<string>): (r: seq<string>)
    ensures Elements(r) == Elements(s) && Distinct(r)
  {
    if s == [] then [] else
      var front, last := s[..|s| - 1], s[|s| - 1];
      var d := Dedup(front);
      assert s == front + [last];
      assert forall x :: x in s <==> x in front || x == last;
      assert forall x :: x in d <==> x in Elements(d);
      assert forall x :: x in front <==> x in Elements(front);
      if last in front then d else d + [last]
  }

  /** Of two different values the one kept first is the one that occurs first. */
  lemma {:induction false} DedupOrder(s: seq<string>, i: nat, j: nat) returns (at: nat)
    requires i < j < |Dedup(s)|
    ensures at < |s| && s[at] == Dedup(s)[i] && Dedup(s)[j] !in s[..at + 1]
  {
    var front, last, d := s[..|s| - 1], s[|s| - 1], Dedup(s[..|s| - 1]);
    assert s == front + [last];
    if j < |d| {
      at := DedupOrder(front, i, j);
      assert s[..at + 1] == front[..at + 1];
    } else {
      assert Dedup(s)[i] in d && Dedup(s)[j] == last && last !in front;
      assert Dedup(s)[i] in Elements(d);
      at :| 0 <= at < |front| && front[at] == Dedup(s)[i];
      assert s[..at + 1] == front[..at + 1];
    }
  }
}
