/** Path strings over a JSON tree: escaping, splitting, and how components are looked up. */
module Paths {
  import opened Common

  // ---------------------------------------------------------------- escaping

  /** Every occurrence of one character replaced. */
  function ReplaceChar(s: string, c: char, with: string): string {
    if s == "" then "" else (if s[0] == c then with else [s[0]]) + ReplaceChar(s[1..], c, with)
  }

  /** Every tilde followed by the mark replaced, from left to right. */
  function ReplaceMark(s: string, mark: char, c: char): string {
    if s == "" then ""
    else if |s| >= 2 && s[0] == '~' && s[1] == mark then [c] + ReplaceMark(s[2..], mark, c)
    else [s[0]] + ReplaceMark(s[1..], mark, c)
  }

  function Escape(key: string): string {
    ReplaceChar(ReplaceChar(key, '~', "~0"), '/', "~1")
  }

  function Unescape(token: string): string {
    ReplaceMark(ReplaceMark(token, '1', '/'), '0', '~')
  }

  lemma {:induction false} SlashesComeBack(key: string)
    ensures ReplaceMark(Escape(key), '1', '/') == ReplaceChar(key, '~', "~0")
  {
    if key == "" {
    } else {
      SlashesComeBack(key[1..]);
      var t := ReplaceChar(key[1..], '~', "~0");
      var e := ReplaceChar(t, '/', "~1");
      if key[0] == '~' {
        assert ReplaceChar(key, '~', "~0") == "~0" + t;
        assert ("~0" + t)[1..] == "0" + t && ("0" + t)[1..] == t;
        assert ReplaceChar("0" + t, '/', "~1") == "0" + e;
        assert Escape(key) == "~" + ("0" + e);
        assert Escape(key)[1..] == "0" + e && ("0" + e)[1..] == e;
      } else {
        assert ReplaceChar(key, '~', "~0") == [key[0]] + t && ([key[0]] + t)[1..] == t;
        if key[0] == '/' {
          assert Escape(key) == "~1" + e && ("~1" + e)[2..] == e;
        } else {
          assert Escape(key) == [key[0]] + e && ([key[0]] + e)[1..] == e;
        }
      }
    }
  }

  lemma {:induction false} TildesComeBack(key: string)
    ensures ReplaceMark(ReplaceChar(key, '~', "~0"), '0', '~') == key
  {
    if key == "" {
    } else {
      TildesComeBack(key[1..]);
      var t := ReplaceChar(key[1..], '~', "~0");
      if key[0] == '~' {
        assert ReplaceChar(key, '~', "~0") == "~0" + t && ("~0" + t)[2..] == t;
      } else {
        assert ReplaceChar(key, '~', "~0") == [key[0]] + t && ([key[0]] + t)[1..] == t;
      }
      assert key == [key[0]] + key[1..];
    }
  }

  /** Unescaping, in the order the code decodes, inverts escaping for every key. */
  lemma {:induction false} UnescapeInvertsEscape(key: string)
    ensures Unescape(Escape(key)) == key
  {
    SlashesComeBack(key);
    TildesComeBack(key);
  }

  lemma {:induction false} ReplacedSlashFree(s: string)
    ensures '/' !in ReplaceChar(s, '/', "~1")
  {
    if s == "" {
    } else {
      ReplacedSlashFree(s[1..]);
    }
  }

  // ---------------------------------------------------------------- decimal indexes

  function Digit(d: nat): char
    requires d < 10
  {
    '0' + d as char
  }

  predicate IsDigit(c: char) { '0' <= c <= '9' }

  function DigitValue(c: char): nat
    requires IsDigit(c)
  {
    c as int - '0' as int
  }

  /** The decimal digits of a number. */
  function Decimal(n: nat): (s: string)
    ensures s != "" && forall i :: 0 <= i < |s| ==> IsDigit(s[i])
  {
    if n < 10 then [Digit(n)] else Decimal(n / 10) + [Digit(n % 10)]
  }

  /** Digits with single underscores between them; `before` says whether the last character was a digit. */
  function ParseDigits(s: string, acc: int, before: bool): Option<int> {
    if s == "" then if before then Some(acc) else None
    else if IsDigit(s[0]) then ParseDigits(s[1..], 10 * acc + DigitValue(s[0]), true)
    else if s[0] == '_' && before then ParseDigits(s[1..], acc, false)
    else None
  }

  /** Reading an integer from ASCII text: white space, an optional sign, then digits. */
  function ParseInt(s: string): Option<int> {
    var t := Strip(s);
    if t != "" && t[0] == '-' then
      var n := ParseDigits(t[1..], 0, false);
      if n.Some? then Some(-n.value) else None
    else
      var n := ParseDigits(if t != "" && t[0] == '+' then t[1..] else t, 0, false);
      if n.Some? then Some(n.value) else None
  }

  predicate AllDigits(s: string) {
    forall i :: 0 <= i < |s| ==> IsDigit(s[i])
  }

  lemma {:induction false} ParseDigitsAppend(s: string, c: char, acc: int, before: bool)
    requires AllDigits(s) && IsDigit(c) && (s == "" ==> before)
    ensures ParseDigits(s, acc, before).Some?
    ensures ParseDigits(s + [c], acc, before) == Some(10 * ParseDigits(s, acc, before).value + DigitValue(c))
  {
    if s == "" {
      assert s + [c] == [c];
      assert ParseDigits([c][1..], 10 * acc + DigitValue(c), true) == Some(10 * acc + DigitValue(c));
    } else {
      assert (s + [c])[1..] == s[1..] + [c];
      ParseDigitsAppend(s[1..], c, 10 * acc + DigitValue(s[0]), true);
    }
  }

  lemma {:induction false} ParseDecimalDigits(n: nat)
    ensures ParseDigits(Decimal(n), 0, false) == Some(n)
  {
    if n < 10 {
      assert [Digit(n)][1..] == "";
    } else {
      ParseDecimalDigits(n / 10);
      ParseDigitsAppend(Decimal(n / 10), Digit(n % 10), 0, false);
    }
  }

  lemma {:induction false} ParseDecimal(n: nat)
    ensures ParseInt(Decimal(n)) == Some(n)
    ensures Unescape(Decimal(n)) == Decimal(n) && '/' !in Decimal(n)
  {
    ParseDecimalDigits(n);
    MarkFree(Decimal(n), '1', '/');
    MarkFree(Decimal(n), '0', '~');
  }

  lemma {:induction false} MarkFree(s: string, mark: char, c: char)
    requires AllDigits(s)
    ensures ReplaceMark(s, mark, c) == s
  {
    if s == "" {
    } else {
      MarkFree(s[1..], mark, c);
      assert s == [s[0]] + s[1..];
    }
  }

  // ---------------------------------------------------------------- splitting

  /** The parts between slashes. */
  function SplitSlash(s: string): (parts: seq<string>)
    ensures parts != [] && forall p | p in parts :: '/' !in p
  {
    if s == "" then [""]
    else if s[0] == '/' then [""] + SplitSlash(s[1..])
    else
      var r := SplitSlash(s[1..]);
      assert r[0] in r;
      assert forall p | p in r[1..] :: p in r;
      [[s[0]] + r[0]] + r[1..]
  }

  predicate PathShape(p: string) {
    p == "" || p[0] == '/'
  }

  function Tokens(path: string): seq<string> {
    SplitSlash(path)[1..]
  }

  function Join(ts: seq<string>): string {
    if ts == [] then "" else "/" + ts[0] + Join(ts[1..])
  }

  /** `[c]` put in front of the first part. */
  function Prepend(c: char, parts: seq<string>): seq<string>
    requires parts != []
  {
    [[c] + parts[0]] + parts[1..]
  }

  lemma {:induction false} SplitHead(c: char, s: string)
    ensures SplitSlash([c] + s) == if c == '/' then [""] + SplitSlash(s) else Prepend(c, SplitSlash(s))
  {
    assert ([c] + s)[1..] == s;
  }

  lemma {:induction false} SplitConcat(a: string, b: string)
    ensures SplitSlash(a + "/" + b) == SplitSlash(a) + SplitSlash(b)
  {
    hide SplitSlash;
    if a == "" {
      assert a + "/" + b == ['/'] + b;
      SplitHead('/', b);
      SplitEmpty();
    } else {
      var c, rest := a[0], a[1..];
      assert a == [c] + rest && a + "/" + b == [c] + (rest + "/" + b);
      SplitConcat(rest, b);
      SplitHead(c, rest);
      SplitHead(c, rest + "/" + b);
    }
  }

  lemma {:induction false} SplitEmpty()
    ensures SplitSlash("") == [""]
  {
  }

  lemma {:induction false} JoinConcat(a: seq<string>, b: seq<string>)
    ensures Join(a + b) == Join(a) + Join(b)
  {
    if a == [] {
      assert a + b == b;
    } else {
      JoinConcat(a[1..], b);
      assert (a + b)[1..] == a[1..] + b;
    }
  }

  lemma {:induction false} JoinPrepend(c: char, r: seq<string>)
    requires r != []
    ensures Join(r) != "" && Join(Prepend(c, r)) == "/" + [c] + Join(r)[1..]
  {
    assert Prepend(c, r)[1..] == r[1..];
    assert Join(r) == "/" + (r[0] + Join(r[1..]));
    assert Join(r)[1..] == r[0] + Join(r[1..]);
  }

  lemma {:induction false} JoinSplit(s: string)
    ensures Join(SplitSlash(s)) == "/" + s
  {
    hide SplitSlash, Join, Prepend;
    if s == "" {
      SplitEmpty();
      JoinOne("", []);
    } else {
      var c, rest := s[0], s[1..];
      assert s == [c] + rest;
      JoinSplit(rest);
      SplitHead(c, rest);
      if c == '/' {
        JoinOne("", SplitSlash(rest));
      } else {
        JoinPrepend(c, SplitSlash(rest));
        assert ("/" + rest)[1..] == rest;
      }
    }
  }

  lemma {:induction false} JoinOne(t: string, ts: seq<string>)
    ensures Join([t] + ts) == "/" + t + Join(ts)
    ensures Join([]) == ""
    ensures Join([t]) == "/" + t
  {
    assert ([t] + ts)[1..] == ts;
  }

  lemma {:induction false} JoinTokens(p: string)
    requires PathShape(p)
    ensures Join(Tokens(p)) == p
  {
    if p != "" {
      JoinSplit(p[1..]);
      assert p == "/" + p[1..];
    }
  }

  lemma {:induction false} SplitSlashFree(t: string)
    requires '/' !in t
    ensures SplitSlash(t) == [t]
  {
    if t == "" {
    } else {
      SplitSlashFree(t[1..]);
      assert t == [t[0]] + t[1..];
    }
  }

  lemma {:induction false} TokensJoin(ts: seq<string>)
    requires forall t | t in ts :: '/' !in t
    ensures SplitSlash(Join(ts)) == [""] + ts
    ensures Tokens(Join(ts)) == ts && PathShape(Join(ts))
  {
    hide SplitSlash;
    if ts == [] {
      SplitEmpty();
    } else {
      var front, last := ts[..|ts| - 1], ts[|ts| - 1];
      TokensJoin(front);
      assert last in ts && ts == front + [last];
      SplitSlashFree(last);
      JoinConcat(front, [last]);
      assert Join([last]) == "/" + last;
      assert Join(ts) == Join(front) + "/" + last;
      SplitConcat(Join(front), last);
    }
  }

  predicate StartsWith(s: string, prefix: string) {
    prefix <= s
  }

  lemma {:induction false} BelowSplits(q: string, p: string)
    requires StartsWith(q, p + "/")
    ensures Tokens(p) < Tokens(q)
  {
    var r := q[|p| + 1..];
    assert q == p + "/" + r;
    hide SplitSlash;
    SplitConcat(p, r);
    assert Tokens(q) == Tokens(p) + SplitSlash(r);
  }

  lemma {:induction false} PrefixIsBelow(q: string, p: string)
    requires PathShape(p) && PathShape(q) && Tokens(p) < Tokens(q)
    ensures StartsWith(q, p + "/")
  {
    hide SplitSlash, Tokens;
    JoinTokens(p);
    JoinTokens(q);
    var rest := Tokens(q)[|Tokens(p)|..];
    assert Tokens(q) == Tokens(p) + rest;
    JoinConcat(Tokens(p), rest);
    assert q == p + "/" + (rest[0] + Join(rest[1..]));
  }

  /** The string test for being below a path is exactly the component test. */
  lemma {:induction false} BelowIsPrefix(q: string, p: string)
    requires PathShape(p) && PathShape(q)
    ensures StartsWith(q, p + "/") <==> Tokens(p) < Tokens(q)
    ensures p == q <==> Tokens(p) == Tokens(q)
  {
    hide SplitSlash, Tokens;
    JoinTokens(p);
    JoinTokens(q);
    if StartsWith(q, p + "/") { BelowSplits(q, p); }
    if Tokens(p) < Tokens(q) { PrefixIsBelow(q, p); }
  }
}
