/**
 * Canonical JSON text: how `canonical_json` writes values, and how that text is read back. Texts are
 * sequences of code points, among them the surrogates, which the source's strings may hold as well.
 */
module CanonicalJson {
  import opened Common
  import opened Journal

  newtype Code = c: int | 0 <= c < 0x11_0000

  type Text = seq<Code>

  /** Numbers are whole. The order of a dictionary's entries does not matter. */
  datatype Value =
    | Null
    | Truth(truth: bool)
    | Number(number: int)
    | Str(text: Text)
    | List(items: seq<Value>)
    | Dict(fields: map<Text, Value>)

  predicate High(c: Code) { 0xD800 <= c < 0xDC00 }

  predicate Low(c: Code) { 0xDC00 <= c < 0xE000 }

  /** No high surrogate directly before a low one. */
  predicate PairFreeText(s: Text) {
    forall i | 0 <= i < |s| - 1 :: !(High(s[i]) && Low(s[i + 1]))
  }

  predicate PairFree(v: Value) {
    match v
    case Null | Truth(_) | Number(_) => true
    case Str(s) => PairFreeText(s)
    case List(items) => forall i | 0 <= i < |items| :: PairFree(items[i])
    case Dict(fields) => forall k | k in fields :: PairFreeText(k) && PairFree(fields[k])
  }

  // ---------------------------------------------------------------- writing

  const QUOTE: Byte := 34
  const COMMA: Byte := 44
  const MINUS: Byte := 45
  const ZERO: Byte := 48
  const COLON: Byte := 58
  const OPEN_LIST: Byte := 91
  const ESCAPE: Byte := 92
  const CLOSE_LIST: Byte := 93
  const LETTER_U: Byte := 117
  const OPEN_DICT: Byte := 123
  const CLOSE_DICT: Byte := 125
  const NULL: seq<Byte> := [110, 117, 108, 108]
  const TRUE: seq<Byte> := [116, 114, 117, 101]
  const FALSE: seq<Byte> := [102, 97, 108, 115, 101]

  predicate Printable(b: seq<Byte>) {
    forall i | 0 <= i < |b| :: 32 <= b[i] < 127
  }

  function HexDigit(d: nat): Byte
    requires d < 16
  {
    if d < 10 then 48 + d as Byte else 87 + d as Byte
  }

  /** A UTF-16 unit as an escape of four lower-case hexadecimal digits. */
  function UnitEscape(n: nat): (b: seq<Byte>)
    requires n < 0x1_0000
    ensures |b| == 6 && b[0] == ESCAPE && b[1] == LETTER_U && Printable(b)
  {
    [ESCAPE, LETTER_U, HexDigit(n / 4096), HexDigit(n / 256 % 16), HexDigit(n / 16 % 16), HexDigit(n % 16)]
  }

  /** The letter of a character's short escape. */
  function ShortEscape(c: Code): Option<Byte> {
    if c == 34 then Some(34)
    else if c == 92 then Some(92)
    else if c == 8 then Some(98)
    else if c == 12 then Some(102)
    else if c == 10 then Some(110)
    else if c == 13 then Some(114)
    else if c == 9 then Some(116)
    else None
  }

  function ShowCode(c: Code): (b: seq<Byte>)
    ensures b != [] && b[0] != QUOTE && Printable(b)
  {
    if ShortEscape(c).Some? then [ESCAPE, ShortEscape(c).value]
    else if 32 <= c < 127 then [c as Byte]
    else if c < 0x1_0000 then UnitEscape(c as nat)
    else
      var n := c as nat - 0x1_0000;
      UnitEscape(0xD800 + n / 1024) + UnitEscape(0xDC00 + n % 1024)
  }

  /** The characters of a text, with its closing quote. */
  function ShowCodes(s: Text): (b: seq<Byte>)
    ensures b != [] && Printable(b)
  {
    if s == [] then [QUOTE] else ShowCode(s[0]) + ShowCodes(s[1..])
  }

  function ShowText(s: Text): (b: seq<Byte>)
    ensures b != [] && b[0] == QUOTE && Printable(b)
  {
    [QUOTE] + ShowCodes(s)
  }

  predicate IsDigit(b: Byte) { 48 <= b < 58 }

  function Digits(n: nat): (b: seq<Byte>)
    ensures b != [] && (forall i | 0 <= i < |b| :: IsDigit(b[i])) && (0 < n ==> b[0] != ZERO)
  {
    if n < 10 then [48 + n as Byte] else Digits(n / 10) + [48 + (n % 10) as Byte]
  }

  function ShowNumber(n: int): (b: seq<Byte>)
    ensures b != [] && Printable(b) && (b[0] == MINUS || IsDigit(b[0]))
  {
    if n < 0 then [MINUS] + Digits(-n) else Digits(n)
  }

  function Rank(c: Code): int {
    c as int
  }

  /** The keys in the order of their code points. */
  function Keys(fields: map<Text, Value>): (keys: seq<Text>)
    ensures Elements(keys) == fields.Keys && Distinct(keys)
    ensures forall i, j | 0 <= i < j < |keys| :: Before(Rank, keys[i], keys[j])
  {
    SortedBy(Rank, fields.Keys)
  }

  /** `canonical_json`: ASCII only, keys in order, no white space. */
  function Show(v: Value): (b: seq<Byte>)
    ensures b != [] && Printable(b) && b[0] != CLOSE_LIST
    decreases v, 1, 0
  {
    match v
    case Null => NULL
    case Truth(t) => if t then TRUE else FALSE
    case Number(n) => ShowNumber(n)
    case Str(s) => ShowText(s)
    case List(items) => [OPEN_LIST] + if items == [] then [CLOSE_LIST] else ShowItems(v, 0)
    case Dict(fields) =>
      assert forall k :: k in Keys(fields) ==> k in Elements(Keys(fields));
      [OPEN_DICT] + if Keys(fields) == [] then [CLOSE_DICT] else ShowFields(v, Keys(fields))
  }

  /** The items from `i` on, with the closing bracket. */
  function ShowItems(v: Value, i: nat): (b: seq<Byte>)
    requires v.List? && i < |v.items|
    ensures b != [] && Printable(b) && b[0] != CLOSE_LIST
    decreases v, 0, |v.items| - i
  {
    Show(v.items[i]) + if i + 1 == |v.items| then [CLOSE_LIST] else [COMMA] + ShowItems(v, i + 1)
  }

  /** The entries of `keys`, with the closing brace. */
  function ShowFields(v: Value, keys: seq<Text>): (b: seq<Byte>)
    requires v.Dict? && keys != [] && forall k | k in keys :: k in v.fields
    ensures b != [] && b[0] == QUOTE && Printable(b)
    decreases v, 0, |keys|
  {
    ShowText(keys[0]) + [COLON] + Show(v.fields[keys[0]])
    + if |keys| == 1 then [CLOSE_DICT] else [COMMA] + ShowFields(v, keys[1..])
  }

  // ---------------------------------------------------------------- reading

  function HexValue(b: Byte): Option<nat> {
    if 48 <= b < 58 then Some(b as nat - 48)
    else if 97 <= b < 103 then Some(b as nat - 87)
    else if 65 <= b < 71 then Some(b as nat - 55)
    else None
  }

  /** The unit escape at the front. */
  function Unit(b: seq<Byte>): (n: Option<Code>)
    ensures n.Some? ==> n.value < 0x1_0000 && |b| >= 6
  {
    if |b| < 6 || b[0] != ESCAPE || b[1] != LETTER_U then None
    else
      match (HexValue(b[2]), HexValue(b[3]), HexValue(b[4]), HexValue(b[5]))
      case (Some(p), Some(q), Some(r), Some(s)) =>
        if p < 16 && q < 16 && r < 16 && s < 16 then Some((p * 4096 + q * 256 + r * 16 + s) as Code) else None
      case _ => None
  }

  predicate StartsLow(b: seq<Byte>) {
    Unit(b).Some? && Low(Unit(b).value)
  }

  function Unescaped(b: Byte): Option<Code> {
    if b == 34 then Some(34)
    else if b == 92 then Some(92)
    else if b == 47 then Some(47)
    else if b == 98 then Some(8)
    else if b == 102 then Some(12)
    else if b == 110 then Some(10)
    else if b == 114 then Some(13)
    else if b == 116 then Some(9)
    else None
  }

  /** One character. A high surrogate's escape takes the low surrogate's escape after it along. */
  function ReadCode(b: seq<Byte>): (r: Option<(Code, seq<Byte>)>)
    ensures r.Some? ==> |r.value.1| < |b|
    ensures r.Some? && High(r.value.0) ==> !StartsLow(r.value.1)
    ensures r.Some? && Low(r.value.0) ==> StartsLow(b)
  {
    if b == [] || b[0] < 32 || b[0] >= 128 then None
    else if b[0] != ESCAPE then Some((b[0] as Code, b[1..]))
    else if |b| < 2 then None
    else if b[1] != LETTER_U then
      match Unescaped(b[1])
      case None => None
      case Some(c) => Some((c, b[2..]))
    else
      match Unit(b)
      case None => None
      case Some(n) =>
        if High(n) && StartsLow(b[6..]) then
          Some((0x1_0000 + (n - 0xD800) * 1024 + (Unit(b[6..]).value - 0xDC00), b[12..]))
        else Some((n, b[6..]))
  }

  /** The characters of a text up to its closing quote. */
  function ReadCodes(b: seq<Byte>): (r: Option<(Text, seq<Byte>)>)
    ensures r.Some? ==> |r.value.1| < |b| && PairFreeText(r.value.0)
    ensures r.Some? && r.value.0 != [] && Low(r.value.0[0]) ==> StartsLow(b)
  {
    if b == [] then None
    else if b[0] == QUOTE then Some(([], b[1..]))
    else
      match ReadCode(b)
      case None => None
      case Some((c, rest)) =>
        match ReadCodes(rest)
        case None => None
        case Some((s, tail)) => Some(([c] + s, tail))
  }

  function ReadDigits(b: seq<Byte>, n: nat): (r: (nat, seq<Byte>))
    ensures |r.1| <= |b|
  {
    if b == [] || !IsDigit(b[0]) then (n, b) else ReadDigits(b[1..], 10 * n + (b[0] as nat - 48))
  }

  /** Digits without a needless zero. */
  function ReadNatural(b: seq<Byte>): (r: Option<(nat, seq<Byte>)>)
    ensures r.Some? ==> |r.value.1| < |b|
  {
    if b == [] || !IsDigit(b[0]) then None
    else if b[0] == ZERO then Some((0, b[1..]))
    else Some(ReadDigits(b[1..], b[0] as nat - 48))
  }

  function ReadNumber(b: seq<Byte>): (r: Option<(int, seq<Byte>)>)
    ensures r.Some? ==> |r.value.1| < |b|
  {
    if b != [] && b[0] == MINUS then
      match ReadNatural(b[1..])
      case None => None
      case Some((n, rest)) => Some((0 - n as int, rest))
    else ReadNatural(b)
  }

  predicate Starts(b: seq<Byte>, word: seq<Byte>) {
    |word| <= |b| && b[..|word|] == word
  }

  function ReadWord(b: seq<Byte>, word: seq<Byte>, v: Value): (r: Option<(Value, seq<Byte>)>)
    requires word != [] && PairFree(v)
    ensures r.Some? ==> |r.value.1| < |b| && PairFree(r.value.0)
  {
    if Starts(b, word) then Some((v, b[|word|..])) else None
  }

  /** One value at the front. Of entries with the same key the last one stays. */
  function ReadValue(b: seq<Byte>): (r: Option<(Value, seq<Byte>)>)
    ensures r.Some? ==> |r.value.1| < |b| && PairFree(r.value.0)
    decreases |b|, 0
  {
    if b == [] then None
    else if b[0] == NULL[0] then ReadWord(b, NULL, Null)
    else if b[0] == TRUE[0] then ReadWord(b, TRUE, Truth(true))
    else if b[0] == FALSE[0] then ReadWord(b, FALSE, Truth(false))
    else if b[0] == QUOTE then
      match ReadCodes(b[1..])
      case None => None
      case Some((s, rest)) => Some((Str(s), rest))
    else if b[0] == OPEN_LIST then
      if |b| >= 2 && b[1] == CLOSE_LIST then Some((List([]), b[2..]))
      else
        match ReadItems(b[1..])
        case None => None
        case Some((items, rest)) => Some((List(items), rest))
    else if b[0] == OPEN_DICT then
      if |b| >= 2 && b[1] == CLOSE_DICT then Some((Dict(map[]), b[2..]))
      else
        match ReadFields(b[1..])
        case None => None
        case Some((fields, rest)) => Some((Dict(fields), rest))
    else
      match ReadNumber(b)
      case None => None
      case Some((n, rest)) => Some((Number(n), rest))
  }

  function ReadItems(b: seq<Byte>): (r: Option<(seq<Value>, seq<Byte>)>)
    ensures r.Some? ==> |r.value.1| < |b| && PairFree(List(r.value.0))
    decreases |b|, 1
  {
    match ReadValue(b)
    case None => None
    case Some((v, rest)) =>
      if rest == [] then None
      else if rest[0] == CLOSE_LIST then Some(([v], rest[1..]))
      else if rest[0] != COMMA then None
      else
        match ReadItems(rest[1..])
        case None => None
        case Some((more, tail)) => Some(([v] + more, tail))
  }

  function ReadFields(b: seq<Byte>): (r: Option<(map<Text, Value>, seq<Byte>)>)
    ensures r.Some? ==> |r.value.1| < |b| && PairFree(Dict(r.value.0))
    decreases |b|, 1
  {
    if b == [] || b[0] != QUOTE then None
    else
      match ReadCodes(b[1..])
      case None => None
      case Some((key, colon)) =>
        if colon == [] || colon[0] != COLON then None
        else
          match ReadValue(colon[1..])
          case None => None
          case Some((v, rest)) =>
            if rest == [] then None
            else if rest[0] == CLOSE_DICT then Some((map[key := v], rest[1..]))
            else if rest[0] != COMMA then None
            else
              match ReadFields(rest[1..])
              case None => None
              case Some((more, tail)) => Some((map[key := v] + more, tail))
  }

  /** A text that is one value. */
  function Read(b: seq<Byte>): (v: Option<Value>)
    ensures v.Some? ==> PairFree(v.value)
  {
    match ReadValue(b)
    case None => None
    case Some((v, rest)) => if rest == [] then Some(v) else None
  }

  // ---------------------------------------------------------------- texts read back

  lemma {:induction false} HexRoundTrip(d: nat)
    requires d < 16
    ensures HexValue(HexDigit(d)) == Some(d)
  {
  }

  lemma {:induction false} FourDigits(n: nat)
    requires n < 0x1_0000
    ensures n / 4096 < 16 && n == n / 4096 * 4096 + n / 256 % 16 * 256 + n / 16 % 16 * 16 + n % 16
  {
    assert n / 256 == n / 4096 * 16 + n / 256 % 16;
    assert n / 16 == n / 256 * 16 + n / 16 % 16;
  }

  lemma {:induction false} UnitRoundTrip(n: nat, rest: seq<Byte>)
    requires n < 0x1_0000
    ensures Unit(UnitEscape(n) + rest) == Some(n as Code) && (UnitEscape(n) + rest)[6..] == rest
  {
    var e := UnitEscape(n);
    var b := e + rest;
    FourDigits(n);
    HexRoundTrip(n / 4096);
    HexRoundTrip(n / 256 % 16);
    HexRoundTrip(n / 16 % 16);
    HexRoundTrip(n % 16);
    hide HexValue, HexDigit;
    assert b[0] == e[0] && b[1] == e[1] && b[2] == e[2] && b[3] == e[3] && b[4] == e[4] && b[5] == e[5];
  }

  lemma {:induction false} UnitReads(n: nat, rest: seq<Byte>)
    requires n < 0x1_0000 && !(High(n as Code) && StartsLow(rest))
    ensures ReadCode(UnitEscape(n) + rest) == Some((n as Code, rest))
  {
    UnitRoundTrip(n, rest);
    var b := UnitEscape(n) + rest;
    assert b[0] == ESCAPE && b[1] == LETTER_U && b[6..] == rest;
    hide Unit, UnitEscape, Unescaped;
  }

  lemma {:induction false} PairReads(high: nat, low: nat, rest: seq<Byte>)
    requires 0xD800 <= high < 0xDC00 <= low < 0xE000
    ensures ReadCode(UnitEscape(high) + UnitEscape(low) + rest) ==
            Some(((0x1_0000 + (high - 0xD800) * 1024 + (low - 0xDC00)) as Code, rest))
  {
    var b, next := UnitEscape(high) + UnitEscape(low) + rest, UnitEscape(low) + rest;
    Associates(UnitEscape(high), UnitEscape(low), rest);
    UnitRoundTrip(high, next);
    UnitRoundTrip(low, rest);
    hide Unit, UnitEscape, Unescaped;
    assert b[0] == ESCAPE && b[1] == LETTER_U && b[6..] == next && next[6..] == rest;
    assert b[12..] == b[6..][6..];
  }

  /** A character's text reads back as the character, unless an escaped low surrogate follows a high one. */
  lemma {:induction false} CodeRoundTrip(c: Code, rest: seq<Byte>)
    requires !(High(c) && StartsLow(rest))
    ensures ReadCode(ShowCode(c) + rest) == Some((c, rest))
  {
    hide Unit, UnitEscape, StartsLow;
    var b := ShowCode(c) + rest;
    if ShortEscape(c).Some? {
      assert b[0] == ESCAPE && b[1] == ShortEscape(c).value && b[2..] == rest;
    } else if 32 <= c < 127 {
      assert b[0] == c as Byte && b[1..] == rest;
    } else if c < 0x1_0000 {
      UnitReads(c as nat, rest);
    } else {
      var n := c as nat - 0x1_0000;
      PairReads(0xD800 + n / 1024, 0xDC00 + n % 1024, rest);
    }
  }

  lemma {:induction false} LowStarts(c: Code, rest: seq<Byte>)
    ensures StartsLow(ShowCode(c) + rest) ==> Low(c)
  {
    hide UnitEscape, HexValue;
    var b := ShowCode(c) + rest;
    if ShortEscape(c).Some? {
      assert b[1] == ShortEscape(c).value;
    } else if 32 <= c < 127 {
      assert b[0] == c as Byte;
    } else if c < 0x1_0000 {
      hide Unit, ShortEscape;
      UnitRoundTrip(c as nat, rest);
    } else {
      hide Unit, ShortEscape;
      var n := c as nat - 0x1_0000;
      var first, second := UnitEscape(0xD800 + n / 1024), UnitEscape(0xDC00 + n % 1024);
      Associates(first, second, rest);
      UnitRoundTrip(0xD800 + n / 1024, second + rest);
    }
  }

  lemma {:induction false} LowNext(c: Code, s: Text, rest: seq<Byte>)
    requires PairFreeText([c] + s) && High(c)
    ensures !StartsLow(ShowCodes(s) + rest)
  {
    if s == [] {
      assert (ShowCodes(s) + rest)[0] == QUOTE;
    } else {
      assert !(High(([c] + s)[0]) && Low(([c] + s)[0 + 1]));
      Associates(ShowCode(s[0]), ShowCodes(s[1..]), rest);
      hide ShowCode, StartsLow;
      LowStarts(s[0], ShowCodes(s[1..]) + rest);
    }
  }

  lemma {:induction false} CodesRoundTrip(s: Text, rest: seq<Byte>)
    requires PairFreeText(s)
    ensures ReadCodes(ShowCodes(s) + rest) == Some((s, rest))
  {
    var b := ShowCodes(s) + rest;
    if s == [] {
      assert b[0] == QUOTE && b[1..] == rest;
    } else {
      assert PairFreeText(s[1..]) by {
        forall i | 0 <= i < |s[1..]| - 1 ensures !(High(s[1..][i]) && Low(s[1..][i + 1])) {
          assert !(High(s[i + 1]) && Low(s[i + 2]));
        }
      }
      var more := ShowCodes(s[1..]) + rest;
      CodesRoundTrip(s[1..], rest);
      assert s == [s[0]] + s[1..];
      if High(s[0]) { LowNext(s[0], s[1..], rest); }
      CodeRoundTrip(s[0], more);
      Associates(ShowCode(s[0]), ShowCodes(s[1..]), rest);
      assert b[0] == ShowCode(s[0])[0];
      hide ReadCode, ShowCode, StartsLow;
    }
  }

  // ---------------------------------------------------------------- values read back

  /** Nothing that would lengthen a number. */
  predicate Stops(rest: seq<Byte>) {
    rest == [] || !IsDigit(rest[0])
  }

  lemma {:induction false} DigitsRead(n: nat, rest: seq<Byte>)
    ensures ReadDigits(Digits(n) + rest, 0) == ReadDigits(rest, n)
  {
    if n < 10 {
      assert (Digits(n) + rest)[1..] == rest;
    } else {
      var last := [48 + (n % 10) as Byte];
      DigitsRead(n / 10, last + rest);
      Associates(Digits(n / 10), last, rest);
      assert (last + rest)[1..] == rest;
      assert 10 * (n / 10) + n % 10 == n;
    }
  }

  lemma {:induction false} NaturalRoundTrip(n: nat, rest: seq<Byte>)
    requires Stops(rest)
    ensures ReadNatural(Digits(n) + rest) == Some((n, rest))
  {
    var b := Digits(n) + rest;
    DigitsRead(n, rest);
    assert b[0] == Digits(n)[0];
    if n == 0 {
      assert b[1..] == rest;
    } else {
      assert ReadDigits(b, 0) == ReadDigits(b[1..], b[0] as nat - 48);
      assert ReadDigits(rest, n) == (n, rest);
    }
  }

  lemma {:induction false} NumberRoundTrip(n: int, rest: seq<Byte>)
    requires Stops(rest)
    ensures ReadNumber(ShowNumber(n) + rest) == Some((n, rest))
  {
    hide Digits, ReadDigits, ReadNatural, Stops;
    var b := ShowNumber(n) + rest;
    if n < 0 {
      assert b[0] == MINUS && b[1..] == Digits(-n) + rest;
      NaturalRoundTrip(-n, rest);
    } else {
      NaturalRoundTrip(n, rest);
      assert b[0] == Digits(n)[0];
    }
  }

  lemma {:induction false} WordRoundTrip(word: seq<Byte>, v: Value, rest: seq<Byte>)
    requires word != [] && PairFree(v)
    ensures ReadWord(word + rest, word, v) == Some((v, rest))
  {
    assert (word + rest)[..|word|] == word && (word + rest)[|word|..] == rest;
  }

  function Part(fields: map<Text, Value>, keys: seq<Text>): map<Text, Value>
    requires forall k | k in keys :: k in fields
  {
    map k | k in keys :: fields[k]
  }

  lemma {:induction false} KeysExact(fields: map<Text, Value>)
    ensures (forall k :: k in Keys(fields) <==> k in fields) && (Keys(fields) == [] <==> fields == map[])
    ensures Part(fields, Keys(fields)) == fields
  {
    assert forall k :: k in Keys(fields) <==> k in Elements(Keys(fields));
    if Keys(fields) == [] { assert fields.Keys == {}; } else { assert Keys(fields)[0] in fields; }
  }

  lemma {:induction false} ShownReads(v: Value, rest: seq<Byte>)
    requires PairFree(v) && Stops(rest)
    ensures ReadValue(Show(v) + rest) == Some((v, rest))
    decreases v, 1, 0
  {
    hide ReadItems, ReadFields, ReadCodes, ReadNumber, ShowItems, ShowFields, ShowNumber, Keys, PairFreeText;
    var b := Show(v) + rest;
    match v
    case Null => WordRoundTrip(NULL, Null, rest);
    case Truth(t) =>
      if t { WordRoundTrip(TRUE, v, rest); } else { WordRoundTrip(FALSE, v, rest); }
    case Number(n) =>
      NumberRoundTrip(n, rest);
      assert b[0] == ShowNumber(n)[0];
    case Str(s) =>
      CodesRoundTrip(s, rest);
      assert b[0] == QUOTE && b[1..] == ShowCodes(s) + rest;
    case List(items) =>
      if items != [] { ItemsRead(v, 0, rest); }
      ListReads(v, rest);
    case Dict(fields) =>
      KeysExact(fields);
      if Keys(fields) != [] { FieldsRead(v, Keys(fields), rest); }
      DictReads(v, rest);
  }

  lemma {:induction false} ListReads(v: Value, rest: seq<Byte>)
    requires v.List?
    requires v.items != [] ==> ReadItems(ShowItems(v, 0) + rest) == Some((v.items, rest))
    ensures ReadValue(Show(v) + rest) == Some((v, rest))
  {
    hide ReadItems, ShowItems, ReadFields, ReadCodes, ReadNumber, PairFree;
    var b := Show(v) + rest;
    if v.items == [] {
      assert b[0] == OPEN_LIST && b[1] == CLOSE_LIST && b[2..] == rest;
    } else {
      assert b[0] == OPEN_LIST && b[1..] == ShowItems(v, 0) + rest && b[1] == ShowItems(v, 0)[0];
    }
  }

  lemma {:induction false} DictReads(v: Value, rest: seq<Byte>)
    requires v.Dict? && (Keys(v.fields) == [] <==> v.fields == map[])
    requires forall k | k in Keys(v.fields) :: k in v.fields
    requires Keys(v.fields) != [] ==> ReadFields(ShowFields(v, Keys(v.fields)) + rest) == Some((v.fields, rest))
    ensures ReadValue(Show(v) + rest) == Some((v, rest))
  {
    hide ReadItems, ShowFields, ReadFields, ReadCodes, ReadNumber, PairFree, Keys;
    var b := Show(v) + rest;
    if Keys(v.fields) == [] {
      assert b[0] == OPEN_DICT && b[1] == CLOSE_DICT && b[2..] == rest;
    } else {
      var entries := ShowFields(v, Keys(v.fields));
      assert b[0] == OPEN_DICT && b[1..] == entries + rest && b[1] == entries[0];
    }
  }

  lemma {:induction false} ItemReads(v: Value, b: seq<Byte>, end: seq<Byte>)
    requires end != [] && ReadValue(b) == Some((v, end))
    ensures ReadItems(b) ==
      if end[0] == CLOSE_LIST then Some(([v], end[1..]))
      else if end[0] != COMMA then None
      else
        match ReadItems(end[1..])
        case None => None
        case Some((more, tail)) => Some(([v] + more, tail))
  {
    hide ReadValue;
  }

  lemma {:induction false} CloseStops(mark: Byte, rest: seq<Byte>)
    requires !IsDigit(mark)
    ensures Stops([mark] + rest)
  {
    assert ([mark] + rest)[0] == mark;
  }

  lemma {:induction false} LastShown(v: Value, i: nat, rest: seq<Byte>)
    requires v.List? && i + 1 == |v.items|
    ensures ShowItems(v, i) + rest == Show(v.items[i]) + ([CLOSE_LIST] + rest)
  {
    hide Show, Printable;
    Associates(Show(v.items[i]), [CLOSE_LIST], rest);
  }

  lemma {:induction false} NextShown(v: Value, i: nat, rest: seq<Byte>)
    requires v.List? && i + 1 < |v.items|
    ensures ShowItems(v, i) + rest == Show(v.items[i]) + ([COMMA] + (ShowItems(v, i + 1) + rest))
  {
    hide Show, Printable;
    var item, more := Show(v.items[i]), ShowItems(v, i + 1);
    assert ShowItems(v, i) == item + ([COMMA] + more);
    Associates(item, [COMMA] + more, rest);
    Associates([COMMA], more, rest);
  }

  lemma {:induction false} ItemsRead(v: Value, i: nat, rest: seq<Byte>)
    requires v.List? && i < |v.items| && PairFree(v)
    ensures ReadItems(ShowItems(v, i) + rest) == Some((v.items[i..], rest))
    decreases v, 0, |v.items| - i
  {
    var item := v.items[i];
    assert PairFree(item);
    hide *;
    if i + 1 == |v.items| {
      var end := [CLOSE_LIST] + rest;
      LastShown(v, i, rest);
      CloseStops(CLOSE_LIST, rest);
      ShownReads(item, end);
      ItemReads(item, Show(item) + end, end);
      assert end[0] == CLOSE_LIST && end[1..] == rest && v.items[i..] == [item];
    } else {
      var more := ShowItems(v, i + 1) + rest;
      var end := [COMMA] + more;
      NextShown(v, i, rest);
      CloseStops(COMMA, more);
      ShownReads(item, end);
      ItemsRead(v, i + 1, rest);
      ItemReads(item, Show(item) + end, end);
      assert end[0] == COMMA && end[1..] == more && v.items[i..] == [item] + v.items[i + 1..];
    }
  }

  lemma {:induction false} FieldReads(b: seq<Byte>, key: Text, colon: seq<Byte>, v: Value, end: seq<Byte>)
    requires b != [] && b[0] == QUOTE && ReadCodes(b[1..]) == Some((key, colon))
    requires colon != [] && colon[0] == COLON && end != [] && ReadValue(colon[1..]) == Some((v, end))
    ensures ReadFields(b) ==
      if end[0] == CLOSE_DICT then Some((map[key := v], end[1..]))
      else if end[0] != COMMA then None
      else
        match ReadFields(end[1..])
        case None => None
        case Some((more, tail)) => Some((map[key := v] + more, tail))
  {
    hide ReadValue, ReadCodes;
  }

  function AfterField(v: Value, keys: seq<Text>): seq<Byte>
    requires v.Dict? && keys != [] && forall k | k in keys :: k in v.fields
  {
    if |keys| == 1 then [CLOSE_DICT] else [COMMA] + ShowFields(v, keys[1..])
  }

  lemma {:induction false} FieldsShown(v: Value, keys: seq<Text>, rest: seq<Byte>)
    requires v.Dict? && keys != [] && forall k | k in keys :: k in v.fields
    ensures ShowFields(v, keys) + rest ==
      [QUOTE] + (ShowCodes(keys[0]) + ([COLON] + (Show(v.fields[keys[0]]) + (AfterField(v, keys) + rest))))
  {
    hide Show, ShowCodes;
    var text, value, end := ShowText(keys[0]), Show(v.fields[keys[0]]), AfterField(v, keys);
    hide AfterField;
    assert ShowFields(v, keys) == text + [COLON] + value + end;
    hide ShowFields;
    assert text + [COLON] + value + end + rest == text + ([COLON] + (value + (end + rest)));
    Associates([QUOTE], ShowCodes(keys[0]), [COLON] + (value + (end + rest)));
  }

  lemma {:induction false} PartHead(fields: map<Text, Value>, keys: seq<Text>)
    requires keys != [] && Distinct(keys) && forall k | k in keys :: k in fields
    ensures Part(fields, keys) == map[keys[0] := fields[keys[0]]] + Part(fields, keys[1..])
  {
    assert keys == [keys[0]] + keys[1..];
  }

  /** The first entry's text is read, and what follows it decides how reading goes on. */
  lemma {:induction false} FieldsHead(v: Value, keys: seq<Text>, rest: seq<Byte>, value: Value, end: seq<Byte>)
    requires v.Dict? && keys != [] && (forall k | k in keys :: k in v.fields) && PairFreeText(keys[0])
    requires value == v.fields[keys[0]] && end == AfterField(v, keys) + rest && end != []
    requires ReadValue(Show(value) + end) == Some((value, end))
    ensures ReadFields(ShowFields(v, keys) + rest) ==
      if end[0] == CLOSE_DICT then Some((map[keys[0] := value], end[1..]))
      else if end[0] != COMMA then None
      else
        match ReadFields(end[1..])
        case None => None
        case Some((more, tail)) => Some((map[keys[0] := value] + more, tail))
  {
    hide *;
    var colon := [COLON] + (Show(value) + end);
    var b := [QUOTE] + (ShowCodes(keys[0]) + colon);
    FieldsShown(v, keys, rest);
    CodesRoundTrip(keys[0], colon);
    assert b[1..] == ShowCodes(keys[0]) + colon && colon[1..] == Show(value) + end;
    FieldReads(b, keys[0], colon, value, end);
  }

  lemma {:induction false} LastField(v: Value, keys: seq<Text>, rest: seq<Byte>)
    requires v.Dict? && |keys| == 1 && keys[0] in v.fields && PairFreeText(keys[0])
    requires var value, end := v.fields[keys[0]], [CLOSE_DICT] + rest;
      ReadValue(Show(value) + end) == Some((value, end))
    ensures ReadFields(ShowFields(v, keys) + rest) == Some((Part(v.fields, keys), rest))
  {
    var value, end := v.fields[keys[0]], [CLOSE_DICT] + rest;
    assert end == AfterField(v, keys) + rest;
    assert Part(v.fields, keys) == map[keys[0] := value];
    hide *;
    assert end[0] == CLOSE_DICT && end[1..] == rest;
    FieldsHead(v, keys, rest, value, end);
  }

  lemma {:induction false} NextFields(v: Value, keys: seq<Text>, rest: seq<Byte>)
    requires v.Dict? && |keys| > 1 && Distinct(keys) && forall k | k in keys :: k in v.fields
    requires PairFreeText(keys[0])
    requires var value, end := v.fields[keys[0]], [COMMA] + (ShowFields(v, keys[1..]) + rest);
      ReadValue(Show(value) + end) == Some((value, end))
    requires ReadFields(ShowFields(v, keys[1..]) + rest) == Some((Part(v.fields, keys[1..]), rest))
    ensures ReadFields(ShowFields(v, keys) + rest) == Some((Part(v.fields, keys), rest))
  {
    var value, more := v.fields[keys[0]], ShowFields(v, keys[1..]) + rest;
    var end := [COMMA] + more;
    PartHead(v.fields, keys);
    assert end == AfterField(v, keys) + rest by {
      hide ShowFields;
      Associates([COMMA], ShowFields(v, keys[1..]), rest);
    }
    hide *;
    assert end[0] == COMMA && end[1..] == more;
    FieldsHead(v, keys, rest, value, end);
  }

  lemma {:induction false} FieldsRead(v: Value, keys: seq<Text>, rest: seq<Byte>)
    requires v.Dict? && keys != [] && Distinct(keys) && (forall k | k in keys :: k in v.fields) && PairFree(v)
    ensures ReadFields(ShowFields(v, keys) + rest) == Some((Part(v.fields, keys), rest))
    decreases v, 0, |keys|
  {
    var value := v.fields[keys[0]];
    assert PairFreeText(keys[0]) && PairFree(value);
    hide *;
    if |keys| == 1 {
      CloseStops(CLOSE_DICT, rest);
      ShownReads(value, [CLOSE_DICT] + rest);
      LastField(v, keys, rest);
    } else {
      var more := ShowFields(v, keys[1..]) + rest;
      CloseStops(COMMA, more);
      ShownReads(value, [COMMA] + more);
      FieldsRead(v, keys[1..], rest);
      NextFields(v, keys, rest);
    }
  }

  // ---------------------------------------------------------------- what canonical text promises

  /** A value's canonical text reads back as the value exactly when no text in it splits a surrogate pair. */
  lemma {:induction false} RoundTripIffPairFree(v: Value)
    ensures Read(Show(v)) == Some(v) <==> PairFree(v)
  {
    if PairFree(v) {
      ShownReads(v, []);
      assert Show(v) + [] == Show(v);
    }
  }

  /** Among values without split pairs, canonical texts are equal only for equal values. */
  lemma {:induction false} CanonicalTextsDiffer(v: Value, w: Value)
    requires PairFree(v) && PairFree(w) && Show(v) == Show(w)
    ensures v == w
  {
    RoundTripIffPairFree(v);
    RoundTripIffPairFree(w);
  }

  /** Whatever text a value was read from, its canonical text reads back as the value. */
  lemma {:induction false} ReadValuesRoundTrip(b: seq<Byte>)
    requires Read(b).Some?
    ensures Read(Show(Read(b).value)) == Read(b)
  {
    RoundTripIffPairFree(Read(b).value);
  }

  /** A split pair and the character it stands for have the same canonical text. */
  lemma {:induction false} SplitPairCollides()
    ensures Show(Str([0xD83D, 0xDE00])) == Show(Str([0x1_F600]))
    ensures Read(Show(Str([0xD83D, 0xDE00]))) == Some(Str([0x1_F600]))
  {
    var split: Text, whole: Text := [0xD83D, 0xDE00], [0x1_F600];
    assert split[1..] == [0xDE00] && split[1..][1..] == [] && whole[1..] == [];
    assert ShowCodes(split) == ShowCode(0xD83D) + (ShowCode(0xDE00) + [QUOTE]);
    assert ShowCodes(whole) == (ShowCode(0xD83D) + ShowCode(0xDE00)) + [QUOTE];
    Associates(ShowCode(0xD83D), ShowCode(0xDE00), [QUOTE]);
    assert PairFree(Str(whole));
    RoundTripIffPairFree(Str(whole));
  }
}
