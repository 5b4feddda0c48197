/** The journal as bytes: lines, the hash chain, scanning and the repair of a torn last line. */
module Journal {
  import opened Common
  import opened JournalRecord

  newtype Byte = x: int | 0 <= x < 256

  const LF: Byte := 10
  const CR: Byte := 13

  /** How records become lines, and how a record's hash is computed from the record without its hash. */
  datatype Codec<!P> = Codec(
    encode: Record<P> -> seq<Byte>, decode: seq<Byte> -> Option<Record<P>>, hash: Record<P> -> string)

  predicate NoBreaks(s: seq<Byte>) {
    LF !in s && CR !in s
  }

  /** Decoding inverts encoding, and an encoded record never spans lines. */
  ghost predicate Faithful<P(!new)>(c: Codec<P>) {
    forall r {:trigger c.encode(r)} :: c.decode(c.encode(r)) == Some(r) && NoBreaks(c.encode(r))
  }

  /**
   * Records that differ in more than their recorded hashes hash differently, and no record hashes to the hash
   * of the empty journal.
   */
  ghost predicate CollisionFree<P(!new)>(c: Codec<P>) {
    && (forall r: Record<P>, r': Record<P> {:trigger c.hash(r), c.hash(r')} ::
      c.hash(r) == c.hash(r') ==> r.(eventHash := "") == r'.(eventHash := ""))
    && (forall r {:trigger c.hash(r)} :: c.hash(r) != ZERO_HASH)
  }

  // ---------------------------------------------------------------- the chain

  function HashOf<P>(c: Codec<P>, r: Record<P>): string {
    c.hash(r.(eventHash := ""))
  }

  /** `r` is a well-formed successor of the records `rs`. */
  predicate Extends<P>(c: Codec<P>, rs: seq<Record<P>>, r: Record<P>) {
    r.schema == SCHEMA && r.seqNo == |rs| + 1 && r.prevHash == Head(rs) && r.eventHash == HashOf(c, r)
  }

  predicate ValidChain<P>(c: Codec<P>, rs: seq<Record<P>>) {
    rs == [] || (ValidChain(c, rs[..|rs| - 1]) && Extends(c, rs[..|rs| - 1], rs[|rs| - 1]))
  }

  /** A head hash commits to the whole history. */
  lemma {:induction false} HeadCommitsToHistory<P(!new)>(c: Codec<P>, rs: seq<Record<P>>, rs': seq<Record<P>>)
    requires CollisionFree(c) && ValidChain(c, rs) && ValidChain(c, rs')
    requires Head(rs) == Head(rs')
    ensures rs == rs'
  {
    if rs != [] && rs' != [] {
      var last, last' := rs[|rs| - 1], rs'[|rs'| - 1];
      assert last.(eventHash := "") == last'.(eventHash := "");
      assert last == last'.(eventHash := last.eventHash) == last';
      HeadCommitsToHistory(c, rs[..|rs| - 1], rs'[..|rs'| - 1]);
    }
  }

  lemma {:induction false} PrefixValid<P>(c: Codec<P>, rs: seq<Record<P>>, n: nat)
    requires ValidChain(c, rs) && n <= |rs|
    ensures ValidChain(c, rs[..n])
    ensures n < |rs| ==> Extends(c, rs[..n], rs[n])
  {
    if n == |rs| {
      assert rs[..n] == rs;
    } else {
      var front := rs[..|rs| - 1];
      PrefixValid(c, front, n);
      assert front[..n] == rs[..n];
      if n < |front| { assert front[n] == rs[n]; } else { assert front == rs[..n]; }
    }
  }

  /** Two records of one chain never name the same predecessor: an expected head is used up by one commit. */
  lemma {:induction false} PredecessorsDiffer<P(!new)>(c: Codec<P>, rs: seq<Record<P>>, i: nat, j: nat)
    requires CollisionFree(c) && ValidChain(c, rs) && i < j < |rs|
    ensures rs[i].prevHash != rs[j].prevHash
  {
    PrefixValid(c, rs, i);
    PrefixValid(c, rs, j);
    if rs[i].prevHash == rs[j].prevHash {
      HeadCommitsToHistory(c, rs[..i], rs[..j]);
    }
  }

  // ---------------------------------------------------------------- lines

  function Line<P>(c: Codec<P>, r: Record<P>): seq<Byte> {
    c.encode(r) + [LF]
  }

  function Encoded<P>(c: Codec<P>, rs: seq<Record<P>>): seq<Byte> {
    if rs == [] then [] else Encoded(c, rs[..|rs| - 1]) + Line(c, rs[|rs| - 1])
  }

  /** The length of the first line with its line end: LF, CR LF, a lone CR, or the end of the bytes. */
  function FirstLine(raw: seq<Byte>): (n: nat)
    requires raw != []
    ensures 0 < n <= |raw|
  {
    if raw[0] == LF then 1
    else if raw[0] == CR then if |raw| > 1 && raw[1] == LF then 2 else 1
    else if |raw| == 1 then 1
    else 1 + FirstLine(raw[1..])
  }

  /** The lines, each with its line end. */
  function SplitLines(raw: seq<Byte>): (lines: seq<seq<Byte>>)
    ensures Flatten(lines) == raw
  {
    if raw == [] then [] else
      var n := FirstLine(raw);
      [raw[..n]] + SplitLines(raw[n..])
  }

  lemma {:induction false} FirstLineAt(body: seq<Byte>, rest: seq<Byte>)
    requires NoBreaks(body)
    ensures FirstLine(body + [LF] + rest) == |body| + 1
  {
    var raw := body + [LF] + rest;
    if body == [] {
    } else {
      assert raw[0] == body[0] && body[0] in body;
      assert raw[1..] == body[1..] + [LF] + rest;
      assert forall b | b in body[1..] :: b in body;
      FirstLineAt(body[1..], rest);
    }
  }

  lemma {:induction false} FirstLineTail(tail: seq<Byte>)
    requires NoBreaks(tail) && tail != []
    ensures FirstLine(tail) == |tail|
  {
    assert tail[0] in tail;
    if |tail| > 1 {
      assert forall b | b in tail[1..] :: b in tail;
      FirstLineTail(tail[1..]);
    }
  }

  // ---------------------------------------------------------------- scanning

  datatype ScanError = ParseFailure | SchemaFailure | SequenceFailure | PreviousHashFailure | HashFailure

  /** `kept` bytes hold whole records; `tail` is the torn last line that was cut off, if any. */
  datatype Scan<P> =
    | Scanned(records: seq<Record<P>>, kept: nat, tail: Option<seq<Byte>>)
    | ScanFailed(error: ScanError)

  function CheckRecord<P>(c: Codec<P>, rs: seq<Record<P>>, r: Record<P>): Result<(), ScanError> {
    if r.schema != SCHEMA then Err(SchemaFailure)
    else if r.seqNo != |rs| + 1 then Err(SequenceFailure)
    else if r.prevHash != Head(rs) then Err(PreviousHashFailure)
    else if r.eventHash != HashOf(c, r) then Err(HashFailure)
    else Ok(())
  }

  predicate Complete(line: seq<Byte>) {
    line != [] && line[|line| - 1] == LF
  }

  function ScanFrom<P>(
    c: Codec<P>, lines: seq<seq<Byte>>, rs: seq<Record<P>>, kept: nat, repair: bool): Scan<P>
    decreases |lines|
  {
    if lines == [] then Scanned(rs, kept, None) else
      var line := lines[0];
      if !Complete(line) then
        if |lines| == 1 && repair then Scanned(rs, kept, Some(line)) else ScanFailed(ParseFailure)
      else
        var decoded := c.decode(line[..|line| - 1]);
        if decoded.None? then ScanFailed(ParseFailure)
        else
          var checked := CheckRecord(c, rs, decoded.value);
          if checked.Err? then ScanFailed(checked.error)
          else ScanFrom(c, lines[1..], rs + [decoded.value], kept + |line|, repair)
  }

  /** What scanning makes of one more line. */
  lemma {:induction false} ScanUnfolds<P>(
    c: Codec<P>, line: seq<Byte>, rest: seq<seq<Byte>>, rs: seq<Record<P>>, kept: nat, repair: bool)
    ensures var s := ScanFrom(c, [line] + rest, rs, kept, repair);
      if !Complete(line) then
        s == if rest == [] && repair then Scanned(rs, kept, Some(line)) else ScanFailed(ParseFailure)
      else
        var decoded := c.decode(line[..|line| - 1]);
        if decoded.None? then s == ScanFailed(ParseFailure)
        else if CheckRecord(c, rs, decoded.value).Err? then s == ScanFailed(CheckRecord(c, rs, decoded.value).error)
        else s == ScanFrom(c, rest, rs + [decoded.value], kept + |line|, repair)
  {
    hide CheckRecord;
    assert ([line] + rest)[1..] == rest;
  }

  function ScanBytes<P>(c: Codec<P>, raw: seq<Byte>, repair: bool): Scan<P> {
    ScanFrom(c, SplitLines(raw), [], 0, repair)
  }

  lemma {:induction false} ChainExtends<P>(c: Codec<P>, rs: seq<Record<P>>, r: Record<P>)
    requires ValidChain(c, rs) && Extends(c, rs, r)
    ensures ValidChain(c, rs + [r])
  {
    assert (rs + [r])[..|rs|] == rs;
  }

  lemma {:induction false} CheckedExtends<P>(c: Codec<P>, rs: seq<Record<P>>, r: Record<P>)
    ensures CheckRecord(c, rs, r).Ok? <==> Extends(c, rs, r)
  {
    hide HashOf, Head;
  }

  /** A successful scan returns a valid chain, whatever the bytes were. */
  lemma {:induction false} ScanReturnsChain<P>(
    c: Codec<P>, lines: seq<seq<Byte>>, rs: seq<Record<P>>, kept: nat, repair: bool)
    requires ValidChain(c, rs)
    ensures var s := ScanFrom(c, lines, rs, kept, repair); s.Scanned? ==> ValidChain(c, s.records) && rs <= s.records
    decreases |lines|
  {
    if lines != [] && Complete(lines[0]) {
      var decoded := c.decode(lines[0][..|lines[0]| - 1]);
      if decoded.Some? && CheckRecord(c, rs, decoded.value).Ok? {
        CheckedExtends(c, rs, decoded.value);
        ChainExtends(c, rs, decoded.value);
        hide CheckRecord, ValidChain, HashOf, Extends;
        ScanReturnsChain(c, lines[1..], rs + [decoded.value], kept + |lines[0]|, repair);
      }
    }
  }

  /** The bytes of the records from index `n` on. */
  function EncodedFrom<P>(c: Codec<P>, rs: seq<Record<P>>, n: nat): seq<Byte>
    requires n <= |rs|
    decreases |rs| - n
  {
    if n == |rs| then [] else Line(c, rs[n]) + EncodedFrom(c, rs, n + 1)
  }

  lemma {:induction false} EncodedSplits<P>(c: Codec<P>, rs: seq<Record<P>>, n: nat)
    requires n <= |rs|
    ensures Encoded(c, rs) == Encoded(c, rs[..n]) + EncodedFrom(c, rs, n)
    decreases |rs| - n
  {
    if n == |rs| {
      assert rs[..n] == rs;
    } else {
      EncodedSplits(c, rs, n + 1);
      assert rs[..n + 1][..n] == rs[..n];
      assert Encoded(c, rs[..n + 1]) == Encoded(c, rs[..n]) + Line(c, rs[n]);
    }
  }

  lemma {:induction false} SplitFirstLine(body: seq<Byte>, rest: seq<Byte>)
    requires NoBreaks(body)
    ensures SplitLines(body + [LF] + rest) == [body + [LF]] + SplitLines(rest)
  {
    var raw := body + [LF] + rest;
    FirstLineAt(body, rest);
    assert raw[..|body| + 1] == body + [LF] && raw[|body| + 1..] == rest;
  }

  lemma {:induction false} SplitNothing()
    ensures SplitLines([]) == []
  {
  }

  lemma {:induction false} SplitTail(tail: seq<Byte>)
    requires NoBreaks(tail) && tail != []
    ensures SplitLines(tail) == [tail] && !Complete(tail)
  {
    FirstLineTail(tail);
    assert tail[..|tail|] == tail && tail[|tail|..] == [];
    assert SplitLines([]) == [];
    assert tail[|tail| - 1] in tail;
  }

  lemma {:induction false} ScanOneLine<P(!new)>(
    c: Codec<P>, lines: seq<seq<Byte>>, rs: seq<Record<P>>, r: Record<P>, kept: nat, repair: bool)
    requires Faithful(c) && Extends(c, rs, r)
    ensures ScanFrom(c, [Line(c, r)] + lines, rs, kept, repair) ==
      ScanFrom(c, lines, rs + [r], kept + |Line(c, r)|, repair)
  {
    var line := Line(c, r);
    assert line[..|line| - 1] == c.encode(r);
    assert c.decode(c.encode(r)) == Some(r);
    assert ([line] + lines)[1..] == lines;
  }

  /** What the repairing or plain scan makes of whole records followed by a torn tail. */
  function TornScan<P>(rs: seq<Record<P>>, kept: nat, tail: seq<Byte>, repair: bool): Scan<P> {
    if tail == [] then Scanned(rs, kept, None)
    else if repair then Scanned(rs, kept, Some(tail))
    else ScanFailed(ParseFailure)
  }

  lemma {:induction false} ScanTail<P>(c: Codec<P>, rs: seq<Record<P>>, tail: seq<Byte>, kept: nat, repair: bool)
    requires NoBreaks(tail)
    ensures ScanFrom(c, SplitLines(tail), rs, kept, repair) == TornScan(rs, kept, tail, repair)
  {
    hide SplitLines;
    if tail != [] { SplitTail(tail); } else { SplitNothing(); }
  }

  lemma {:induction false} ScanNext<P(!new)>(
    c: Codec<P>, rs: seq<Record<P>>, r: Record<P>, rest: seq<Byte>, kept: nat, repair: bool)
    requires Faithful(c) && Extends(c, rs, r)
    ensures ScanFrom(c, SplitLines(Line(c, r) + rest), rs, kept, repair)
         == ScanFrom(c, SplitLines(rest), rs + [r], kept + |Line(c, r)|, repair)
  {
    var body := c.encode(r);
    assert NoBreaks(body) && Line(c, r) + rest == body + [LF] + rest;
    hide ScanFrom, SplitLines, NoBreaks, Extends;
    SplitFirstLine(body, rest);
    ScanOneLine(c, SplitLines(rest), rs, r, kept, repair);
  }

  ghost predicate ScansTo<P>(
      c: Codec<P>, raw: seq<Byte>, before: seq<Record<P>>, kept: nat, repair: bool, result: Scan<P>) {
    ScanFrom(c, SplitLines(raw), before, kept, repair) == result
  }

  lemma {:induction false} ScanCommittedFrom<P(!new)>(
    c: Codec<P>, rs: seq<Record<P>>, n: nat, tail: seq<Byte>, kept: nat, repair: bool)
    requires Faithful(c) && ValidChain(c, rs) && n <= |rs| && NoBreaks(tail)
    ensures ScansTo(c, EncodedFrom(c, rs, n) + tail, rs[..n], kept, repair,
                    TornScan(rs, kept + |EncodedFrom(c, rs, n)|, tail, repair))
    decreases |rs| - n
  {
    hide ScanFrom, SplitLines, ValidChain, NoBreaks, TornScan, Extends, Faithful;
    if n == |rs| {
      assert EncodedFrom(c, rs, n) + tail == tail;
      assert rs[..n] == rs;
      ScanTail(c, rs, tail, kept, repair);
    } else {
      var line, rest := Line(c, rs[n]), EncodedFrom(c, rs, n + 1) + tail;
      ScanCommittedFrom(c, rs, n + 1, tail, kept + |line|, repair);
      PrefixValid(c, rs, n);
      ScanNext(c, rs[..n], rs[n], rest, kept, repair);
      assert rs[..n] + [rs[n]] == rs[..n + 1];
      assert EncodedFrom(c, rs, n) + tail == line + rest;
    }
  }

  lemma {:induction false} EncodedFromStart<P>(c: Codec<P>, rs: seq<Record<P>>)
    ensures Encoded(c, rs) == EncodedFrom(c, rs, 0)
  {
    EncodedSplits(c, rs, 0);
    assert rs[..0] == [];
    assert Encoded(c, rs[..0]) == [];
  }

  /**
   * Whatever part of a line follows the committed records, a repairing scan returns exactly those records
   * and cuts exactly that part; without repair it refuses.
   */
  lemma {:induction false} ScanOfCommitted<P(!new)>(c: Codec<P>, rs: seq<Record<P>>, tail: seq<Byte>, repair: bool)
    requires Faithful(c) && ValidChain(c, rs) && NoBreaks(tail)
    ensures ScanBytes(c, Encoded(c, rs) + tail, repair) == TornScan(rs, |Encoded(c, rs)|, tail, repair)
  {
    assert rs[..0] == [];
    EncodedFromStart(c, rs);
    hide ScanFrom, SplitLines, ValidChain, NoBreaks, EncodedFrom, Encoded, TornScan;
    ScanCommittedFrom(c, rs, 0, tail, 0, repair);
    assert ScansTo(c, Encoded(c, rs) + tail, [], 0, repair, TornScan(rs, |Encoded(c, rs)|, tail, repair));
  }

  // ---------------------------------------------------------------- scanning accounts for every byte

  /** The first line is what comes before the first break, with the break: LF, CR LF, CR, or the end of the bytes. */
  predicate FirstBreak(raw: seq<Byte>, n: nat) {
    && n <= |raw|
    && exists k :: 0 <= k <= n && NoBreaks(raw[..k]) && BreakAt(raw, k, n)
  }

  predicate BreakAt(raw: seq<Byte>, k: nat, n: nat)
    requires k <= n <= |raw|
  {
    || (n == |raw| == k)
    || (n == k + 1 && raw[k] == LF)
    || (n == k + 2 && raw[k] == CR && raw[k + 1] == LF)
    || (n == k + 1 && raw[k] == CR && (n < |raw| ==> raw[n] != LF))
  }

  lemma {:induction false} FirstLineBreaks(raw: seq<Byte>)
    requires raw != []
    ensures FirstBreak(raw, FirstLine(raw))
  {
    var n := FirstLine(raw);
    if raw[0] == LF || raw[0] == CR {
      assert NoBreaks(raw[..0]) && BreakAt(raw, 0, n);
    } else if |raw| == 1 {
      assert raw[..1] == [raw[0]];
      assert NoBreaks(raw[..1]) && BreakAt(raw, 1, n);
    } else {
      var rest := raw[1..];
      FirstLineBreaks(rest);
      var m := FirstLine(rest);
      var k :| 0 <= k <= m && NoBreaks(rest[..k]) && BreakAt(rest, k, m);
      assert raw[..k + 1] == [raw[0]] + rest[..k];
      assert NoBreaks(raw[..k + 1]) && BreakAt(raw, k + 1, n);
    }
  }

  /** These lines are read as these records, one each. */
  predicate LinesRead<P(==)>(c: Codec<P>, lines: seq<seq<Byte>>, rs: seq<Record<P>>) {
    && |lines| == |rs|
    && forall i | 0 <= i < |rs| ::
         Complete(lines[i]) && c.decode(lines[i][..|lines[i]| - 1]) == Some(rs[i])
  }

  /** All lines are records of one chain, but for a torn last line, which only a repairing scan cuts. */
  ghost predicate Accounts<P>(
    c: Codec<P>, lines: seq<seq<Byte>>, before: seq<Record<P>>, more: seq<Record<P>>, tail: Option<seq<Byte>>,
    repair: bool)
  {
    && ValidChain(c, before + more)
    && if tail.None? then LinesRead(c, lines, more)
       else
         && repair && lines != [] && lines[|lines| - 1] == tail.value && !Complete(tail.value)
         && LinesRead(c, lines[..|lines| - 1], more)
  }

  lemma {:induction false} LinesReadNext<P>(
      c: Codec<P>, line: seq<Byte>, rest: seq<seq<Byte>>, r: Record<P>, more: seq<Record<P>>)
    requires Complete(line) && c.decode(line[..|line| - 1]) == Some(r) && LinesRead(c, rest, more)
    ensures LinesRead(c, [line] + rest, [r] + more)
  {
  }

  lemma {:induction false} AccountsNext<P>(
      c: Codec<P>, line: seq<Byte>, rest: seq<seq<Byte>>, rs: seq<Record<P>>, r: Record<P>, all: seq<Record<P>>,
      tail: Option<seq<Byte>>, repair: bool)
    requires Complete(line) && c.decode(line[..|line| - 1]) == Some(r)
    requires rs + [r] <= all && Accounts(c, rest, rs + [r], all[|rs| + 1..], tail, repair)
    ensures rs <= all && Accounts(c, [line] + rest, rs, all[|rs|..], tail, repair)
  {
    hide ValidChain, Complete, LinesRead;
    assert all[|rs|..] == [r] + all[|rs| + 1..];
    assert rs + all[|rs|..] == all == rs + [r] + all[|rs| + 1..];
    if tail.None? {
      LinesReadNext(c, line, rest, r, all[|rs| + 1..]);
    } else {
      assert ([line] + rest)[..|rest|] == [line] + rest[..|rest| - 1];
      LinesReadNext(c, line, rest[..|rest| - 1], r, all[|rs| + 1..]);
    }
  }

  lemma {:induction false} ScanNothing<P>(c: Codec<P>, rs: seq<Record<P>>, kept: nat, repair: bool)
    ensures ScanFrom(c, [], rs, kept, repair) == Scanned(rs, kept, None)
    ensures ValidChain(c, rs) ==> Accounts(c, [], rs, [], None, repair)
  {
    assert rs + [] == rs;
  }

  lemma {:induction false} TornLeft<P>(c: Codec<P>, line: seq<Byte>, rs: seq<Record<P>>)
    requires ValidChain(c, rs) && !Complete(line)
    ensures Accounts(c, [line], rs, [], Some(line), true)
  {
    assert rs + [] == rs && [line][..0] == [];
  }

  /** A torn line is cut only when it is the last one. */
  lemma {:induction false} ScanTorn<P>(
    c: Codec<P>, line: seq<Byte>, rest: seq<seq<Byte>>, rs: seq<Record<P>>, kept: nat, repair: bool)
    requires ValidChain(c, rs) && !Complete(line) && ScanFrom(c, [line] + rest, rs, kept, repair).Scanned?
    ensures rest == [] && ScanFrom(c, [line] + rest, rs, kept, repair) == Scanned(rs, kept, Some(line))
    ensures Accounts(c, [line], rs, [], Some(line), repair)
  {
    ScanUnfolds(c, line, rest, rs, kept, repair);
    hide *;
    TornLeft(c, line, rs);
  }

  /** A whole line that is a record of the chain, and then the rest. */
  lemma {:induction false} ScanStep<P>(
    c: Codec<P>, line: seq<Byte>, rest: seq<seq<Byte>>, rs: seq<Record<P>>, kept: nat, repair: bool)
    returns (r: Record<P>)
    requires ValidChain(c, rs) && Complete(line) && ScanFrom(c, [line] + rest, rs, kept, repair).Scanned?
    ensures c.decode(line[..|line| - 1]) == Some(r) && ValidChain(c, rs + [r])
    ensures ScanFrom(c, [line] + rest, rs, kept, repair) == ScanFrom(c, rest, rs + [r], kept + |line|, repair)
  {
    ScanUnfolds(c, line, rest, rs, kept, repair);
    r := c.decode(line[..|line| - 1]).value;
    hide ScanFrom, ValidChain, Complete;
    CheckedExtends(c, rs, r);
    ChainExtends(c, rs, r);
    hide CheckRecord, Extends;
  }

  /** A scan that succeeds has read every line. */
  lemma {:induction false} ScanAccounts<P>(
    c: Codec<P>, lines: seq<seq<Byte>>, rs: seq<Record<P>>, kept: nat, repair: bool)
    requires ValidChain(c, rs) && ScanFrom(c, lines, rs, kept, repair).Scanned?
    ensures var s := ScanFrom(c, lines, rs, kept, repair);
      rs <= s.records && Accounts(c, lines, rs, s.records[|rs|..], s.tail, repair)
    decreases |lines|
  {
    hide *;
    var s := ScanFrom(c, lines, rs, kept, repair);
    if lines == [] {
      ScanNothing(c, rs, kept, repair);
      assert s.records[|rs|..] == [];
    } else {
      var line, rest := lines[0], lines[1..];
      assert lines == [line] + rest;
      if Complete(line) {
        var r := ScanStep(c, line, rest, rs, kept, repair);
        ScanAccounts(c, rest, rs + [r], kept + |line|, repair);
        AccountsNext(c, line, rest, rs, r, s.records, s.tail, repair);
      } else {
        ScanTorn(c, line, rest, rs, kept, repair);
        assert s.records[|rs|..] == [] && lines == [line];
      }
    }
  }

  function WholeLines(lines: seq<seq<Byte>>, tail: Option<seq<Byte>>): seq<seq<Byte>> {
    if tail.None? || lines == [] then lines else lines[..|lines| - 1]
  }

  lemma {:induction false} WholeOnly(line: seq<Byte>)
    ensures Flatten(WholeLines([], None)) == [] && Flatten(WholeLines([line], Some(line))) == []
  {
    assert [line][..0] == [];
  }

  lemma {:induction false} WholeNext(line: seq<Byte>, rest: seq<seq<Byte>>, tail: Option<seq<Byte>>)
    requires tail.Some? ==> rest != []
    ensures Flatten(WholeLines([line] + rest, tail)) == line + Flatten(WholeLines(rest, tail))
  {
    assert WholeLines([line] + rest, tail) == [line] + WholeLines(rest, tail);
    hide *;
    FlattenHead(line, WholeLines(rest, tail));
  }

  /** What is kept is what the whole lines hold. */
  lemma {:induction false} ScanKeeps<P>(
    c: Codec<P>, lines: seq<seq<Byte>>, rs: seq<Record<P>>, kept: nat, repair: bool)
    requires ValidChain(c, rs) && ScanFrom(c, lines, rs, kept, repair).Scanned?
    ensures var s := ScanFrom(c, lines, rs, kept, repair);
      (s.tail.Some? ==> lines != []) && s.kept == kept + |Flatten(WholeLines(lines, s.tail))|
    decreases |lines|
  {
    hide *;
    if lines == [] {
      ScanNothing(c, rs, kept, repair);
      WholeOnly([]);
    } else {
      var line, rest := lines[0], lines[1..];
      assert lines == [line] + rest;
      if Complete(line) {
        var r := ScanStep(c, line, rest, rs, kept, repair);
        ScanKeeps(c, rest, rs + [r], kept + |line|, repair);
        WholeNext(line, rest, ScanFrom(c, lines, rs, kept, repair).tail);
      } else {
        ScanTorn(c, line, rest, rs, kept, repair);
        assert lines == [line];
        WholeOnly(line);
      }
    }
  }

  lemma {:induction false} LinesFirst<P>(
      c: Codec<P>, line: seq<Byte>, rest: seq<seq<Byte>>, more: seq<Record<P>>)
    requires LinesRead(c, [line] + rest, more)
    ensures more != [] && Complete(line) && c.decode(line[..|line| - 1]) == Some(more[0])
    ensures LinesRead(c, rest, more[1..])
  {
    var lines := [line] + rest;
    assert lines[0] == line;
    forall i | 0 <= i < |rest| ensures rest[i] == lines[i + 1] && more[1..][i] == more[i + 1] {}
    hide Complete;
  }

  lemma {:induction false} ChainFirst<P>(c: Codec<P>, rs: seq<Record<P>>, more: seq<Record<P>>)
    requires more != [] && ValidChain(c, rs + more)
    ensures CheckRecord(c, rs, more[0]).Ok? && ValidChain(c, rs + [more[0]] + more[1..])
  {
    hide ValidChain, CheckRecord, Extends;
    var all := rs + more;
    assert all == rs + [more[0]] + more[1..];
    PrefixValid(c, all, |rs|);
    assert all[..|rs|] == rs && all[|rs|] == more[0];
    CheckedExtends(c, rs, more[0]);
  }

  lemma {:induction false} AccountsFirst<P>(
    c: Codec<P>, line: seq<Byte>, rest: seq<seq<Byte>>, rs: seq<Record<P>>, more: seq<Record<P>>,
    tail: Option<seq<Byte>>, repair: bool)
    requires Accounts(c, [line] + rest, rs, more, tail, repair) && (tail.Some? ==> rest != [])
    ensures more != [] && Complete(line) && c.decode(line[..|line| - 1]) == Some(more[0])
    ensures CheckRecord(c, rs, more[0]).Ok? && Accounts(c, rest, rs + [more[0]], more[1..], tail, repair)
  {
    var lines := [line] + rest;
    hide ValidChain, CheckRecord, Complete, LinesRead;
    if tail.None? {
      LinesFirst(c, line, rest, more);
    } else {
      assert lines[..|lines| - 1] == [line] + rest[..|rest| - 1];
      LinesFirst(c, line, rest[..|rest| - 1], more);
    }
    ChainFirst(c, rs, more);
  }

  lemma {:induction false} TornIsScanned<P>(
      c: Codec<P>, line: seq<Byte>, rs: seq<Record<P>>, more: seq<Record<P>>, tail: Option<seq<Byte>>, kept: nat,
      repair: bool)
    requires Accounts(c, [line], rs, more, tail, repair) && tail.Some?
    ensures ScanFrom(c, [line], rs, kept, repair).Scanned?
  {
    hide ValidChain, LinesRead, ScanFrom;
    assert [line] == [line] + [] && !Complete(line) && repair;
    hide Complete;
    ScanUnfolds(c, line, [], rs, kept, repair);
  }

  /** Nothing else makes a scan fail: lines that are accounted for are scanned. */
  lemma {:induction false} AccountedIsScanned<P>(
    c: Codec<P>, lines: seq<seq<Byte>>, rs: seq<Record<P>>, more: seq<Record<P>>, tail: Option<seq<Byte>>, kept: nat,
    repair: bool)
    requires Accounts(c, lines, rs, more, tail, repair)
    ensures ScanFrom(c, lines, rs, kept, repair).Scanned?
    decreases |lines|
  {
    hide *;
    if lines == [] {
      ScanNothing(c, rs, kept, repair);
    } else {
      var line, rest := lines[0], lines[1..];
      assert lines == [line] + rest;
      if rest == [] && tail.Some? {
        assert lines == [line];
        TornIsScanned(c, line, rs, more, tail, kept, repair);
      } else {
        AccountsFirst(c, line, rest, rs, more, tail, repair);
        ScanUnfolds(c, line, rest, rs, kept, repair);
        AccountedIsScanned(c, rest, rs + [more[0]], more[1..], tail, kept + |line|, repair);
      }
    }
  }

  /**
   * Whatever the bytes: they scan if and only if their lines are the records of a chain, but for a torn last line
   * that may be cut; and then nothing is skipped.
   */
  lemma {:induction false} ScanExactly<P(!new)>(c: Codec<P>, raw: seq<Byte>, repair: bool)
    ensures var s := ScanBytes(c, raw, repair);
      && (s.Scanned? <==> exists rs, tail :: Accounts(c, SplitLines(raw), [], rs, tail, repair))
      && (s.Scanned? ==>
            && Accounts(c, SplitLines(raw), [], s.records, s.tail, repair)
            && s.kept <= |raw| && raw == raw[..s.kept] + if s.tail.None? then [] else s.tail.value)
  {
    var lines := SplitLines(raw);
    var s := ScanBytes(c, raw, repair);
    hide ScanFrom, Accounts, SplitLines;
    if s.Scanned? {
      ScanAccounts(c, lines, [], 0, repair);
      ScanKeeps(c, lines, [], 0, repair);
      assert s.records[0..] == s.records;
      KeptAndTail(c, raw, s.records, s.tail, repair);
    }
    forall rs, tail | Accounts(c, lines, [], rs, tail, repair) ensures s.Scanned? {
      AccountedIsScanned(c, lines, [], rs, tail, 0, repair);
    }
  }

  lemma {:induction false} KeptAndTail<P>(
      c: Codec<P>, raw: seq<Byte>, rs: seq<Record<P>>, tail: Option<seq<Byte>>, repair: bool)
    requires Accounts(c, SplitLines(raw), [], rs, tail, repair)
    ensures var lines := SplitLines(raw);
      raw == Flatten(WholeLines(lines, tail)) + if tail.None? then [] else tail.value
  {
    var lines := SplitLines(raw);
    hide ValidChain, LinesRead, Complete, SplitLines;
    if tail.Some? {
      assert lines == lines[..|lines| - 1] + [tail.value];
      FlattenOneMore(lines[..|lines| - 1], tail.value);
    }
  }
}
