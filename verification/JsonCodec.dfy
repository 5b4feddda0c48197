/** The codec of the journal's lines: a record is a JSON object in canonical text, hashed without its own hash. */
module JsonCodec {
  import opened Common
  import opened JournalRecord
  import opened Journal
  import opened CanonicalJson

  /** A payload whose canonical text reads back. */
  type Payload = v: Value | PairFree(v) witness Null

  /** What a record says: the type of its event and the payload. */
  datatype Message = Message(eventType: string, payload: Payload)

  type Row = Record<Message>

  // ---------------------------------------------------------------- strings

  function Codes(s: string): (t: Text)
    ensures |t| == |s| && forall i | 0 <= i < |s| :: t[i] as int == s[i] as int
  {
    seq(|s|, i requires 0 <= i < |s| => s[i] as Code)
  }

  predicate Scalar(c: Code) { !High(c) && !Low(c) }

  function StringOf(v: Value): Option<string> {
    if v.Str? && forall i | 0 <= i < |v.text| :: Scalar(v.text[i]) then
      Some(seq(|v.text|, i requires 0 <= i < |v.text| => v.text[i] as char))
    else None
  }

  lemma {:induction false} StringRoundTrip(s: string)
    ensures StringOf(Str(Codes(s))) == Some(s) && PairFreeText(Codes(s))
  {
    var t := Codes(s);
    assert forall i | 0 <= i < |s| :: Scalar(t[i]) && t[i] as char == s[i];
    assert StringOf(Str(t)).value == s;
  }

  lemma {:induction false} CodesDiffer(s: string, t: string)
    requires Codes(s) == Codes(t)
    ensures s == t
  {
    StringRoundTrip(s);
    StringRoundTrip(t);
  }

  // ---------------------------------------------------------------- records as objects

  const HASH_NAME := "event_hash"

  const NAMES: set<string> :=
    {"schema", "seq", "event_id", "event_type", "actor_role", "timestamp_utc", "prev_hash", "payload", HASH_NAME}

  function FieldValue(r: Row, name: string): Value
    requires name in NAMES
  {
    if name == "schema" then Str(Codes(r.schema))
    else if name == "seq" then Number(r.seqNo)
    else if name == "event_id" then Str(Codes(r.eventId))
    else if name == "event_type" then Str(Codes(r.event.eventType))
    else if name == "actor_role" then Str(Codes(r.actorRole))
    else if name == "timestamp_utc" then Str(Codes(r.timestamp))
    else if name == "prev_hash" then Str(Codes(r.prevHash))
    else if name == "payload" then r.event.payload
    else Str(Codes(r.eventHash))
  }

  /** The object with the named fields of the record. */
  function Object(r: Row, names: set<string>): Value
    requires names <= NAMES
  {
    CodesInjective();
    Dict(map name | name in names :: Codes(name) := FieldValue(r, name))
  }

  lemma {:induction false} CodesInjective()
    ensures forall s, t :: Codes(s) == Codes(t) ==> s == t
  {
    forall s, t | Codes(s) == Codes(t) ensures s == t { CodesDiffer(s, t); }
  }

  function Lookup(fields: map<Text, Value>, name: string): Option<Value> {
    if Codes(name) in fields then Some(fields[Codes(name)]) else None
  }

  function LookupString(fields: map<Text, Value>, name: string): Option<string> {
    match Lookup(fields, name)
    case None => None
    case Some(v) => StringOf(v)
  }

  /** The record an object describes; the object has exactly the record's fields. */
  function FromObject(v: Value): Option<Row> {
    if !v.Dict? || v.fields.Keys != (set name | name in NAMES :: Codes(name)) then None
    else
      var number, payload := Lookup(v.fields, "seq").value, Lookup(v.fields, "payload").value;
      if !number.Number? || number.number < 0 || !PairFree(payload) then None
      else FromFields(v.fields, number.number, payload)
  }

  function FromFields(fields: map<Text, Value>, seqNo: nat, payload: Payload): Option<Row> {
    match (LookupString(fields, "schema"), LookupString(fields, "event_id"), LookupString(fields, "event_type"),
           LookupString(fields, "actor_role"), LookupString(fields, "timestamp_utc"),
           LookupString(fields, "prev_hash"), LookupString(fields, HASH_NAME))
    case (Some(schema), Some(eventId), Some(eventType), Some(role), Some(time), Some(prev), Some(hash)) =>
      Some(Record(schema, seqNo, eventId, role, time, prev, Message(eventType, payload), hash))
    case _ => None
  }

  lemma {:induction false} ObjectLookup(r: Row, names: set<string>, name: string)
    requires name in names && names <= NAMES
    ensures Lookup(Object(r, names).fields, name) == Some(FieldValue(r, name))
  {
    CodesInjective();
  }

  lemma {:induction false} ObjectPairFree(r: Row, names: set<string>)
    requires names <= NAMES
    ensures PairFree(Object(r, names))
  {
    var fields := Object(r, names).fields;
    forall k | k in fields ensures PairFreeText(k) && PairFree(fields[k]) {
      var name :| name in names && k == Codes(name);
      StringRoundTrip(name);
      ObjectLookup(r, names, name);
      FieldPairFree(r, name);
    }
  }

  lemma {:induction false} FieldPairFree(r: Row, name: string)
    requires name in NAMES
    ensures PairFree(FieldValue(r, name))
  {
    StringRoundTrip(r.schema);
    StringRoundTrip(r.eventId);
    StringRoundTrip(r.event.eventType);
    StringRoundTrip(r.actorRole);
    StringRoundTrip(r.timestamp);
    StringRoundTrip(r.prevHash);
    StringRoundTrip(r.eventHash);
  }

  lemma {:induction false} StringReads(r: Row, name: string, s: string)
    requires name in NAMES && FieldValue(r, name) == Str(Codes(s))
    ensures LookupString(Object(r, NAMES).fields, name) == Some(s)
  {
    ObjectLookup(r, NAMES, name);
    StringRoundTrip(s);
  }

  lemma {:induction false} FieldsRoundTrip(r: Row)
    ensures FromFields(Object(r, NAMES).fields, r.seqNo, r.event.payload) == Some(r)
  {
    hide Object, LookupString, Codes;
    StringReads(r, "schema", r.schema);
    StringReads(r, "event_id", r.eventId);
    StringReads(r, "event_type", r.event.eventType);
    StringReads(r, "actor_role", r.actorRole);
    StringReads(r, "timestamp_utc", r.timestamp);
    StringReads(r, "prev_hash", r.prevHash);
    StringReads(r, HASH_NAME, r.eventHash);
  }

  lemma {:induction false} ObjectRoundTrip(r: Row)
    ensures FromObject(Object(r, NAMES)) == Some(r)
  {
    hide Lookup, FromFields, Codes, PairFree;
    ObjectLookup(r, NAMES, "seq");
    ObjectLookup(r, NAMES, "payload");
    FieldsRoundTrip(r);
  }

  // ---------------------------------------------------------------- lines and hashes

  function Encode(r: Row): seq<Byte> {
    Show(Object(r, NAMES))
  }

  function Decode(b: seq<Byte>): Option<Row> {
    match Read(b)
    case None => None
    case Some(v) => FromObject(v)
  }

  /** The text that is hashed: the record without its hash. */
  function Hashed(r: Row): seq<Byte> {
    Show(Object(r, NAMES - {HASH_NAME}))
  }

  lemma {:induction false} PrintableIsOneLine(b: seq<Byte>)
    requires Printable(b)
    ensures NoBreaks(b)
  {
  }

  lemma {:induction false} ObjectReads(r: Row)
    ensures Read(Show(Object(r, NAMES))) == Some(Object(r, NAMES)) && FromObject(Object(r, NAMES)) == Some(r)
  {
    hide *;
    ObjectPairFree(r, NAMES);
    RoundTripIffPairFree(Object(r, NAMES));
    ObjectRoundTrip(r);
  }

  /** A record's line is printable ASCII, in particular one line, and reads back as the record. */
  lemma {:induction false} RecordRoundTrip(r: Row)
    ensures Decode(Encode(r)) == Some(r) && Printable(Encode(r)) && NoBreaks(Encode(r))
  {
    ObjectReads(r);
    hide Object, FromObject, Read, Show, Printable, NoBreaks;
    PrintableIsOneLine(Encode(r));
  }

  /** The hashed texts of two records are equal exactly when the records agree in everything but their hashes. */
  lemma {:induction false} HashedTextsDiffer(r: Row, r': Row)
    ensures Hashed(r) == Hashed(r') <==> r.(eventHash := "") == r'.(eventHash := "")
  {
    var names := NAMES - {HASH_NAME};
    var a, b := r.(eventHash := ""), r'.(eventHash := "");
    assert FieldValue(a, HASH_NAME) == FieldValue(b, HASH_NAME);
    hide Object, Keys, CanonicalJson.Show;
    assert Object(a, names) == Object(r, names) by { SameObject(a, r, names); }
    assert Object(b, names) == Object(r', names) by { SameObject(b, r', names); }
    if Hashed(r) == Hashed(r') {
      ObjectPairFree(r, names);
      ObjectPairFree(r', names);
      CanonicalTextsDiffer(Object(r, names), Object(r', names));
      forall name | name in NAMES ensures FieldValue(a, name) == FieldValue(b, name) {
        if name in names {
          ObjectLookup(a, names, name);
          ObjectLookup(b, names, name);
        }
      }
      SameFields(a, b);
    }
  }

  lemma {:induction false} SameObject(r: Row, r': Row, names: set<string>)
    requires names <= NAMES && forall name | name in names :: FieldValue(r, name) == FieldValue(r', name)
    ensures Object(r, names) == Object(r', names)
  {
    CodesInjective();
  }

  lemma {:induction false} SameFields(r: Row, r': Row)
    requires forall name | name in NAMES :: FieldValue(r, name) == FieldValue(r', name)
    ensures r == r'
  {
    SameObject(r, r', NAMES);
    ObjectRoundTrip(r);
    ObjectRoundTrip(r');
  }

  // ---------------------------------------------------------------- codecs of events

  /** How events of some kind are written as messages and read back. */
  datatype EventForm<!P> = EventForm(show: P -> Message, read: Message -> Option<P>)

  ghost predicate ReadsBack<P(!new)>(f: EventForm<P>) {
    forall e {:trigger f.show(e)} :: f.read(f.show(e)) == Some(e)
  }

  function RowOf<P>(f: EventForm<P>, r: Record<P>): Row {
    Record(r.schema, r.seqNo, r.eventId, r.actorRole, r.timestamp, r.prevHash, f.show(r.event), r.eventHash)
  }

  function FromRow<P>(f: EventForm<P>, r: Row): Option<Record<P>> {
    match f.read(r.event)
    case None => None
    case Some(e) => Some(Record(r.schema, r.seqNo, r.eventId, r.actorRole, r.timestamp, r.prevHash, e, r.eventHash))
  }

  function DecodeAs<P>(f: EventForm<P>, b: seq<Byte>): Option<Record<P>> {
    match Decode(b)
    case None => None
    case Some(r) => FromRow(f, r)
  }

  function CodecOf<P>(f: EventForm<P>, digest: seq<Byte> -> string): Codec<P> {
    Codec((r: Record<P>) => Encode(RowOf(f, r)), (b: seq<Byte>) => DecodeAs(f, b),
          (r: Record<P>) => digest(Hashed(RowOf(f, r))))
  }

  /** A digest without collisions that never yields the hash of the empty journal. */
  ghost predicate Digests(digest: seq<Byte> -> string) {
    && (forall a, b {:trigger digest(a), digest(b)} :: digest(a) == digest(b) ==> a == b)
    && (forall a {:trigger digest(a)} :: digest(a) != ZERO_HASH)
  }

  lemma {:induction false} RowsDiffer<P(!new)>(f: EventForm<P>, r: Record<P>, r': Record<P>)
    requires ReadsBack(f) && RowOf(f, r).(eventHash := "") == RowOf(f, r').(eventHash := "")
    ensures r.(eventHash := "") == r'.(eventHash := "")
  {
    assert f.read(f.show(r.event)) == Some(r.event) && f.read(f.show(r'.event)) == Some(r'.event);
  }

  /**
   * With such a digest, and events of any kind that read back from their messages, journals in canonical JSON
   * meet the assumptions of the journal's theorems.
   */
  lemma {:induction false} JsonJournalsAreFaithful<P(!new)>(f: EventForm<P>, digest: seq<Byte> -> string)
    requires ReadsBack(f) && Digests(digest)
    ensures Faithful(CodecOf(f, digest)) && CollisionFree(CodecOf(f, digest))
  {
    var c := CodecOf(f, digest);
    hide Encode, Decode, Hashed, NoBreaks, Printable;
    forall r: Record<P> ensures c.decode(c.encode(r)) == Some(r) && NoBreaks(c.encode(r)) {
      RecordRoundTrip(RowOf(f, r));
      assert f.read(f.show(r.event)) == Some(r.event);
    }
    forall r: Record<P>, r': Record<P> | c.hash(r) == c.hash(r')
      ensures r.(eventHash := "") == r'.(eventHash := "")
    {
      HashedTextsDiffer(RowOf(f, r), RowOf(f, r'));
      RowsDiffer(f, r, r');
    }
    assert forall r: Record<P> :: c.hash(r) == digest(Hashed(RowOf(f, r)));
  }

  /** Such digests exist: the text itself, marked. */
  lemma {:induction false} DigestsExist() returns (digest: seq<Byte> -> string)
    ensures Digests(digest)
  {
    digest := (b: seq<Byte>) => ['h'] + seq(|b|, i requires 0 <= i < |b| => b[i] as char);
    forall a: seq<Byte>, b: seq<Byte> | digest(a) == digest(b) ensures a == b {
      assert |digest(a)| == |a| + 1 && |digest(b)| == |b| + 1;
      forall i | 0 <= i < |a| ensures a[i] == b[i] {
        assert digest(a)[i + 1] == a[i] as char && digest(b)[i + 1] == b[i] as char;
      }
    }
    forall a: seq<Byte> ensures digest(a) != ZERO_HASH {
      assert digest(a)[0] == 'h' && ZERO_HASH[0] == '0';
    }
  }

  /** The assumptions of the journal's theorems can be met: by raw messages in canonical JSON. */
  lemma {:induction false} JsonCodecExists() returns (c: Codec<Message>)
    ensures Faithful(c) && CollisionFree(c)
  {
    var digest := DigestsExist();
    var f := EventForm((m: Message) => m, (m: Message) => Some(m));
    JsonJournalsAreFaithful(f, digest);
    c := CodecOf(f, digest);
  }
}
