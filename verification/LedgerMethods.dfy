/** The optional records of an action's method and effect: how what is sent becomes what is recorded. */
module LedgerMethods {
  import opened Common
  import opened LedgerModel

  const TEXT_LIMIT := 400

  const METHOD_KEYS: set<string> := {"skill_id", "version", "selection", "application", "reason"}
  const APPLICATIONS: set<string> := {"applied", "not_applied", "no_skill", "unavailable"}
  const UNAPPLIED: set<string> := {"not_applied", "no_skill", "unavailable"}

  const EFFECT_KEYS: set<string> := {"state", "candidate_disposition", "return_trigger", "note"}
  const EFFECT_STATES: set<string> := {"advanced", "no_effect", "recurred", "false_block", "unknown"}
  const EFFECT_DISPOSITIONS: set<string> :=
    {"reuse", "revise", "create", "merge", "narrow", "retire", "defer", "none"}

  const METHOD_VALUES: map<string, set<string>> := map["application" := APPLICATIONS]
  const EFFECT_VALUES: map<string, set<string>> :=
    map["state" := EFFECT_STATES, "candidate_disposition" := EFFECT_DISPOSITIONS]

  predicate Bounded(text: string) {
    !Blank(text) && |Strip(text)| <= TEXT_LIMIT
  }

  /** Fields that are null count as absent; the others hold bounded text. */
  predicate Texts(fields: map<string, Value>) {
    forall k | k in fields :: fields[k].Null? || (fields[k].Text? && Bounded(fields[k].text))
  }

  function Cleaned(fields: map<string, Value>): (r: map<string, Value>)
    requires Texts(fields)
    ensures r.Keys <= fields.Keys && Texts(r) && forall k | k in r :: r[k].Text?
  {
    var r := map k | k in fields && !fields[k].Null? :: Text(Strip(fields[k].text));
    assert forall k | k in r :: Bounded(r[k].text) by {
      forall k | k in r ensures Bounded(r[k].text) { StripTwice(fields[k].text); }
    }
    r
  }

  /** The fields that name one of some values do. */
  predicate ValuesAllowed(fields: map<string, Value>, values: map<string, set<string>>) {
    forall k | k in values && k in fields :: fields[k].Text? && fields[k].text in values[k]
  }

  /** What both validators do: text becomes a note, and an object is checked field by field. */
  function ValidateSheet(v: Annotation, keys: set<string>, values: map<string, set<string>>): Checked<Annotation> {
    match v
    case Note(text) => if Bounded(text) then Ok(Sheet(map["note" := Text(Strip(text))])) else Err(BadMethod)
    case Sheet(fields) =>
      if !(fields.Keys <= keys) then Err(UnsupportedFields)
      else if !Texts(fields) then Err(BadMethod)
      else if !ValuesAllowed(Cleaned(fields), values) then Err(BadMethod)
      else Ok(Sheet(Cleaned(fields)))
    case Absent => Err(BadMethod)
    case NotASheet(_) => Err(BadMethod)
  }

  predicate NeedsReason(fields: map<string, Value>) {
    "application" in fields && fields["application"].Text? && fields["application"].text in UNAPPLIED
  }

  /** `validate_method_record` */
  function ValidateMethod(v: Annotation): Checked<Annotation> {
    var r :- ValidateSheet(v, METHOD_KEYS, METHOD_VALUES);
    if r.Sheet? && NeedsReason(r.fields) && "reason" !in r.fields then Err(BadMethod) else Ok(r)
  }

  /** `validate_effect_record` */
  function ValidateEffect(v: Annotation): Checked<Annotation> {
    ValidateSheet(v, EFFECT_KEYS, EFFECT_VALUES)
  }

  // ---------------------------------------------------------------- exactly what is accepted

  /** The field is there, and is not null. */
  predicate Given(fields: map<string, Value>, key: string) {
    key in fields && !fields[key].Null?
  }

  /** Between one and four hundred characters are left once white space is stripped. */
  predicate ShortText(v: Value) {
    v.Text? && 1 <= |Strip(v.text)| <= 400
  }

  predicate SheetFits(fields: map<string, Value>, keys: set<string>) {
    fields.Keys <= keys && forall k | k in fields && Given(fields, k) :: ShortText(fields[k])
  }

  predicate GivenAs(fields: map<string, Value>, key: string, values: set<string>) {
    Given(fields, key) ==> fields[key].Text? && Strip(fields[key].text) in values
  }

  /** A method is a text, or an object with some of five texts. One that was not applied needs a reason. */
  predicate MethodFits(v: Annotation) {
    || (v.Note? && ShortText(Text(v.text)))
    || (v.Sheet?
        && SheetFits(v.fields, {"skill_id", "version", "selection", "application", "reason"})
        && GivenAs(v.fields, "application", {"applied", "not_applied", "no_skill", "unavailable"})
        && (Given(v.fields, "application") && !GivenAs(v.fields, "application", {"applied"}) ==>
              Given(v.fields, "reason")))
  }

  predicate EffectFits(v: Annotation) {
    || (v.Note? && ShortText(Text(v.text)))
    || (v.Sheet?
        && SheetFits(v.fields, {"state", "candidate_disposition", "return_trigger", "note"})
        && GivenAs(v.fields, "state", {"advanced", "no_effect", "recurred", "false_block", "unknown"})
        && GivenAs(v.fields, "candidate_disposition",
             {"reuse", "revise", "create", "merge", "narrow", "retire", "defer", "none"}))
  }

  /** What is kept: the texts that are given, stripped; and a text by itself as a note. */
  ghost predicate KeptAs(v: Annotation, r: Annotation) {
    && r.Sheet?
    && (v.Note? ==> r.fields == map["note" := Text(Strip(v.text))])
    && (v.Sheet? ==> forall k :: k in r.fields <==> Given(v.fields, k))
    && (v.Sheet? ==> forall k | k in r.fields :: v.fields[k].Text? && r.fields[k] == Text(Strip(v.fields[k].text)))
  }

  lemma {:induction false} SheetExactly(v: Annotation, keys: set<string>, values: map<string, set<string>>)
    ensures ValidateSheet(v, keys, values).Ok? <==>
      || (v.Note? && ShortText(Text(v.text)))
      || (v.Sheet? && SheetFits(v.fields, keys) && forall k | k in values :: GivenAs(v.fields, k, values[k]))
    ensures ValidateSheet(v, keys, values).Ok? ==> KeptAs(v, ValidateSheet(v, keys, values).value)
  {
    hide Strip;
    if v.Sheet? {
      assert Texts(v.fields) <==> forall k | k in v.fields && Given(v.fields, k) :: ShortText(v.fields[k]);
      if Texts(v.fields) {
        var kept := Cleaned(v.fields);
        assert forall k :: k in kept <==> Given(v.fields, k);
        hide Blank;
      }
    }
  }

  lemma {:induction false} MethodExactly(v: Annotation)
    ensures ValidateMethod(v).Ok? <==> MethodFits(v)
    ensures ValidateMethod(v).Ok? ==> KeptAs(v, ValidateMethod(v).value)
  {
    SheetExactly(v, METHOD_KEYS, METHOD_VALUES);
    hide ValidateSheet, Strip, SheetFits;
  }

  lemma {:induction false} EffectExactly(v: Annotation)
    ensures ValidateEffect(v).Ok? <==> EffectFits(v)
    ensures ValidateEffect(v).Ok? ==> KeptAs(v, ValidateEffect(v).value)
  {
    SheetExactly(v, EFFECT_KEYS, EFFECT_VALUES);
    assert |"state"| != |"candidate_disposition"|;
    assert EFFECT_VALUES["state"] == EFFECT_STATES && EFFECT_VALUES["candidate_disposition"] == EFFECT_DISPOSITIONS;
    hide GivenAs, ValidateSheet, Strip, SheetFits, KeptAs;
  }

  // ---------------------------------------------------------------- validating what was recorded

  lemma {:induction false} CleanedTwice(fields: map<string, Value>)
    requires Texts(fields)
    ensures Cleaned(Cleaned(fields)) == Cleaned(fields)
  {
    hide Strip, Bounded;
    var r := Cleaned(fields);
    forall k | k in r ensures Text(Strip(r[k].text)) == r[k] { StripTwice(fields[k].text); }
    assert Cleaned(r).Keys == r.Keys;
  }

  lemma {:induction false} NoteAgain(text: string)
    requires Bounded(text)
    ensures var note := map["note" := Text(Strip(text))]; Texts(note) && Cleaned(note) == note
  {
    StripTwice(text);
    hide Strip, Blank;
  }

  /** A recorded sheet is accepted again, unchanged, unless it is the note of a text and notes are no field. */
  lemma {:induction false} SheetAgain(
      v: Annotation, keys: set<string>, values: map<string, set<string>>, r: Annotation)
    requires ValidateSheet(v, keys, values) == Ok(r) && "note" !in values
    ensures r.Sheet?
    ensures v.Note? || "note" in keys || "note" !in r.fields
    ensures v.Note? ==> r.fields.Keys == {"note"}
    ensures ValidateSheet(r, keys, values) ==
      if v.Note? && "note" !in keys then Err(UnsupportedFields) else Ok(r)
  {
    hide Strip, Bounded, Cleaned;
    match v
    case Note(text) => NoteAgain(text);
    case Sheet(fields) => CleanedTwice(fields);
  }

  /** A recorded method is accepted again exactly when it holds no note. */
  lemma {:induction false} MethodAgain(v: Annotation, r: Annotation)
    requires ValidateMethod(v) == Ok(r)
    ensures r.Sheet?
    ensures ValidateMethod(r) == if "note" in r.fields then Err(UnsupportedFields) else Ok(r)
  {
    SheetAgain(v, METHOD_KEYS, METHOD_VALUES, r);
    hide ValidateSheet;
  }

  /** A recorded effect is always accepted again. */
  lemma {:induction false} EffectAgain(v: Annotation, r: Annotation)
    requires ValidateEffect(v) == Ok(r)
    ensures r.Sheet? && ValidateEffect(r) == Ok(r)
  {
    SheetAgain(v, EFFECT_KEYS, EFFECT_VALUES, r);
    hide ValidateSheet;
  }
}
