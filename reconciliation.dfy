/**
 * The decision chain of the photo handler: from the parsed answer to a save
 * request and the reply text, with Python's semantics for truthiness,
 * `dict.get`, `is not None` and the AttributeError raised by `.get` on
 * anything that is not a dict.
 */
module Reconciliation {
  import opened Wrappers
  import opened JsonValue

  const StatusKey: Key := StrKey("status")
  const ValuesKey: Key := StrKey("values")
  const SbpKey: Key := StrKey("SBP")
  const DbpKey: Key := StrKey("DBP")
  const HrKey: Key := StrKey("HR")
  const SuccessStatus: Json := JStr("success")

  /** A line of the partial reply: the value, or "N/A". */
  datatype Field = NotAvailable | Shown(value: Json)

  /**
   * The reply sent at the end of processing, by branch, with the values it
   * interpolates; the Markdown wording and the traceback text are not modelled.
   */
  datatype Reply =
    | Extracted(systolic: Json, diastolic: Json, heartRate: Json, saved: bool)
    | PartialReading(sbpText: Field, dbpText: Field, hrText: Field)
    | CouldNotRead
    | SomethingWrong(data: Json)
    | ErrorEncountered

  /** Either a request to save three values, whose reply depends on the save, or a final reply. */
  datatype Decision =
    | Save(sbp: Json, dbp: Json, hr: Json)
    | Answer(reply: Reply)

  // Reference predicates: the cases of the chain, stated on the data directly.

  /** `data` is a dict whose "status" is the string "success". */
  predicate HasSuccessStatus(data: Json) {
    data.JObj? && StatusKey in data.fields && data.fields[StatusKey] == SuccessStatus
  }

  /** `data.get('values', {})` for such a dict. */
  function ValuesOf(data: Json): Json
    requires data.JObj?
  {
    if ValuesKey in data.fields then data.fields[ValuesKey] else JObj(map[])
  }

  /** `values.get(k) is not None`: the key is there and its value is not null. */
  predicate Present(values: Json, k: Key) {
    values.JObj? && k in values.fields && values.fields[k] != JNull
  }

  predicate CompleteReading(data: Json) {
    && HasSuccessStatus(data)
    && Present(ValuesOf(data), SbpKey)
    && Present(ValuesOf(data), DbpKey)
    && Present(ValuesOf(data), HrKey)
  }

  /** Evaluating the chain raises: `.get` is called on a value that is not a dict. */
  predicate Raises(data: Json) {
    || (Truthy(data) && !data.JObj?)
    || (HasSuccessStatus(data) && !ValuesOf(data).JObj?)
  }

  /** The `elif` as written reads the key `False`, not "status". */
  predicate FalseKeyTruthy(data: Json) {
    data.JObj? && FalseKey in data.fields && Truthy(data.fields[FalseKey])
  }

  /** `values.get(k)` rendered for the partial reply. */
  function FieldText(values: Json, k: Key): (f: Field)
    requires values.JObj?
    ensures f == NotAvailable <==> !Present(values, k)
    ensures f.Shown? ==> f.value == values.fields[k]
  {
    match Get(values, k, JNull)
    case Some(v) => if v != JNull then Shown(v) else NotAvailable
    case None => NotAvailable
  }

  /** The `elif` and `else` branches, reached when the first test is false. */
  function Fallback(data: Json): (d: Decision)
    ensures d.Answer?
    // `.get(False)` on a truthy value that is not a dict raises
    ensures d == Answer(ErrorEncountered) <==> Truthy(data) && !data.JObj?
    // the `elif` as written: a truthy value under the key False
    ensures d == Answer(CouldNotRead) <==> FalseKeyTruthy(data)
    ensures d.reply.SomethingWrong? ==> d.reply.data == data
    ensures d == Answer(SomethingWrong(data)) <==> !Truthy(data) || (data.JObj? && !FalseKeyTruthy(data))
  {
    if !Truthy(data) then Answer(SomethingWrong(data))
    else
      match Get(data, FalseKey, JNull)
      case None => Answer(ErrorEncountered)
      case Some(flag) => if Truthy(flag) then Answer(CouldNotRead) else Answer(SomethingWrong(data))
  }

  /**
   * The chain of `if bp_data and bp_data.get('status') == "success"`, the
   * completeness test on the three values, the `elif` (as written: it looks
   * up the key `False`) and the `else`, under the `except` that turns an
   * AttributeError into the error reply.
   */
  function Reconcile(data: Json): (d: Decision)
    // a save is requested exactly for a complete successful reading, with its three values
    ensures d.Save? <==> CompleteReading(data)
    ensures d.Save? ==>
      var v := ValuesOf(data).fields;
      d == Save(v[SbpKey], v[DbpKey], v[HrKey])
    // the partial reply: a successful reading with a dict of values, some missing
    ensures (d.Answer? && d.reply.PartialReading?) <==>
      HasSuccessStatus(data) && ValuesOf(data).JObj? && !CompleteReading(data)
    ensures d.Answer? && d.reply.PartialReading? ==>
      d.reply == PartialReading(FieldText(ValuesOf(data), SbpKey), FieldText(ValuesOf(data), DbpKey), FieldText(ValuesOf(data), HrKey))
    // the exception path
    ensures d == Answer(ErrorEncountered) <==> Raises(data)
    // "couldn't read" needs a truthy value under the key False
    ensures d == Answer(CouldNotRead) <==> Truthy(data) && !HasSuccessStatus(data) && FalseKeyTruthy(data)
    ensures StringKeyed(data) ==> d != Answer(CouldNotRead)
    // the generic reply carries the data
    ensures d.Answer? && d.reply.SomethingWrong? ==> d.reply.data == data
    ensures d == Answer(SomethingWrong(data)) <==>
      !Truthy(data) || (data.JObj? && !HasSuccessStatus(data) && !FalseKeyTruthy(data))
    // the saved/not-saved reply only follows a save
    ensures d.Answer? ==> !d.reply.Extracted?
  {
    if !Truthy(data) then Fallback(data)
    else
      match Get(data, StatusKey, JNull)
      case None => Answer(ErrorEncountered)
      case Some(status) =>
        if status != SuccessStatus then Fallback(data)
        else
          match Get(data, ValuesKey, JObj(map[]))
          case None => Answer(ErrorEncountered)
          case Some(values) =>
            match Get(values, SbpKey, JNull)
            case None => Answer(ErrorEncountered)
            case Some(sbp) =>
              var dbp := Get(values, DbpKey, JNull).value;
              var hr := Get(values, HrKey, JNull).value;
              if sbp != JNull && dbp != JNull && hr != JNull then Save(sbp, dbp, hr)
              else Answer(PartialReading(FieldText(values, SbpKey), FieldText(values, DbpKey), FieldText(values, HrKey)))
  }

  /**
   * The reply once a requested save has returned `saved`: the extracted
   * values with the "saved" or "could not save" note.
   */
  function Finish(d: Decision, saved: bool): (r: Reply)
    // a save request is answered with its three values and the outcome of the save
    ensures d.Save? ==> r == Extracted(d.sbp, d.dbp, d.hr, saved)
    // any other decision already holds its reply
    ensures d.Answer? ==> r == d.reply
  {
    match d
    case Save(sbp, dbp, hr) => Extracted(sbp, dbp, hr, saved)
    case Answer(reply) => reply
  }

  /** The saved/not-saved reply follows exactly the complete readings, and its note is the save's outcome. */
  lemma FinishAfterReconcile(data: Json, saved: bool)
    ensures Finish(Reconcile(data), saved).Extracted? <==> CompleteReading(data)
    ensures Finish(Reconcile(data), saved).Extracted? ==> Finish(Reconcile(data), saved).saved == saved
  {
  }

  // The `elif` as the code evidently means it: `bp_data.get('status') == "failed"`.

  const FailedStatusValue: Json := JStr("failed")

  /** `data` is a dict whose "status" is the string "failed". */
  predicate FailedStatus(data: Json) {
    data.JObj? && StatusKey in data.fields && data.fields[StatusKey] == FailedStatusValue
  }

  /** The `elif` and `else` branches with the corrected test on "status". */
  function IntendedFallback(data: Json): (d: Decision)
    ensures d.Answer?
    ensures d == Answer(ErrorEncountered) <==> Truthy(data) && !data.JObj?
    ensures d == Answer(CouldNotRead) <==> FailedStatus(data)
    ensures d.reply.SomethingWrong? ==> d.reply.data == data
    ensures d == Answer(SomethingWrong(data)) <==> !Truthy(data) || (data.JObj? && !FailedStatus(data))
  {
    if !Truthy(data) then Answer(SomethingWrong(data))
    else
      match Get(data, StatusKey, JNull)
      case None => Answer(ErrorEncountered)
      case Some(status) => if status == FailedStatusValue then Answer(CouldNotRead) else Answer(SomethingWrong(data))
  }

  /**
   * The chain with the corrected `elif`: the first branch and the `except`
   * are those of `Reconcile`, and the fallback is `IntendedFallback`.
   */
  function ReconcileIntended(data: Json): (d: Decision)
    ensures d.Save? <==> CompleteReading(data)
    ensures d == Answer(ErrorEncountered) <==> Raises(data)
    // "couldn't read" exactly for a "failed" answer
    ensures d == Answer(CouldNotRead) <==> FailedStatus(data)
    ensures d.Answer? && d.reply.SomethingWrong? ==> d.reply.data == data
  {
    if !Truthy(data) || (data.JObj? && !HasSuccessStatus(data)) then IntendedFallback(data)
    else Reconcile(data)
  }

  /**
   * The code as written and as intended differ on parsed answers exactly at
   * status "failed": the generic reply instead of "couldn't read".
   */
  lemma {:induction false} ElifAsWrittenVersusIntended(data: Json)
    requires StringKeyed(data)
    ensures FailedStatus(data) ==>
      Reconcile(data) == Answer(SomethingWrong(data)) && ReconcileIntended(data) == Answer(CouldNotRead)
    ensures !FailedStatus(data) ==> Reconcile(data) == ReconcileIntended(data)
  {
  }

  /** `{"status": "failed", "values": {}}`, the answer for an unreadable display. */
  lemma FailedAnswerExample()
    ensures
      var data := JObj(map[StatusKey := FailedStatusValue, ValuesKey := JObj(map[])]);
      Reconcile(data) == Answer(SomethingWrong(data)) && ReconcileIntended(data) == Answer(CouldNotRead)
  {
  }

  /** The complete answer the instructions ask for: a save of 120, 80 and 70. */
  lemma CompleteExample()
    ensures
      var values := JObj(map[SbpKey := JInt(120), DbpKey := JInt(80), HrKey := JInt(70)]);
      Reconcile(JObj(map[ValuesKey := values, StatusKey := SuccessStatus]))
        == Save(JInt(120), JInt(80), JInt(70))
  {
  }

  /** A null diastolic value: no save, "N/A" in its place, the others shown. */
  lemma PartialExample()
    ensures
      var values := JObj(map[SbpKey := JInt(120), DbpKey := JNull, HrKey := JInt(70)]);
      Reconcile(JObj(map[ValuesKey := values, StatusKey := SuccessStatus]))
        == Answer(PartialReading(Shown(JInt(120)), NotAvailable, Shown(JInt(70))))
  {
  }

  /** A successful answer whose three values are 0, false and "". */
  function FalsyAnswer(): Json {
    JObj(map[ValuesKey := JObj(map[SbpKey := JInt(0), DbpKey := JBool(false), HrKey := JStr("")]), StatusKey := SuccessStatus])
  }

  /** "Present" means "not None": zero, false and "" do not block the save. */
  lemma FalsyValuesArePresent()
    ensures Reconcile(FalsyAnswer()) == Save(JInt(0), JBool(false), JStr(""))
  {
  }

  /**
   * A parsed "failed" answer does not reach the "couldn't read" reply: the
   * `elif` looks up the key `False`, which no parsed object has, so the
   * generic reply, carrying the data, is sent instead.
   */
  lemma FailedStatusFallsThrough(data: Json)
    requires data.JObj? && StringKeyed(data)
    requires StatusKey in data.fields && data.fields[StatusKey] == JStr("failed")
    ensures Reconcile(data) == Answer(SomethingWrong(data))
  {
  }

  /** Only a truthy value under the key `False` selects the "couldn't read" reply. */
  lemma FalseKeySelectsCouldNotRead()
    ensures Reconcile(JObj(map[FalseKey := JBool(true)])) == Answer(CouldNotRead)
  {
    var data := JObj(map[FalseKey := JBool(true)]);
    assert FalseKey in data.fields && data.fields != map[];
    assert StatusKey !in data.fields;
  }

  /** Success with values null, a list or a string raises inside the `try`. */
  lemma MalformedValuesRaise(values: Json)
    requires !values.JObj?
    ensures Reconcile(JObj(map[StatusKey := SuccessStatus, ValuesKey := values])) == Answer(ErrorEncountered)
  {
  }
}
