/** The Django REST framework `CharField` behaviour the request serializers
    rely on (backend/api/template/serializers/template_serializer.py and
    backend/api/project/serializers/project_serializer.py): a missing key, a
    blank value after trimming, and a length limit checked on the trimmed
    value, and the refusal of NUL characters. */
module SerializerFields {
  import opened Options
  import opened Text

  /** DRF's own messages for a missing, blank and over-long field. */
  const REQUIRED_MESSAGE := "This field is required."
  const BLANK_MESSAGE := "This field may not be blank."
  /** The message of the `ProhibitNullCharactersValidator` every `CharField` has. */
  const NULL_CHARACTERS_MESSAGE := "Null characters are not allowed."

  function MaxLengthMessage(maxLength: nat): string {
    "Ensure this field has no more than " + NatToString(maxLength) + " characters."
  }

  /** One entry of a `400` error body. */
  datatype FieldError = FieldError(field: string, message: string)

  /** One field's validation: not sent, its validated value, or its error. */
  datatype FieldOutcome = Absent | Value(value: string) | Invalid(message: string)

  /** A `CharField`: a missing key is an error when the field is required; the
      value is trimmed, and when nothing is left it is refused unless
      `allowBlank` (then it is `""`); otherwise it is held to `maxLength`, and
      then refused when it holds a NUL character. */
  function CharField(data: Option<string>, required: bool, allowBlank: bool, maxLength: Option<nat>): (r: FieldOutcome)
    ensures data.None? ==> r == (if required then Invalid(REQUIRED_MESSAGE) else Absent)
    ensures data.Some? && AllSpace(data.value) ==> r == (if allowBlank then Value("") else Invalid(BLANK_MESSAGE))
    ensures data.Some? && !AllSpace(data.value) ==>
      (r.Value? <==> (maxLength.None? || |Trim(data.value)| <= maxLength.value) && '\0' !in Trim(data.value))
    ensures data.Some? && !AllSpace(data.value) && (maxLength.None? || |Trim(data.value)| <= maxLength.value)
            && '\0' in Trim(data.value)
            ==> r == Invalid(NULL_CHARACTERS_MESSAGE)
    ensures r.Value? ==> data.Some? && r.value == Trim(data.value)
    ensures r.Value? && !allowBlank ==> r.value != []
    ensures r.Value? ==> '\0' !in r.value
  {
    match data
    case None => if required then Invalid(REQUIRED_MESSAGE) else Absent
    case Some(s) =>
      TrimEmptyIffAllSpace(s);
      var v := Trim(s);
      if v == [] then (if allowBlank then Value("") else Invalid(BLANK_MESSAGE))
      else if maxLength.Some? && |v| > maxLength.value then Invalid(MaxLengthMessage(maxLength.value))
      else if '\0' in v then Invalid(NULL_CHARACTERS_MESSAGE)
      else Value(v)
  }

  function ErrorsOf(field: string, outcome: FieldOutcome): (r: seq<FieldError>)
    ensures r == [] <==> !outcome.Invalid?
  {
    if outcome.Invalid? then [FieldError(field, outcome.message)] else []
  }

  function ValueOf(outcome: FieldOutcome): (r: Option<string>)
    ensures r.Some? <==> outcome.Value?
  {
    if outcome.Value? then Some(outcome.value) else None
  }
}
