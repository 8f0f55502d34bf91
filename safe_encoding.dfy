/** `safe_encode` (app.py:71-84): turn one categorical form value into the
    integer code of its field's fitted label encoder, falling back to the
    encoder's first class when the value is unknown, and passing the raw value
    through when the field has no encoder. */
module SafeEncoding {
  import opened Wrappers
  import opened Text
  import opened Frames

  /** A fitted label encoder: its ordered class list `classes_`. A fitted
      encoder's classes are distinct (`Fitted`). */
  datatype Encoder = Encoder(classes: seq<string>)

  predicate Fitted(enc: Encoder) {
    Distinct(enc.classes)
  }

  /** The encoders that were found at start-up, by field name; a field whose
      encoder file was missing is absent. */
  type EncoderTable = map<string, Encoder>

  /** The only failure `safe_encode` can meet: an unknown value and an
      encoder with no class to fall back to, so that `classes_[0]` raises. */
  datatype EncodeError = EmptyClassList(field: string)

  /** The index of the first occurrence of `v` in `classes`. */
  function IndexOf(classes: seq<string>, v: string): (r: Option<nat>)
    ensures r.Some? <==> v in classes
    ensures r.Some? ==> r.value < |classes| && classes[r.value] == v
    ensures r.Some? ==> forall k :: 0 <= k < r.value ==> classes[k] != v
  {
    if classes == [] then None
    else if classes[0] == v then Some(0)
    else match IndexOf(classes[1..], v)
      case None => None
      case Some(i) => Some(i + 1)
  }

  /** `enc.transform([v])[0]`: the code of `v`, or the ValueError raised for
      a value the encoder has not seen. */
  function Transform(enc: Encoder, v: string): (r: Option<nat>)
    ensures r.Some? <==> v in enc.classes
    ensures r.Some? ==> r.value < |enc.classes| && enc.classes[r.value] == v
    ensures Fitted(enc) && r.Some? ==> forall k :: 0 <= k < |enc.classes| && enc.classes[k] == v ==> k == r.value
  {
    IndexOf(enc.classes, v)
  }

  /** `encoders.get(field)`. */
  function Lookup(encoders: EncoderTable, field: string): (r: Option<Encoder>)
    ensures r.Some? <==> field in encoders
    ensures r.Some? ==> r.value == encoders[field]
  {
    if field in encoders then Some(encoders[field]) else None
  }

  /** `safe_encode(field, raw)`. */
  function SafeEncode(encoders: EncoderTable, field: string, raw: string): (r: Result<Value, EncodeError>)
    // no encoder: the raw value, unchanged
    ensures field !in encoders ==> r == Success(Str(raw))
    // a known value: the position of its normal form in the class list
    ensures field in encoders && Normalize(raw) in encoders[field].classes ==>
              r.Success? && r.value.Num? && 0 <= r.value.n < |encoders[field].classes|
              && encoders[field].classes[r.value.n] == Normalize(raw)
    // an unknown value: code 0, the first class, whatever the value was
    ensures field in encoders && Normalize(raw) !in encoders[field].classes ==>
              r == if encoders[field].classes == [] then Failure(EmptyClassList(field))
                   else Success(Num(0))
    // it fails only for an encoder without classes
    ensures r.Failure? <==> field in encoders && encoders[field].classes == []
  {
    match Lookup(encoders, field)
    case None => Success(Str(raw))
    case Some(enc) =>
      var v := Normalize(raw);
      match Transform(enc, v)
      case Some(code) => Success(Num(code))
      case None =>
        if |enc.classes| == 0 then Failure(EmptyClassList(field))
        else Success(Num(Transform(enc, enc.classes[0]).value))
  }

  /** A fitted encoder codes each of its classes by the class's position. */
  lemma TransformRoundTrip(enc: Encoder, code: nat)
    requires Fitted(enc) && code < |enc.classes|
    ensures Transform(enc, enc.classes[code]) == Some(code)
  {
  }

  /** A form value whose normal form is the class at position `code` of a
      fitted encoder is coded `code`: the code recorded for that class at fit
      time. */
  lemma KnownValueCode(encoders: EncoderTable, field: string, raw: string, code: nat)
    requires field in encoders && Fitted(encoders[field])
    requires code < |encoders[field].classes| && Normalize(raw) == encoders[field].classes[code]
    ensures SafeEncode(encoders, field, raw) == Success(Num(code))
  {
    TransformRoundTrip(encoders[field], code);
  }

  /** An unknown value gets the code `transform` gives the first class. */
  lemma FallbackIsFirstClass(encoders: EncoderTable, field: string, raw: string)
    requires field in encoders && encoders[field].classes != []
    requires Normalize(raw) !in encoders[field].classes
    ensures SafeEncode(encoders, field, raw)
            == Success(Num(Transform(encoders[field], encoders[field].classes[0]).value))
  {
    assert IndexOf(encoders[field].classes, encoders[field].classes[0]) == Some(0);
  }

  /** With an encoder present, values that differ only in upper/lower case
      get the same code. */
  lemma EncodeIgnoresCase(encoders: EncoderTable, field: string, s: string, t: string)
    requires field in encoders && Lower(s) == Lower(t)
    ensures SafeEncode(encoders, field, s) == SafeEncode(encoders, field, t)
  {
    NormalizeIgnoresCase(s, t);
  }

  /** With an encoder present, surrounding whitespace does not change the
      code. */
  lemma EncodeIgnoresPadding(encoders: EncoderTable, field: string, w1: string, s: string, w2: string)
    requires field in encoders && AllSpace(w1) && AllSpace(w2)
    ensures SafeEncode(encoders, field, w1 + s + w2) == SafeEncode(encoders, field, s)
  {
    NormalizeIgnoresPadding(w1, s, w2);
  }
}
