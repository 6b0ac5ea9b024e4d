/** The record validator (src/validate-dataset.js): three independent
    presence checks, date coercion, an allow-list copy of the record, and
    an aggregate error that is built but never thrown. */
module Validation {
  import opened Js

  const TitleMissing: JsError := Error("Title missing or empty.")
  const BodyMissing: JsError := Error("Body missing or empty.")
  const DateMissing: JsError := Error("Date missing or empty.")
  const InvalidDate: JsError := TypeError("Invalid date.")

  /** What `validate` hands back: the copied record, and the field errors it
      collected on the way (which the source wraps in an `ErrorCollection`
      and then drops). */
  datatype Validation = Validation(record: Value, errors: seq<JsError>)

  /** The date after coercion: a string or a number goes through
      `new Date(...)`; any other value is kept as it is. */
  function CoerceDate(v: Value, parseDate: string -> Instant): (r: Value)
    ensures (v.Str? || v.Num? || v.NaN?) ==> r == Date(PrimitiveDate(v, parseDate))
    ensures !(v.Str? || v.Num? || v.NaN?) ==> r == v
  {
    if v.Str? || v.Num? || v.NaN? then Date(PrimitiveDate(v, parseDate)) else v
  }

  /** The fields copied only when truthy. */
  const Optional: set<string> := {"embedding", "image", "type"}

  /** `m` with field `k` of `d` copied into it when that field is truthy. */
  function CopyIfTruthy(d: Value, k: string, m: map<string, Value>): map<string, Value>
    requires !Nullish(d)
  {
    if Truthy(Prop(d, k)) then m[k := Prop(d, k)] else m
  }

  /** The record `validate` returns. */
  function Record(d: Value, parseDate: string -> Instant): Value
    requires !Nullish(d)
  {
    var base := map["title" := Prop(d, "title"), "body" := Prop(d, "body"),
                    "date" := CoerceDate(Prop(d, "date"), parseDate)];
    Obj(CopyIfTruthy(d, "type", CopyIfTruthy(d, "image", CopyIfTruthy(d, "embedding", base))))
  }

  /** The errors `validate` collects, in the order it collects them. */
  function Errors(d: Value, parseDate: string -> Instant): seq<JsError>
    requires !Nullish(d)
  {
    (if !Truthy(Prop(d, "title")) then [TitleMissing] else [])
    + (if !Truthy(Prop(d, "body")) then [BodyMissing] else [])
    + (if !Truthy(Prop(d, "date")) then [DateMissing] else [])
    + (if !CoerceDate(Prop(d, "date"), parseDate).Date? then [InvalidDate] else [])
  }

  /** validate(dataset). It throws only when `dataset` itself is null or
      undefined (reading `dataset.title` fails); otherwise it returns the
      record even when errors were found. */
  method Validate(dataset: Value, parseDate: string -> Instant) returns (r: Result<Validation>)
    ensures Nullish(dataset) <==> r.Err?
    ensures r.Err? ==> r.error == Get(dataset, "title").error
    ensures !Nullish(dataset) ==> r == Ok(Validation(Record(dataset, parseDate), Errors(dataset, parseDate)))
  {
    var title := Get(dataset, "title");
    if title.Err? {
      return Err(title.error);
    }
    var errors: seq<JsError> := [];
    if !Truthy(title.value) {
      errors := errors + [TitleMissing];
    }
    var body := Prop(dataset, "body");
    if !Truthy(body) {
      errors := errors + [BodyMissing];
    }
    var date := Prop(dataset, "date");
    if !Truthy(date) {
      errors := errors + [DateMissing];
    }
    assert errors == (if !Truthy(Prop(dataset, "title")) then [TitleMissing] else [])
      + (if !Truthy(Prop(dataset, "body")) then [BodyMissing] else [])
      + (if !Truthy(Prop(dataset, "date")) then [DateMissing] else []);
    var validated := map["title" := title.value, "body" := body, "date" := date];
    if date.Str? || date.Num? || date.NaN? {
      validated := validated["date" := Date(PrimitiveDate(date, parseDate))];
    }
    ghost var base := map["title" := Prop(dataset, "title"), "body" := Prop(dataset, "body"),
                          "date" := CoerceDate(Prop(dataset, "date"), parseDate)];
    assert validated == base;
    if !validated["date"].Date? {
      errors := errors + [InvalidDate];
    }
    // The ErrorCollection built here is never thrown nor returned.
    var embedding := Prop(dataset, "embedding");
    if Truthy(embedding) {
      validated := validated["embedding" := embedding];
    }
    assert validated == CopyIfTruthy(dataset, "embedding", base);
    var image := Prop(dataset, "image");
    if Truthy(image) {
      validated := validated["image" := image];
    }
    assert validated == CopyIfTruthy(dataset, "image", CopyIfTruthy(dataset, "embedding", base));
    var kind := Prop(dataset, "type");
    if Truthy(kind) {
      validated := validated["type" := kind];
    }
    assert validated == Record(dataset, parseDate).fields;
    assert errors == Errors(dataset, parseDate);
    return Ok(Validation(Obj(validated), errors));
  }

  /** Each presence check reports its own error, independently of the
      others, and the date check reports a type error when the coercion
      does not give a Date. */
  lemma ErrorsComplete(d: Value, parseDate: string -> Instant)
    requires !Nullish(d)
    ensures TitleMissing in Errors(d, parseDate) <==> !Truthy(Prop(d, "title"))
    ensures BodyMissing in Errors(d, parseDate) <==> !Truthy(Prop(d, "body"))
    ensures DateMissing in Errors(d, parseDate) <==> !Truthy(Prop(d, "date"))
    ensures InvalidDate in Errors(d, parseDate) <==> !CoerceDate(Prop(d, "date"), parseDate).Date?
    ensures |Errors(d, parseDate)| <= 4
  {
  }

  /** A record without a date gets both "missing" and "invalid" errors. */
  lemma AbsentDateTwoErrors(d: Value, parseDate: string -> Instant)
    requires !Nullish(d) && Prop(d, "date") == Undefined
    ensures DateMissing in Errors(d, parseDate) && InvalidDate in Errors(d, parseDate)
  {
  }

  /** The record holds exactly `title`, `body`, `date` and those of
      `embedding`, `image`, `type` that are truthy in the input; all but the
      date are copied unchanged. */
  lemma RecordShape(d: Value, parseDate: string -> Instant)
    requires !Nullish(d)
    ensures var r := Record(d, parseDate);
      && r.Obj?
      && r.fields.Keys == {"title", "body", "date"} + set k | k in Optional && Truthy(Prop(d, k))
      && r.fields["title"] == Prop(d, "title")
      && r.fields["body"] == Prop(d, "body")
      && r.fields["date"] == CoerceDate(Prop(d, "date"), parseDate)
      && forall k :: k in Optional && k in r.fields ==> r.fields[k] == Prop(d, k)
  {
  }

  /** Validating a validated record gives the same record. */
  lemma RecordIdempotent(d: Value, parseDate: string -> Instant)
    requires !Nullish(d)
    ensures Record(Record(d, parseDate), parseDate) == Record(d, parseDate)
  {
    var r := Record(d, parseDate);
    assert Prop(r, "embedding") == (if Truthy(Prop(d, "embedding")) then Prop(d, "embedding") else Undefined);
    assert Prop(r, "image") == (if Truthy(Prop(d, "image")) then Prop(d, "image") else Undefined);
    assert Prop(r, "type") == (if Truthy(Prop(d, "type")) then Prop(d, "type") else Undefined);
  }

  /** A second validation reports no error the first did not. */
  lemma ErrorsOfRecordShrink(d: Value, parseDate: string -> Instant)
    requires !Nullish(d)
    ensures forall e :: e in Errors(Record(d, parseDate), parseDate) ==> e in Errors(d, parseDate)
  {
  }

  /** The "missing" check runs before the coercion, so a date `""` is
      reported missing the first time but, having become an (invalid) Date,
      not on a second validation. */
  lemma EmptyDateErrorLostOnRevalidation(parseDate: string -> Instant)
    ensures var d := Obj(map["title" := Str("t"), "body" := Str("b"), "date" := Str("")]);
      Errors(d, parseDate) == [DateMissing] && Errors(Record(d, parseDate), parseDate) == []
  {
    var d := Obj(map["title" := Str("t"), "body" := Str("b"), "date" := Str("")]);
    assert Prop(d, "date") == Str("");
    assert Prop(Record(d, parseDate), "date") == Date(parseDate(""));
  }
}
