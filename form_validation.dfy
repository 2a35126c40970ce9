/**
 * `validateFormData` (`src/app/api/submit/route.ts`): check the fourteen
 * required and four optional fields of a membership application in a fixed
 * order, collect one error per failing required field, keep the sanitised
 * values, then apply the cross-field rules to the sanitised values.
 */
module FormValidation {
  import opened Wrappers
  import opened Text
  import opened InputValidation

  /** A value of the parsed request body, as far as the checks can tell apart:
    * a string, an integral number, or anything else with its truthiness. */
  datatype JsValue = JsString(s: string) | JsNumber(n: int) | JsOther(truthy: bool)

  type Body = map<string, JsValue>

  /** `data[key]`, `undefined` when absent. */
  function Field(data: Body, key: string): Option<JsValue> {
    if key in data then Some(data[key]) else None
  }

  /** JavaScript truthiness: `undefined`, `''`, `0` and falsy others are false. */
  predicate Truthy(v: Option<JsValue>) {
    match v
    case None => false
    case Some(JsString(s)) => s != []
    case Some(JsNumber(n)) => n != 0
    case Some(JsOther(t)) => t
  }

  /** One entry of `requiredFields` or `optionalFields`. */
  datatype FieldSpec = FieldSpec(key: string, kind: InputType, maxLength: nat)

  const RequiredFields: seq<FieldSpec> := [
    FieldSpec("fullName", TextInput, 100),
    FieldSpec("rollNumber", NumberInput, 15),
    FieldSpec("classSection", TextInput, 50),
    FieldSpec("branch", TextInput, 100),
    FieldSpec("email", TextInput, 100),
    FieldSpec("yearOfStudy", TextInput, 20),
    FieldSpec("selectedRole", TextInput, 100),
    FieldSpec("motivationAndGrowth", TextInput, 2000),
    FieldSpec("expectationsFromCSI", TextInput, 2000),
    FieldSpec("excitingActivityAndWhy", TextInput, 2000),
    FieldSpec("priorExperience", TextInput, 2000),
    FieldSpec("skills", TextInput, 2000),
    FieldSpec("timeCommitment", TextInput, 50),
    FieldSpec("teamWork", TextInput, 10)
  ]

  const OptionalFields: seq<FieldSpec> := [
    FieldSpec("teamLevel", TextInput, 50),
    FieldSpec("personalProject", TextInput, 2000),
    FieldSpec("mentoringExperience", TextInput, 2000),
    FieldSpec("contributionPlan", TextInput, 2000)
  ]

  /** The regex detectors `detectSQLInjection`, `detectXSS`, and the blacklist
    * inside `validateInput`, as predicates. */
  datatype Detectors = Detectors(sql: string -> bool, xss: string -> bool, dangerous: string -> bool)

  /** What one field contributes: a sanitised value, one error, or nothing. */
  datatype FieldResult = Accepted(value: string) | Rejected(error: string) | Skipped

  /** `${key} exceeds maximum length of ${maxLength}`. */
  function TooLong(f: FieldSpec): string {
    f.key + " exceeds maximum length of " + NatToString(f.maxLength)
  }

  /** The body of the required-fields loop for one field. Its checks run in a
    * fixed order and the first failure decides: presence, type, then the
    * string checks of `CheckText`. A number is accepted only for a `number`
    * field, and is checked as its decimal text. */
  function CheckRequired(f: FieldSpec, v: Option<JsValue>, det: Detectors): (r: FieldResult)
    ensures !r.Skipped?
    ensures !Truthy(v) ==> r == Rejected(f.key + " is required")
    ensures Truthy(v) && !v.value.JsString? && !(f.kind == NumberInput && v.value.JsNumber?) ==>
              r == Rejected(f.key + " must be a " + (if f.kind == NumberInput then "number" else "string"))
    ensures Truthy(v) && v.value.JsString? ==> r == CheckText(f, v.value.s, det)
    ensures Truthy(v) && v.value.JsNumber? && f.kind == NumberInput ==> r == CheckText(f, IntToString(v.value.n), det)
    ensures r.Accepted? ==> NoRawSpecials(r.value)
  {
    if !Truthy(v) then Rejected(f.key + " is required")
    else
      var value := v.value;
      if f.kind == NumberInput && value.JsNumber? then
        CheckText(f, IntToString(value.n), det)
      else if value.JsString? then
        CheckText(f, value.s, det)
      else
        Rejected(f.key + " must be a " + (if f.kind == NumberInput then "number" else "string"))
  }

  /** The checks of a required field once it is a string, in order: length,
    * SQL detector, XSS detector, `validateInput`; the first failure gives the
    * field's one error, and a value passing all four is stored escaped. */
  function CheckText(f: FieldSpec, s: string, det: Detectors): (r: FieldResult)
    ensures |s| > f.maxLength ==> r == Rejected(TooLong(f))
    ensures |s| <= f.maxLength && det.sql(s) ==> r == Rejected(f.key + " contains potentially malicious content")
    ensures |s| <= f.maxLength && !det.sql(s) && det.xss(s) ==>
              r == Rejected(f.key + " contains potentially harmful scripts")
    ensures |s| <= f.maxLength && !det.sql(s) && !det.xss(s) ==>
              var validation := ValidateInput(s, f.kind, det.dangerous);
              && (validation.valid ==> r == Accepted(validation.sanitized))
              && (!validation.valid ==> r == Rejected(f.key + ": " + validation.error.value))
    ensures r.Accepted? ==> NoRawSpecials(r.value)
  {
    if |s| > f.maxLength then Rejected(TooLong(f))
    else if det.sql(s) then Rejected(f.key + " contains potentially malicious content")
    else if det.xss(s) then Rejected(f.key + " contains potentially harmful scripts")
    else
      var validation := ValidateInput(s, f.kind, det.dangerous);
      if !validation.valid then Rejected(f.key + ": " + validation.error.value)
      else Accepted(validation.sanitized)
  }

  /** The body of the optional-fields loop for one field: a value that is not
    * a non-empty string is ignored; an over-long value, or one either detector
    * flags, gives one error; otherwise a value `validateInput` accepts is
    * stored escaped and one it rejects is dropped without an error. */
  function CheckOptional(f: FieldSpec, v: Option<JsValue>, det: Detectors): (r: FieldResult)
    ensures !(v.Some? && v.value.JsString? && v.value.s != []) ==> r == Skipped
    ensures v.Some? && v.value.JsString? && v.value.s != [] ==>
              var s := v.value.s;
              var validation := ValidateInput(s, f.kind, det.dangerous);
              && (|s| > f.maxLength ==> r == Rejected(TooLong(f)))
              && (|s| <= f.maxLength && (det.sql(s) || det.xss(s)) ==>
                    r == Rejected(f.key + " contains potentially malicious content"))
              && (|s| <= f.maxLength && !det.sql(s) && !det.xss(s) ==>
                    r == if validation.valid then Accepted(validation.sanitized) else Skipped)
    ensures r.Accepted? ==> NoRawSpecials(r.value)
  {
    match v
    case Some(JsString(s)) =>
      if s == [] then Skipped
      else if |s| > f.maxLength then Rejected(TooLong(f))
      else if det.sql(s) || det.xss(s) then Rejected(f.key + " contains potentially malicious content")
      else
        var validation := ValidateInput(s, f.kind, det.dangerous);
        if validation.valid then Accepted(validation.sanitized) else Skipped
    case _ => Skipped
  }

  /** The `errors` array and `sanitizedData` record being built. */
  datatype Acc = Acc(errors: seq<string>, sanitized: map<string, string>)

  function Apply(acc: Acc, key: string, r: FieldResult): Acc {
    match r
    case Accepted(value) => acc.(sanitized := acc.sanitized[key := value])
    case Rejected(error) => acc.(errors := acc.errors + [error])
    case Skipped => acc
  }

  function Outcome(f: FieldSpec, data: Body, det: Detectors, required: bool): FieldResult {
    if required then CheckRequired(f, Field(data, f.key), det) else CheckOptional(f, Field(data, f.key), det)
  }

  /** Reference definition of a loop over `fields`, in order. */
  function RunFields(fields: seq<FieldSpec>, data: Body, det: Detectors, required: bool, acc: Acc): Acc
    decreases |fields|
  {
    if fields == [] then acc
    else
      var last := fields[|fields| - 1];
      Apply(RunFields(fields[..|fields| - 1], data, det, required, acc), last.key, Outcome(last, data, det, required))
  }

  const ValidYears := ["1st Year", "2nd Year", "3rd Year"]
  const ValidTimeCommitments := ["Less than 2 hours", "2-4 hours", "5-7 hours", "7+ hours"]
  const ValidTeamWork := ["Yes", "No"]

  /** `list.includes(sanitizedData[key])`; an absent key is never included. */
  predicate Includes(list: seq<string>, sanitized: map<string, string>, key: string) {
    key in sanitized && sanitized[key] in list
  }

  /** The rules checked after both loops, on the sanitised values. */
  function CrossFieldErrors(sanitized: map<string, string>): seq<string> {
    (if !Includes(ValidYears, sanitized, "yearOfStudy") then ["Invalid year of study"] else [])
    + (if !Includes(ValidTimeCommitments, sanitized, "timeCommitment") then ["Invalid time commitment"] else [])
    + (if !Includes(ValidTeamWork, sanitized, "teamWork") then ["Invalid team work preference"] else [])
    + (if "yearOfStudy" in sanitized && sanitized["yearOfStudy"] == "3rd Year"
          && !("teamLevel" in sanitized && sanitized["teamLevel"] != [])
       then ["Team level is required for 3rd year students"] else [])
  }

  /** `{ valid, errors, sanitizedData? }`. */
  datatype FormResult = FormResult(valid: bool, errors: seq<string>, sanitizedData: Option<map<string, string>>)

  /** What `validateFormData` returns: valid iff no error, and the sanitised
    * data iff valid. */
  function Validated(data: Body, det: Detectors): (r: FormResult)
    ensures r.valid <==> r.errors == []
    ensures r.sanitizedData.Some? <==> r.valid
  {
    var required := RunFields(RequiredFields, data, det, true, Acc([], map[]));
    var all := RunFields(OptionalFields, data, det, false, required);
    var errors := all.errors + CrossFieldErrors(all.sanitized);
    FormResult(errors == [], errors, if errors == [] then Some(all.sanitized) else None)
  }

  /** One loop of `validateFormData`. */
  method FieldLoop(fields: seq<FieldSpec>, data: Body, det: Detectors, required: bool, acc0: Acc)
    returns (acc: Acc)
    ensures acc == RunFields(fields, data, det, required, acc0)
  {
    acc := acc0;
    var i := 0;
    while i < |fields|
      invariant 0 <= i <= |fields|
      invariant acc == RunFields(fields[..i], data, det, required, acc0)
    {
      var field := fields[i];
      var value := Field(data, field.key);
      var result := if required then CheckRequired(field, value, det) else CheckOptional(field, value, det);
      match result {
        case Accepted(v) => acc := acc.(sanitized := acc.sanitized[field.key := v]);
        case Rejected(e) => acc := acc.(errors := acc.errors + [e]);
        case Skipped =>
      }
      assert fields[..i + 1][..i] == fields[..i];
      i := i + 1;
    }
    assert fields[..i] == fields;
  }

  /** `validateFormData(data)`. */
  method ValidateFormData(data: Body, det: Detectors) returns (r: FormResult)
    ensures r == Validated(data, det)
  {
    var acc := FieldLoop(RequiredFields, data, det, true, Acc([], map[]));
    acc := FieldLoop(OptionalFields, data, det, false, acc);
    var errors := acc.errors + CrossFieldErrors(acc.sanitized);
    r := FormResult(errors == [], errors, if errors == [] then Some(acc.sanitized) else None);
  }
}
