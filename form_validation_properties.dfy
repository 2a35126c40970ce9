/** What a `validateFormData` result guarantees about the submitted fields. */
module FormValidationProperties {
  import opened Wrappers
  import opened InputValidation
  import opened FormValidation
  import InputValidationProperties
  import Text

  predicate AllEscaped(m: map<string, string>) {
    forall k :: k in m ==> NoRawSpecials(m[k])
  }

  /** A loop never removes an error or a sanitised key. */
  lemma {:induction false} RunGrows(fields: seq<FieldSpec>, data: Body, det: Detectors, required: bool, acc: Acc)
    ensures var r := RunFields(fields, data, det, required, acc);
      acc.errors <= r.errors && acc.sanitized.Keys <= r.sanitized.Keys
    decreases |fields|
  {
    if fields != [] {
      RunGrows(fields[..|fields| - 1], data, det, required, acc);
    }
  }

  /** Each field adds at most one error. */
  lemma {:induction false} OneErrorPerField(fields: seq<FieldSpec>, data: Body, det: Detectors, required: bool, acc: Acc)
    ensures |RunFields(fields, data, det, required, acc).errors| <= |acc.errors| + |fields|
    decreases |fields|
  {
    if fields != [] {
      OneErrorPerField(fields[..|fields| - 1], data, det, required, acc);
    }
  }

  /** Every stored value went through `validateInput`, so none holds a raw
    * HTML special character. */
  lemma {:induction false} RunKeepsEscaped(fields: seq<FieldSpec>, data: Body, det: Detectors, required: bool, acc: Acc)
    requires AllEscaped(acc.sanitized)
    ensures AllEscaped(RunFields(fields, data, det, required, acc).sanitized)
    decreases |fields|
  {
    if fields != [] {
      RunKeepsEscaped(fields[..|fields| - 1], data, det, required, acc);
    }
  }

  /** A rejected field's error is in the final list. */
  lemma {:induction false} RejectionReported(fields: seq<FieldSpec>, data: Body, det: Detectors, required: bool, acc: Acc, i: nat)
    requires i < |fields|
    requires Outcome(fields[i], data, det, required).Rejected?
    ensures Outcome(fields[i], data, det, required).error in RunFields(fields, data, det, required, acc).errors
    decreases |fields|
  {
    var prefix := fields[..|fields| - 1];
    var last := fields[|fields| - 1];
    var mid := RunFields(prefix, data, det, required, acc);
    var out := Outcome(last, data, det, required);
    assert RunFields(fields, data, det, required, acc) == Apply(mid, last.key, out);
    assert mid.errors <= Apply(mid, last.key, out).errors;
    if i < |fields| - 1 {
      assert prefix[i] == fields[i];
      RejectionReported(prefix, data, det, required, acc, i);
    }
  }

  /** A required field always contributes a value or an error. */
  lemma RequiredNeverSkipped(f: FieldSpec, data: Body, det: Detectors)
    ensures !Outcome(f, data, det, true).Skipped?
  {
  }

  /** Applying a non-skipped result that adds no error stores its key. */
  lemma ApplyStores(acc: Acc, key: string, r: FieldResult)
    requires !r.Skipped?
    requires |Apply(acc, key, r).errors| <= |acc.errors|
    ensures Apply(acc, key, r).sanitized.Keys == acc.sanitized.Keys + {key}
  {
  }

  /** In the required loop, a field that adds no error stores its key. */
  lemma {:induction false} NoErrorMeansAllStored(fields: seq<FieldSpec>, data: Body, det: Detectors, acc: Acc)
    requires |RunFields(fields, data, det, true, acc).errors| == |acc.errors|
    ensures forall f :: f in fields ==> f.key in RunFields(fields, data, det, true, acc).sanitized
    decreases |fields|
  {
    if fields != [] {
      var prefix := fields[..|fields| - 1];
      var last := fields[|fields| - 1];
      var mid := RunFields(prefix, data, det, true, acc);
      var out := Outcome(last, data, det, true);
      var whole := RunFields(fields, data, det, true, acc);
      assert whole == Apply(mid, last.key, out);
      RunGrows(prefix, data, det, true, acc);
      assert |mid.errors| >= |acc.errors|;
      RequiredNeverSkipped(last, data, det);
      assert |mid.errors| <= |whole.errors| by {
        assert mid.errors <= Apply(mid, last.key, out).errors;
      }
      ApplyStores(mid, last.key, out);
      NoErrorMeansAllStored(prefix, data, det, acc);
      forall f | f in fields
        ensures f.key in whole.sanitized
      {
        if f != last {
          assert f in prefix;
        }
      }
    }
  }

  /** A valid form carries a sanitised value for every required field, with
    * no raw HTML special character in any stored value, and satisfies the
    * cross-field rules. */
  lemma ValidFormComplete(data: Body, det: Detectors)
    requires Validated(data, det).valid
    ensures var sd := Validated(data, det).sanitizedData.value;
      && (forall f :: f in RequiredFields ==> f.key in sd)
      && AllEscaped(sd)
      && sd["yearOfStudy"] in ValidYears
      && sd["timeCommitment"] in ValidTimeCommitments
      && sd["teamWork"] in ValidTeamWork
      && (sd["yearOfStudy"] == "3rd Year" ==> "teamLevel" in sd && sd["teamLevel"] != [])
  {
    var acc0 := Acc([], map[]);
    var required := RunFields(RequiredFields, data, det, true, acc0);
    var all := RunFields(OptionalFields, data, det, false, required);
    RunGrows(OptionalFields, data, det, false, required);
    assert all.errors == [];
    NoErrorMeansAllStored(RequiredFields, data, det, acc0);
    RunKeepsEscaped(RequiredFields, data, det, true, acc0);
    RunKeepsEscaped(OptionalFields, data, det, false, required);
    assert CrossFieldErrors(all.sanitized) == [];
  }

  /** A required field that is missing or falsy makes the form invalid, with
    * the message "<key> is required". */
  lemma MissingFieldReported(data: Body, det: Detectors, i: nat)
    requires i < |RequiredFields|
    requires !Truthy(Field(data, RequiredFields[i].key))
    ensures !Validated(data, det).valid
    ensures RequiredFields[i].key + " is required" in Validated(data, det).errors
  {
    var acc0 := Acc([], map[]);
    var required := RunFields(RequiredFields, data, det, true, acc0);
    RejectionReported(RequiredFields, data, det, true, acc0, i);
    RunGrows(OptionalFields, data, det, false, required);
  }

  /** An optional field never makes the form invalid by failing
    * `validateInput`: it is dropped instead, and only its length or a
    * detector can reject it. */
  lemma OptionalFailureIsSilent(f: FieldSpec, s: string, det: Detectors)
    requires s != [] && |s| <= f.maxLength && !det.sql(s) && !det.xss(s)
    requires !ValidateInput(s, f.kind, det.dangerous).valid
    ensures CheckOptional(f, Some(JsString(s)), det) == Skipped
  {
  }

  /** The required checks stop at the first failure: an over-long value is
    * reported as too long whatever the detectors say. */
  lemma LengthCheckedFirst(i: nat, s: string, det: Detectors)
    requires i < |RequiredFields| && |s| > RequiredFields[i].maxLength
    ensures CheckRequired(RequiredFields[i], Some(JsString(s)), det)
         == Rejected(TooLong(RequiredFields[i]))
  {
  }

  /** The error count is bounded by the number of fields plus the four
    * cross-field rules. */
  lemma ErrorCountBound(data: Body, det: Detectors)
    ensures |Validated(data, det).errors| <= |RequiredFields| + |OptionalFields| + 4
  {
    var acc0 := Acc([], map[]);
    var required := RunFields(RequiredFields, data, det, true, acc0);
    OneErrorPerField(RequiredFields, data, det, true, acc0);
    OneErrorPerField(OptionalFields, data, det, false, required);
  }

  /** The `email` field is declared as text, so its value is never matched
    * against the email pattern: within the length bound and past the two
    * detectors, any non-blank value the blacklist lets through is accepted. */
  lemma EmailFieldIsPlainText(s: string, det: Detectors)
    requires s != [] && |s| <= 100 && !det.sql(s) && !det.xss(s)
    ensures RequiredFields[4].key == "email"
    ensures CheckRequired(RequiredFields[4], Some(JsString(s)), det).Accepted? <==>
              !Text.AllWhitespace(s) && !det.dangerous(Text.Trim(s))
  {
    var f := RequiredFields[4];
    assert f == FieldSpec("email", TextInput, 100);
    var validation := ValidateInput(s, TextInput, det.dangerous);
    assert CheckRequired(f, Some(JsString(s)), det) == CheckText(f, s, det);
    assert CheckText(f, s, det).Accepted? <==> validation.valid;
    InputValidationProperties.TextAcceptance(s, det.dangerous);
  }
}
