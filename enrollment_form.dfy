/** The enrollment form: its field values, the error map `validateForm` rebuilds, the per-field
    clearing done on input, and the submit flow around the asynchronous `onEnroll` call, split at
    its `await` into `Submit` and `Settle`. */
module EnrollmentForm {
  import opened Seqs
  import opened Text
  import opened Types

  datatype Field = Name | Email | Phone | EmergencyContact | MedicalConditions | FitnessGoals | AgreeToTerms

  datatype FormData = FormData(
    name: string,
    email: string,
    phone: string,
    emergencyContact: string,
    medicalConditions: string,
    fitnessGoals: string,
    agreeToTerms: bool)

  /** What an input hands to `handleInputChange`: text, or the checkbox's state. */
  datatype Value = Typed(text: string) | Ticked(flag: bool)

  /** The checkbox sends a flag, every other input text. */
  predicate Fits(field: Field, value: Value)
  {
    value.Ticked? <==> field == AgreeToTerms
  }

  /** `{ ...prev, [field]: value }`. */
  function WithField(d: FormData, field: Field, value: Value): (r: FormData)
    requires Fits(field, value)
    ensures field == AgreeToTerms ==> r.agreeToTerms == value.flag
    ensures field == Name ==> r.name == value.text
    ensures field == Email ==> r.email == value.text
    ensures field == Phone ==> r.phone == value.text
    ensures field == EmergencyContact ==> r.emergencyContact == value.text
    ensures field == MedicalConditions ==> r.medicalConditions == value.text
    ensures field == FitnessGoals ==> r.fitnessGoals == value.text
    ensures field != Name ==> r.name == d.name
    ensures field != Email ==> r.email == d.email
    ensures field != Phone ==> r.phone == d.phone
    ensures field != EmergencyContact ==> r.emergencyContact == d.emergencyContact
    ensures field != MedicalConditions ==> r.medicalConditions == d.medicalConditions
    ensures field != FitnessGoals ==> r.fitnessGoals == d.fitnessGoals
    ensures field != AgreeToTerms ==> r.agreeToTerms == d.agreeToTerms
  {
    match field
    case Name => d.(name := value.text)
    case Email => d.(email := value.text)
    case Phone => d.(phone := value.text)
    case EmergencyContact => d.(emergencyContact := value.text)
    case MedicalConditions => d.(medicalConditions := value.text)
    case FitnessGoals => d.(fitnessGoals := value.text)
    case AgreeToTerms => d.(agreeToTerms := value.flag)
  }

  /** A match of `/\S+@\S+\.\S+/` whose `@` is at `p` and whose `.` is at `q`: a non-space
      character before the `@`, only non-space characters (at least one) between the two, and a
      non-space character after the `.`. */
  predicate MatchAt(s: string, p: nat, q: nat)
  {
    && 1 <= p && p + 2 <= q && q + 1 < |s|
    && !IsSpace(s[p - 1]) && s[p] == '@'
    && s[q] == '.' && !IsSpace(s[q + 1])
    && forall k | p < k < q :: !IsSpace(s[k])
  }

  /** `/\S+@\S+\.\S+/.test(s)`: the pattern is unanchored, so it holds when a match occurs
      anywhere in `s`. */
  predicate EmailMatches(s: string)
  {
    exists p: nat, q: nat | p < q < |s| :: MatchAt(s, p, q)
  }

  lemma EmailExamples()
    ensures EmailMatches("ana@gym.io")
    ensures EmailMatches("  ana@gym.io  ")
    ensures !EmailMatches("ana @gym.io")
    ensures !EmailMatches("ana@.io")
  {
    assert MatchAt("ana@gym.io", 3, 7);
    assert MatchAt("  ana@gym.io  ", 5, 9);
    var spaced := "ana @gym.io";
    assert forall p | 1 <= p < |spaced| && spaced[p] == '@' :: p == 4;
    assert IsSpace(spaced[3]);
    var noName := "ana@.io";
    assert forall p | 1 <= p < |noName| && noName[p] == '@' :: p == 3;
    assert forall q | 5 <= q < |noName| - 1 :: noName[q] != '.';
  }

  /** The pattern needs an `@` and a `.`. */
  lemma EmailNeedsAtAndDot(s: string)
    ensures EmailMatches(s) ==> '@' in s && '.' in s
  {
  }

  /** The message `validateForm` records for one field, if any. */
  function ErrorFor(d: FormData, f: Field): (r: Option<string>)
    ensures f == Name ==> (r.Some? <==> AllSpace(d.name))
    ensures f == Phone ==> (r.Some? <==> AllSpace(d.phone))
    ensures f == EmergencyContact ==> (r.Some? <==> AllSpace(d.emergencyContact))
    ensures f == AgreeToTerms ==> (r.Some? <==> !d.agreeToTerms)
    ensures f == Email ==> (r.Some? <==> AllSpace(d.email) || !EmailMatches(d.email))
    ensures f == Email && r.Some? ==> r.value == if AllSpace(d.email) then "Email is required" else "Email is invalid"
    ensures f == MedicalConditions || f == FitnessGoals ==> r.None?
  {
    match f
    case Name =>
      TrimEmpty(d.name);
      if Trim(d.name) == [] then Some("Name is required") else None
    case Email =>
      TrimEmpty(d.email);
      if Trim(d.email) == [] then Some("Email is required")
      else if !EmailMatches(d.email) then Some("Email is invalid")
      else None
    case Phone =>
      TrimEmpty(d.phone);
      if Trim(d.phone) == [] then Some("Phone number is required") else None
    case EmergencyContact =>
      TrimEmpty(d.emergencyContact);
      if Trim(d.emergencyContact) == [] then Some("Emergency contact is required") else None
    case MedicalConditions => None
    case FitnessGoals => None
    case AgreeToTerms =>
      if !d.agreeToTerms then Some("You must agree to the terms and conditions") else None
  }

  const AllFields: set<Field> := {Name, Email, Phone, EmergencyContact, MedicalConditions, FitnessGoals, AgreeToTerms}

  /** The error map `validateForm` builds: one entry per field with a message. */
  function FormErrors(d: FormData): (r: map<Field, string>)
    ensures forall f :: f in r <==> ErrorFor(d, f).Some?
    ensures forall f :: f in r ==> r[f] == ErrorFor(d, f).value
  {
    map f | f in AllFields && ErrorFor(d, f).Some? :: ErrorFor(d, f).value
  }

  /** A form is complete when every required text has a non-space character, the email matches
      the pattern and the terms are accepted. */
  predicate Complete(d: FormData)
  {
    && (exists i | 0 <= i < |d.name| :: !IsSpace(d.name[i]))
    && (exists i | 0 <= i < |d.phone| :: !IsSpace(d.phone[i]))
    && (exists i | 0 <= i < |d.emergencyContact| :: !IsSpace(d.emergencyContact[i]))
    && EmailMatches(d.email)
    && d.agreeToTerms
  }

  /** A complete form gets no error: an email matching the pattern is never blank. */
  lemma CompleteHasNoErrors(d: FormData)
    requires Complete(d)
    ensures FormErrors(d) == map[]
  {
    var p: nat, q: nat :| p < q < |d.email| && MatchAt(d.email, p, q);
    assert !IsSpace(d.email[p - 1]);
    forall f ensures ErrorFor(d, f).None? {
      match f
      case Name =>
      case Email =>
      case Phone =>
      case EmergencyContact =>
      case MedicalConditions =>
      case FitnessGoals =>
      case AgreeToTerms =>
    }
    assert FormErrors(d).Keys == {};
  }

  /** The form validates exactly when it is complete. */
  lemma ValidExactlyWhenComplete(d: FormData)
    ensures FormErrors(d) == map[] <==> Complete(d)
  {
    if Complete(d) {
      CompleteHasNoErrors(d);
    }
    if FormErrors(d) == map[] {
      assert ErrorFor(d, Name).None? && ErrorFor(d, Email).None? && ErrorFor(d, Phone).None?;
      assert ErrorFor(d, EmergencyContact).None? && ErrorFor(d, AgreeToTerms).None?;
    }
  }

  /** Forms that agree on the required fields get the same errors. */
  lemma SameRequiredSameErrors(d: FormData, e: FormData)
    requires d.name == e.name && d.email == e.email && d.phone == e.phone
    requires d.emergencyContact == e.emergencyContact && d.agreeToTerms == e.agreeToTerms
    ensures FormErrors(d) == FormErrors(e)
  {
    forall f ensures ErrorFor(d, f) == ErrorFor(e, f) {
    }
  }

  /** The optional fields never affect validation. */
  lemma OptionalFieldsIgnored(d: FormData, s: string)
    ensures FormErrors(WithField(d, MedicalConditions, Typed(s))) == FormErrors(d)
    ensures FormErrors(WithField(d, FitnessGoals, Typed(s))) == FormErrors(d)
  {
    SameRequiredSameErrors(WithField(d, MedicalConditions, Typed(s)), d);
    SameRequiredSameErrors(WithField(d, FitnessGoals, Typed(s)), d);
  }

  const EmptyForm := FormData("", "", "", "", "", "", false)

  const SubmitFailed := "Failed to enroll in course. Please try again."

  class Form {
    var data: FormData
    var errors: map<Field, string>
    var isSubmitting: bool
    var submitError: Option<string>
    /** Whether `onClose` has been called. */
    var closed: bool

    /** While a submission is in flight the form had validated and no failure is shown. */
    predicate Valid()
      reads this
    {
      isSubmitting ==> submitError == None
    }

    constructor()
      ensures Valid()
      ensures data == EmptyForm && errors == map[]
      ensures !isSubmitting && submitError == None && !closed
    {
      data := EmptyForm;
      errors := map[];
      isSubmitting := false;
      submitError := None;
      closed := false;
    }

    /** Replaces the whole error map and reports whether it is empty. */
    method ValidateForm() returns (ok: bool)
      modifies this
      ensures errors == FormErrors(data)
      ensures ok <==> Complete(data)
      ensures data == old(data) && isSubmitting == old(isSubmitting)
      ensures submitError == old(submitError) && closed == old(closed)
    {
      errors := FormErrors(data);
      ValidExactlyWhenComplete(data);
      ok := errors == map[];
    }

    /** Sets one field and clears that field's error, if it had one; every other field and
        error stays as it was. */
    method HandleInputChange(field: Field, value: Value)
      requires Fits(field, value)
      modifies this
      ensures data == WithField(old(data), field, value)
      ensures field !in errors
      ensures forall f :: f != field ==> (f in errors <==> f in old(errors))
      ensures forall f :: f != field && f in errors ==> errors[f] == old(errors)[f]
      ensures isSubmitting == old(isSubmitting) && submitError == old(submitError) && closed == old(closed)
    {
      data := WithField(data, field, value);
      if field in errors {
        errors := errors - {field};
      }
    }

    /** The part of `handleSubmit` before the `await`: an incomplete form only gets its errors;
        a complete one starts submitting, clears the failure message and yields the `onEnroll`
        call to make. */
    method Submit(courseId: Id) returns (call: Option<(Id, FormData)>)
      requires Valid()
      modifies this
      ensures Valid()
      ensures errors == FormErrors(data) && data == old(data) && closed == old(closed)
      ensures call.Some? <==> Complete(data)
      ensures call.Some? ==> call.value == (courseId, data) && isSubmitting && submitError == None
      ensures call.None? ==> isSubmitting == old(isSubmitting) && submitError == old(submitError)
    {
      var ok := ValidateForm();
      if !ok {
        return None;
      }
      isSubmitting := true;
      submitError := None;
      call := Some((courseId, data));
    }

    /** The part after the `await`: success closes the form, failure shows the fixed message and
        leaves it open; either way submitting ends. */
    method Settle(succeeded: bool)
      requires Valid() && isSubmitting
      modifies this
      ensures Valid()
      ensures !isSubmitting
      ensures succeeded ==> closed && submitError == None
      ensures !succeeded ==> submitError == Some(SubmitFailed) && closed == old(closed)
      ensures data == old(data) && errors == old(errors)
    {
      if succeeded {
        closed := true;
      } else {
        submitError := Some(SubmitFailed);
      }
      isSubmitting := false;
    }
  }
}
