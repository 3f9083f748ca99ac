/** The patient information form: a nine-field record edited one field at a time, and
    the required-field predicate whose value the form reports to the wizard. */
module PatientInfoForm {

  /** The names of the form's fields (the `name` of each input and select). */
  datatype Field =
    | FullName | Age | Gender | Email | Phone
    | Address | MedicalHistory | FamilyHistory | CurrentMedications

  /** The form's `formData` state: every field holds the text the user entered. */
  datatype FormData = FormData(
    fullName: string,
    age: string,
    gender: string,
    email: string,
    phone: string,
    address: string,
    medicalHistory: string,
    familyHistory: string,
    currentMedications: string)

  /** The value of one field, `formData[name]`. */
  function Get(d: FormData, f: Field): string
  {
    match f
    case FullName => d.fullName
    case Age => d.age
    case Gender => d.gender
    case Email => d.email
    case Phone => d.phone
    case Address => d.address
    case MedicalHistory => d.medicalHistory
    case FamilyHistory => d.familyHistory
    case CurrentMedications => d.currentMedications
  }

  /** `{ ...prev, [name]: value }`: the named field takes the new value, every other
      field keeps its old one. */
  function With(d: FormData, f: Field, v: string): (r: FormData)
    ensures Get(r, f) == v
    ensures forall g :: g != f ==> Get(r, g) == Get(d, g)
  {
    match f
    case FullName => d.(fullName := v)
    case Age => d.(age := v)
    case Gender => d.(gender := v)
    case Email => d.(email := v)
    case Phone => d.(phone := v)
    case Address => d.(address := v)
    case MedicalHistory => d.(medicalHistory := v)
    case FamilyHistory => d.(familyHistory := v)
    case CurrentMedications => d.(currentMedications := v)
  }

  /** The fields marked required in the form. */
  predicate IsRequired(f: Field)
  {
    f == FullName || f == Age || f == Gender || f == Phone
  }

  /** The completeness check the handlers report: the four required fields are non-empty. */
  predicate IsComplete(d: FormData)
  {
    d.fullName != "" && d.age != "" && d.gender != "" && d.phone != ""
  }

  /** The form is complete exactly when every required field is filled. */
  lemma {:induction false} CompleteIffRequiredFilled(d: FormData)
    ensures IsComplete(d) <==> forall f :: IsRequired(f) ==> Get(d, f) != ""
  {
    if IsComplete(d) {
      forall f | IsRequired(f) ensures Get(d, f) != "" {
        match f
        case FullName =>
        case Age =>
        case Gender =>
        case Phone =>
      }
    } else {
      if d.fullName == "" {
        assert Get(d, FullName) == "";
      } else if d.age == "" {
        assert Get(d, Age) == "";
      } else if d.gender == "" {
        assert Get(d, Gender) == "";
      } else {
        assert Get(d, Phone) == "";
      }
    }
  }

  /** Editing an optional field never changes whether the form is complete. */
  lemma OptionalFieldIrrelevant(d: FormData, f: Field, v: string)
    requires !IsRequired(f)
    ensures IsComplete(With(d, f, v)) == IsComplete(d)
  {
  }

  /** Clearing a required field always makes the form incomplete. */
  lemma ClearingRequiredFieldIncomplete(d: FormData, f: Field)
    requires IsRequired(f)
    ensures !IsComplete(With(d, f, ""))
  {
  }

  /** The record the form starts with. */
  function InitialFormData(): (r: FormData)
    ensures forall f :: Get(r, f) == ""
    ensures !IsComplete(r)
  {
    FormData("", "", "", "", "", "", "", "", "")
  }

  /** The demo record the form fills itself with after mounting. */
  function DemoFormData(): (r: FormData)
    ensures IsComplete(r)
    ensures forall f :: Get(r, f) != ""
  {
    FormData(
      "John Doe",
      "32",
      "male",
      "john.doe@example.com",
      "+1 (555) 123-4567",
      "123 Main St, Anytown, USA",
      "No previous history of sickle cell disease.",
      "immediate",
      "None")
  }

  /** The completeness a handler would report if it looked at the record after the edit
      (the intended behaviour; the handlers below report the record before the edit). */
  function CompletenessAfterEdit(before: FormData, f: Field, v: string): (r: bool)
    ensures !IsRequired(f) ==> r == IsComplete(before)
    ensures IsRequired(f) ==>
      (r <==> v != "" && forall g :: IsRequired(g) && g != f ==> Get(before, g) != "")
  {
    CompleteIffRequiredFilled(before);
    CompleteIffRequiredFilled(With(before, f, v));
    IsComplete(With(before, f, v))
  }

  /** The report as written lags one edit behind: typing the last missing required
      field leaves a complete record on screen while `false` is reported. */
  lemma StaleReportAfterEdit()
    ensures var before := DemoFormData().(phone := "");
            !IsComplete(before) && IsComplete(With(before, Phone, "5"))
            && CompletenessAfterEdit(before, Phone, "5")
  {
  }

  /** The report as written also lags the other way: clearing a required field of a
      complete record leaves an incomplete record on screen while the record captured
      before the edit, which is what gets reported, is complete. */
  lemma StaleReportAfterClearing(d: FormData, f: Field)
    requires IsComplete(d) && IsRequired(f)
    ensures !IsComplete(With(d, f, "")) && !CompletenessAfterEdit(d, f, "")
  {
  }

  /** The form component. Each handler returns the value it passes to
      `onFormComplete` (the 100 ms timer in front of that call is not modelled). */
  class PatientInfoFormState {
    var formData: FormData

    constructor ()
      ensures formData == InitialFormData()
      ensures !IsComplete(formData)
    {
      formData := InitialFormData();
    }

    /** The demo prefill timer's callback: the whole record is replaced and `true` reported. */
    method DemoPrefill() returns (reported: bool)
      modifies this
      ensures formData == DemoFormData()
      ensures reported && reported == IsComplete(formData)
    {
      formData := DemoFormData();
      reported := true;
    }

    /** `handleInputChange`: only the named field changes; the reported completeness is
        computed from the record captured before the edit. */
    method HandleInputChange(name: Field, value: string) returns (reported: bool)
      modifies this
      ensures Get(formData, name) == value
      ensures forall g :: g != name ==> Get(formData, g) == Get(old(formData), g)
      ensures reported == IsComplete(old(formData))
    {
      var captured := formData;
      formData := With(formData, name, value);
      reported := captured.fullName != "" && captured.age != "" && captured.gender != "" && captured.phone != "";
    }

    /** `handleSelectChange` (used for `gender` and `familyHistory`): the same update and
        the same stale report as `HandleInputChange`. */
    method HandleSelectChange(name: Field, value: string) returns (reported: bool)
      modifies this
      ensures Get(formData, name) == value
      ensures forall g :: g != name ==> Get(formData, g) == Get(old(formData), g)
      ensures reported == IsComplete(old(formData))
    {
      var captured := formData;
      formData := With(formData, name, value);
      reported := captured.fullName != "" && captured.age != "" && captured.gender != "" && captured.phone != "";
    }
  }
}
