/** The detailed application form: ten text fields, per-field edits and a
  * submit that insists on four of them. */
module ApplicationForm {

  datatype Field =
    | ProjectTitle | OrganizationType | ContactPerson | Email | Phone
    | RequestedAmount | ProjectDescription | Goals | Timeline | Budget

  datatype FormData = FormData(
    projectTitle: string,
    organizationType: string,
    contactPerson: string,
    email: string,
    phone: string,
    requestedAmount: string,
    projectDescription: string,
    goals: string,
    timeline: string,
    budget: string)

  const EmptyForm: FormData := FormData("", "", "", "", "", "", "", "", "", "")

  function Get(d: FormData, f: Field): string {
    match f
    case ProjectTitle => d.projectTitle
    case OrganizationType => d.organizationType
    case ContactPerson => d.contactPerson
    case Email => d.email
    case Phone => d.phone
    case RequestedAmount => d.requestedAmount
    case ProjectDescription => d.projectDescription
    case Goals => d.goals
    case Timeline => d.timeline
    case Budget => d.budget
  }

  /** The object spread `{ ...d, [f]: v }`: field `f` becomes `v`, every
    * other field keeps its value. */
  function With(d: FormData, f: Field, v: string): (r: FormData)
    ensures Get(r, f) == v
    ensures forall g :: g != f ==> Get(r, g) == Get(d, g)
  {
    match f
    case ProjectTitle => d.(projectTitle := v)
    case OrganizationType => d.(organizationType := v)
    case ContactPerson => d.(contactPerson := v)
    case Email => d.(email := v)
    case Phone => d.(phone := v)
    case RequestedAmount => d.(requestedAmount := v)
    case ProjectDescription => d.(projectDescription := v)
    case Goals => d.(goals := v)
    case Timeline => d.(timeline := v)
    case Budget => d.(budget := v)
  }

  /** A form is determined by its ten fields. */
  lemma FieldsDetermineForm(d: FormData, e: FormData)
    requires forall f :: Get(d, f) == Get(e, f)
    ensures d == e
  {
    assert Get(d, ProjectTitle) == Get(e, ProjectTitle);
    assert Get(d, OrganizationType) == Get(e, OrganizationType);
    assert Get(d, ContactPerson) == Get(e, ContactPerson);
    assert Get(d, Email) == Get(e, Email);
    assert Get(d, Phone) == Get(e, Phone);
    assert Get(d, RequestedAmount) == Get(e, RequestedAmount);
    assert Get(d, ProjectDescription) == Get(e, ProjectDescription);
    assert Get(d, Goals) == Get(e, Goals);
    assert Get(d, Timeline) == Get(e, Timeline);
    assert Get(d, Budget) == Get(e, Budget);
  }

  /** Writing back the value a field already has changes nothing, and a
    * later write to the same field overrides an earlier one. */
  lemma WithLaws(d: FormData, f: Field, v: string, w: string)
    ensures With(d, f, Get(d, f)) == d
    ensures With(With(d, f, v), f, w) == With(d, f, w)
  {
    FieldsDetermineForm(With(d, f, Get(d, f)), d);
    FieldsDetermineForm(With(With(d, f, v), f, w), With(d, f, w));
  }

  predicate IsRequired(f: Field) {
    f == ProjectTitle || f == ContactPerson || f == Email || f == ProjectDescription
  }

  /** The submit check as the form performs it. */
  predicate MissingRequired(d: FormData) {
    d.projectTitle == "" || d.contactPerson == "" || d.email == "" || d.projectDescription == ""
  }

  /** A form is incomplete exactly when some required field is empty. */
  lemma MissingRequiredIff(d: FormData)
    ensures MissingRequired(d) <==> exists f :: IsRequired(f) && Get(d, f) == ""
  {
    if MissingRequired(d) {
      if d.projectTitle == "" {
        assert IsRequired(ProjectTitle) && Get(d, ProjectTitle) == "";
      } else if d.contactPerson == "" {
        assert IsRequired(ContactPerson) && Get(d, ContactPerson) == "";
      } else if d.email == "" {
        assert IsRequired(Email) && Get(d, Email) == "";
      } else {
        assert IsRequired(ProjectDescription) && Get(d, ProjectDescription) == "";
      }
    }
  }

  /** Editing an optional field never changes whether the form may be submitted. */
  lemma OptionalFieldsDoNotMatter(d: FormData, f: Field, v: string)
    requires !IsRequired(f)
    ensures MissingRequired(With(d, f, v)) == MissingRequired(d)
  {
    MissingRequiredIff(d);
    MissingRequiredIff(With(d, f, v));
    assert forall g :: IsRequired(g) ==> Get(With(d, f, v), g) == Get(d, g);
  }

  /** What a submission does, in order. */
  datatype Effect =
    | ToastError(text: string)
    | Submitted(data: FormData)
    | ToastSuccess(text: string)
    | Closed

  const MissingFieldsMessage: string := "Пожалуйста, заполните все обязательные поля"
  const SuccessMessage: string := "Заявка успешно подана!"

  class Form {
    var formData: FormData

    constructor ()
      ensures formData == EmptyForm
      ensures forall f :: Get(formData, f) == ""
    {
      formData := EmptyForm;
    }

    method HandleChange(field: Field, value: string)
      modifies this
      ensures formData == With(old(formData), field, value)
    {
      formData := With(formData, field, value);
    }

    /** An incomplete form only shows an error; a complete one is handed
      * over as it stands, announced, and the form is closed. */
    method HandleSubmit() returns (effects: seq<Effect>)
      ensures MissingRequired(formData) ==> effects == [ToastError(MissingFieldsMessage)]
      ensures !MissingRequired(formData) ==>
        effects == [Submitted(formData), ToastSuccess(SuccessMessage), Closed]
      ensures forall i :: 0 <= i < |effects| && effects[i].Submitted? ==>
        forall f :: IsRequired(f) ==> Get(effects[i].data, f) != ""
    {
      if formData.projectTitle == "" || formData.contactPerson == ""
        || formData.email == "" || formData.projectDescription == "" {
        effects := [ToastError(MissingFieldsMessage)];
        return;
      }
      effects := [Submitted(formData)];
      effects := effects + [ToastSuccess(SuccessMessage)];
      effects := effects + [Closed];
    }
  }
}
