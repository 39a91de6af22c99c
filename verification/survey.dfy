/**
  The answer set collected by the assessment form: one age and eight
  categorical answers, each a free string as far as the encoder is
  concerned. The form's widgets restrict what a user can actually submit;
  that restriction is the predicate `FromForm`.
 */
module Survey {

  /** One submission of the form, field by field. */
  datatype Answers = Answers(
    age: int,
    gender: string,
    familyHistory: string,
    workInterfere: string,
    remoteWork: string,
    benefits: string,
    careOptions: string,
    supervisor: string,
    mentalVsPhysical: string)

  /** The eight categorical questions, in the order the encoder lays them out. */
  datatype Field =
    | Gender
    | FamilyHistory
    | WorkInterfere
    | RemoteWork
    | Benefits
    | CareOptions
    | Supervisor
    | MentalVsPhysical

  const Fields: seq<Field> :=
    [Gender, FamilyHistory, WorkInterfere, RemoteWork, Benefits, CareOptions, Supervisor, MentalVsPhysical]

  /** Bounds of the age number input. */
  const MinAge: int := 18
  const MaxAge: int := 100

  /** The answer to one categorical question. */
  function Get(a: Answers, f: Field): string {
    match f
    case Gender => a.gender
    case FamilyHistory => a.familyHistory
    case WorkInterfere => a.workInterfere
    case RemoteWork => a.remoteWork
    case Benefits => a.benefits
    case CareOptions => a.careOptions
    case Supervisor => a.supervisor
    case MentalVsPhysical => a.mentalVsPhysical
  }

  /** The options each select box offers, in display order. */
  function Menu(f: Field): seq<string> {
    match f
    case Gender => ["Female", "Male", "Other"]
    case FamilyHistory => ["No", "Yes"]
    case WorkInterfere => ["Never", "Often", "Rarely", "Sometimes"]
    case RemoteWork => ["No", "Yes"]
    case Benefits => ["Don't know", "No", "Yes"]
    case CareOptions => ["Not sure", "Yes", "No"]
    case Supervisor => ["No", "Some of them", "Yes"]
    case MentalVsPhysical => ["Don't know", "No", "Yes"]
  }

  /** What the form's widgets can produce: an age in range and a listed option for every question. */
  predicate FromForm(a: Answers) {
    && MinAge <= a.age <= MaxAge
    && forall f: Field :: Get(a, f) in Menu(f)
  }

  /** Fields lists every question exactly once. */
  lemma FieldsEnumeratesQuestions()
    ensures |Fields| == 8
    ensures forall f: Field :: f in Fields
    ensures forall i, j :: 0 <= i < j < |Fields| ==> Fields[i] != Fields[j]
  {
    forall f: Field ensures f in Fields {
      match f
      case Gender => assert Fields[0] == f;
      case FamilyHistory => assert Fields[1] == f;
      case WorkInterfere => assert Fields[2] == f;
      case RemoteWork => assert Fields[3] == f;
      case Benefits => assert Fields[4] == f;
      case CareOptions => assert Fields[5] == f;
      case Supervisor => assert Fields[6] == f;
      case MentalVsPhysical => assert Fields[7] == f;
    }
  }
}
