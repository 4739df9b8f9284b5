/** `frontend/src/components/RequirementForm.jsx`: the three fields of the
    first step and the submit guard in front of the page's `onNext`. */
module RequirementForm {
  import opened Common

  /** The page's `formData`, which this form shows and edits. */
  datatype FormData = FormData(requirementId: string, requirementText: string, geminiApiKey: string)

  datatype FormField = RequirementId | RequirementText | GeminiApiKey

  function Read(f: FormData, field: FormField): string
  {
    match field
    case RequirementId => f.requirementId
    case RequirementText => f.requirementText
    case GeminiApiKey => f.geminiApiKey
  }

  const Missing := "Please fill in all required fields"

  /** `handleSubmit`: `onNext` runs when all three strings are truthy, that
      is non-empty; there is no trimming. Otherwise the form alerts. */
  function HandleSubmit(f: FormData): (r: Guard)
    ensures r == Proceed <==> forall field :: Read(f, field) != ""
    ensures r != Proceed ==> r == Alert(Missing)
  {
    assert Read(f, RequirementId) == f.requirementId;
    assert Read(f, RequirementText) == f.requirementText;
    assert Read(f, GeminiApiKey) == f.geminiApiKey;
    if f.requirementId != "" && f.requirementText != "" && f.geminiApiKey != "" then Proceed
    else Alert(Missing)
  }

  predicate AllBlank(s: string)
  {
    forall i :: 0 <= i < |s| ==> IsSpace(s[i])
  }

  lemma {:induction false} TrimBlank(s: string)
    requires AllBlank(s)
    ensures Trim(s) == ""
  {
    if s != [] {
      assert TrimStart(s) == TrimStart(s[1..]);
      TrimBlank(s[1..]);
    }
  }

  /** Fields holding nothing but spaces pass the guard, although trimming
      would leave them empty. */
  lemma BlankFieldsPass(f: FormData)
    requires forall field :: Read(f, field) != "" && AllBlank(Read(f, field))
    ensures HandleSubmit(f) == Proceed
    ensures forall field :: Trim(Read(f, field)) == ""
  {
    forall field ensures Trim(Read(f, field)) == "" {
      TrimBlank(Read(f, field));
    }
  }
}
