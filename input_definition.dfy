/** `frontend/src/components/InputDefinition.jsx`: the draft of the input
    being entered, its conversion into an input definition, and the guard
    before the next step. The list itself belongs to the page, which the
    form updates through `setInputs`. */
module InputDefinition {
  import opened Common
  import opened Schemas

  /** `currentInput`: every field as the text the user typed. */
  datatype InputDraft = InputDraft(
    name: string,
    dataType: string,
    unit: string,
    rangeMin: string,
    rangeMax: string,
    allowedValues: string,
    description: string)

  datatype InputField = Name | DataType | Unit | RangeMin | RangeMax | AllowedValues | Description

  /** The draft on mount and after every successful add. */
  const DefaultDraft := InputDraft("", "int", "", "", "", "", "")

  function Read(d: InputDraft, field: InputField): string
  {
    match field
    case Name => d.name
    case DataType => d.dataType
    case Unit => d.unit
    case RangeMin => d.rangeMin
    case RangeMax => d.rangeMax
    case AllowedValues => d.allowedValues
    case Description => d.description
  }

  /** `setCurrentInput({...currentInput, [field]: value})`. */
  function Edited(d: InputDraft, field: InputField, value: string): (r: InputDraft)
    ensures Read(r, field) == value
    ensures forall g :: g != field ==> Read(r, g) == Read(d, g)
  {
    match field
    case Name => d.(name := value)
    case DataType => d.(dataType := value)
    case Unit => d.(unit := value)
    case RangeMin => d.(rangeMin := value)
    case RangeMax => d.(rangeMax := value)
    case AllowedValues => d.(allowedValues := value)
    case Description => d.(description := value)
  }

  /** JavaScript `parseFloat`; `None` stands for `NaN`, which reaches the
      backend as `null`. */
  type ParseFloat = string -> Option<real>

  /** `s ? parseFloat(s) : null` */
  function Bound(s: string, parseFloat: ParseFloat): (r: Option<real>)
    ensures s == "" ==> r.None?
    ensures s != "" ==> r == parseFloat(s)
  {
    if s == "" then None else parseFloat(s)
  }

  /** `newInput`: the draft spread as it is (so `unit` and `description` are
      sent even when empty), the bounds parsed, the allowed values listed. */
  function NewInput(d: InputDraft, parseFloat: ParseFloat): InputDef
  {
    InputDef(d.name, d.dataType, Some(d.unit), Bound(d.rangeMin, parseFloat), Bound(d.rangeMax, parseFloat),
             CommaList(d.allowedValues), Some(d.description))
  }

  /** The guard of `addInput`. */
  predicate Addable(d: InputDraft)
  {
    d.name != "" && d.dataType != ""
  }

  /** The input added from a draft keeps the typed text, and its allowed
      values are clean items: none empty, none padded, none with a comma. */
  lemma NewInputFields(d: InputDraft, parseFloat: ParseFloat)
    ensures var r := NewInput(d, parseFloat);
      && r.name == d.name && r.dataType == d.dataType
      && r.unit == Some(d.unit) && r.description == Some(d.description)
      && (d.rangeMin == "" ==> r.rangeMin.None?) && (d.rangeMin != "" ==> r.rangeMin == parseFloat(d.rangeMin))
      && (d.rangeMax == "" ==> r.rangeMax.None?) && (d.rangeMax != "" ==> r.rangeMax == parseFloat(d.rangeMax))
      && (r.allowedValues.None? <==> d.allowedValues == "")
      && (r.allowedValues.Some? ==> forall i :: 0 <= i < |r.allowedValues.value| ==>
            r.allowedValues.value[i] != "" && Trimmed(r.allowedValues.value[i]) && ',' !in r.allowedValues.value[i])
  {
    if d.allowedValues != "" {
      CommaListItemsCommaFree(d.allowedValues);
    }
  }

  /** `handleNext`: continue only with at least one input. */
  function HandleNext(inputs: seq<InputDef>): (r: Guard)
    ensures r == Proceed <==> |inputs| > 0
    ensures r != Proceed ==> r == Alert("Please add at least one input")
  {
    if |inputs| == 0 then Alert("Please add at least one input") else Proceed
  }

  /** The form's own state: the draft, which lives as long as the step is
      shown (going back and forth starts from the default draft again). */
  class InputForm {
    var draft: InputDraft

    constructor()
      ensures draft == DefaultDraft
    {
      draft := DefaultDraft;
    }

    method Edit(field: InputField, value: string)
      modifies this
      ensures draft == Edited(old(draft), field, value)
    {
      draft := Edited(draft, field, value);
    }

    /** `addInput`: returns the list handed to `setInputs`, or `None` when
        the form alerts instead. A successful add appends exactly one input
        and resets the draft; a refused one changes nothing. */
    method AddInput(inputs: seq<InputDef>, parseFloat: ParseFloat) returns (update: Option<seq<InputDef>>)
      modifies this
      ensures !Addable(old(draft)) ==> update.None? && draft == old(draft)
      ensures Addable(old(draft)) ==>
        && update == Some(inputs + [NewInput(old(draft), parseFloat)])
        && update.value[..|inputs|] == inputs
        && draft == DefaultDraft
    {
      if draft.name == "" || draft.dataType == "" {
        return None;
      }
      var newInput := NewInput(draft, parseFloat);
      update := Some(inputs + [newInput]);
      draft := DefaultDraft;
    }
  }
}
