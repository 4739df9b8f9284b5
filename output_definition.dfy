/** `frontend/src/components/OutputDefinition.jsx`: the draft of the output
    being entered, its conversion into an output definition, and the guard
    before generation. The list itself belongs to the page, which the form
    updates through `setOutputs`. */
module OutputDefinition {
  import opened Common
  import opened Schemas

  /** `currentOutput`: every field as the text the user typed. */
  datatype OutputDraft = OutputDraft(
    name: string,
    dataType: string,
    unit: string,
    description: string,
    possibleValues: string)

  datatype OutputField = Name | DataType | Unit | Description | PossibleValues

  /** The draft on mount and after every successful add. */
  const DefaultDraft := OutputDraft("", "int", "", "", "")

  function Read(d: OutputDraft, field: OutputField): string
  {
    match field
    case Name => d.name
    case DataType => d.dataType
    case Unit => d.unit
    case Description => d.description
    case PossibleValues => d.possibleValues
  }

  /** `setCurrentOutput({...currentOutput, [field]: value})`. */
  function Edited(d: OutputDraft, field: OutputField, value: string): (r: OutputDraft)
    ensures Read(r, field) == value
    ensures forall g :: g != field ==> Read(r, g) == Read(d, g)
  {
    match field
    case Name => d.(name := value)
    case DataType => d.(dataType := value)
    case Unit => d.(unit := value)
    case Description => d.(description := value)
    case PossibleValues => d.(possibleValues := value)
  }

  /** `newOutput`: the draft spread as it is, the possible values listed. */
  function NewOutput(d: OutputDraft): OutputDef
  {
    OutputDef(d.name, d.dataType, Some(d.unit), Some(d.description), CommaList(d.possibleValues))
  }

  /** The guard of `addOutput`. */
  predicate Addable(d: OutputDraft)
  {
    d.name != "" && d.dataType != ""
  }

  /** The output added from a draft keeps the typed text, and its possible
      values are clean items: none empty, none padded, none with a comma. */
  lemma NewOutputFields(d: OutputDraft)
    ensures var r := NewOutput(d);
      && r.name == d.name && r.dataType == d.dataType
      && r.unit == Some(d.unit) && r.description == Some(d.description)
      && (r.possibleValues.None? <==> d.possibleValues == "")
      && (r.possibleValues.Some? ==> forall i :: 0 <= i < |r.possibleValues.value| ==>
            r.possibleValues.value[i] != "" && Trimmed(r.possibleValues.value[i]) && ',' !in r.possibleValues.value[i])
  {
    if d.possibleValues != "" {
      CommaListItemsCommaFree(d.possibleValues);
    }
  }

  /** `handleNext`: generate only with at least one output. */
  function HandleNext(outputs: seq<OutputDef>): (r: Guard)
    ensures r == Proceed <==> |outputs| > 0
    ensures r != Proceed ==> r == Alert("Please add at least one output")
  {
    if |outputs| == 0 then Alert("Please add at least one output") else Proceed
  }

  /** The form's own state: the draft, which lives as long as the step is shown. */
  class OutputForm {
    var draft: OutputDraft

    constructor()
      ensures draft == DefaultDraft
    {
      draft := DefaultDraft;
    }

    method Edit(field: OutputField, value: string)
      modifies this
      ensures draft == Edited(old(draft), field, value)
    {
      draft := Edited(draft, field, value);
    }

    /** `addOutput`: returns the list handed to `setOutputs`, or `None` when
        the form alerts instead. */
    method AddOutput(outputs: seq<OutputDef>) returns (update: Option<seq<OutputDef>>)
      modifies this
      ensures !Addable(old(draft)) ==> update.None? && draft == old(draft)
      ensures Addable(old(draft)) ==>
        && update == Some(outputs + [NewOutput(old(draft))])
        && update.value[..|outputs|] == outputs
        && draft == DefaultDraft
    {
      if draft.name == "" || draft.dataType == "" {
        return None;
      }
      var newOutput := NewOutput(draft);
      update := Some(outputs + [newOutput]);
      draft := DefaultDraft;
    }
  }
}
