/**
 * The unsaved-changes tracker of `changes.js`: module-level state holding a
 * counter of requests in flight and the form element chosen by `setup`, whose
 * inputs carry the value snapshot `setup` writes into their `data-orig-value`.
 *
 * The page (`document.querySelector`, the body's `data-unsaved-changes`
 * attribute, `document.activeElement`) is passed in as values; the
 * `beforeunload` listener is counted, and its decision is `PromptsOnUnload`.
 */
module Changes {
  import opened Wrappers
  import opened JsValues

  const SpecialInputTypes: seq<string> := ["radio", "checkbox"]
  /** The list spells `files`, so `<input type="file">` is not excluded. */
  const ExcludedInputTypes: seq<string> := ["hidden", "files", "password"]

  /** An `<input>` or `<textarea>`: its type, value, checked state and `dataset.origValue`. */
  datatype Input = Input(inputType: string, value: string, checked: bool, origValue: Option<string>)

  /** A type whose value is compared: neither special nor excluded. */
  predicate ComparesValue(t: string) {
    t !in SpecialInputTypes && t !in ExcludedInputTypes
  }

  /** `${checked}`: what a boolean becomes when written to a data attribute or a template literal. */
  function CheckedString(b: bool): string {
    if b then "true" else "false"
  }

  /** What `setup` records for one element. */
  function Snapshot(el: Input): (r: Input)
    ensures r.(origValue := el.origValue) == el
  {
    if ComparesValue(el.inputType) then el.(origValue := Some(el.value))
    else if el.inputType in SpecialInputTypes then el.(origValue := Some(CheckedString(el.checked)))
    else el
  }

  function SnapshotAll(inputs: seq<Input>): (r: seq<Input>)
    ensures |r| == |inputs|
    ensures forall i :: 0 <= i < |inputs| ==> r[i] == Snapshot(inputs[i])
  {
    seq(|inputs|, i requires 0 <= i < |inputs| => Snapshot(inputs[i]))
  }

  /** The test `hasUnsavedChanges` applies to one element. */
  predicate Changed(el: Input) {
    if ComparesValue(el.inputType) then el.origValue != Some(el.value)
    else if el.inputType in SpecialInputTypes then el.origValue != Some(CheckedString(el.checked))
    else false
  }

  predicate FormHasChanges(inputs: seq<Input>) {
    exists i :: 0 <= i < |inputs| && Changed(inputs[i])
  }

  /** `formHasChanges || formHasErrantChanges`, the body flag as it is read from the dataset. */
  function ChangesOrFlag(formHasChanges: bool, bodyFlag: Option<string>): JsValue {
    if formHasChanges then Bool(true)
    else match bodyFlag
      case None => Undefined
      case Some(s) => Str(s)
  }

  /** `isUnloadingToSave`: the focused element is a submit control. */
  predicate IsUnloadingToSave(focusedType: string) {
    focusedType == "submit"
  }

  /** The decision of `hasUnsavedChanges` once the inputs have been compared. */
  function Decide(count: int, formHasChanges: bool, bodyFlag: Option<string>, focusedType: string): (r: JsValue)
    ensures count > 0 ==> r == Bool(true)
    ensures count <= 0 && IsUnloadingToSave(focusedType) ==> r == Bool(false)
    ensures count <= 0 && !IsUnloadingToSave(focusedType) ==> r == ChangesOrFlag(formHasChanges, bodyFlag)
  {
    if count > 0 then Bool(true)
    else if !IsUnloadingToSave(focusedType) then ChangesOrFlag(formHasChanges, bodyFlag)
    else Bool(false)
  }

  /** The element `setup` found; its inputs change as the user edits the form. */
  class FormElement {
    var inputs: seq<Input>

    constructor(inputs: seq<Input>)
      ensures this.inputs == inputs
    {
      this.inputs := inputs;
    }
  }

  class Tracker {
    var inFlightRequestCount: int
    /** `null` both before `setup` and after a `setup` whose target was not found. */
    var wrapper: FormElement?
    /** How many `beforeunload` listeners `setup` has registered. */
    var unloadListeners: nat

    constructor()
      ensures inFlightRequestCount == 0 && wrapper == null && unloadListeners == 0
    {
      inFlightRequestCount := 0;
      wrapper := null;
      unloadListeners := 0;
    }

    /**
     * `setup(target)`, given what the selector matched. A missing element
     * throws; otherwise every input records its snapshot and a listener is added.
     */
    method Setup(found: FormElement?) returns (r: Result<(), Exception>)
      modifies this`wrapper, this`unloadListeners, found
      ensures wrapper == found
      ensures r.Err? <==> found == null
      ensures found != null ==> found.inputs == SnapshotAll(old(found.inputs))
      ensures unloadListeners == old(unloadListeners) + (if found == null then 0 else 1)
    {
      wrapper := found;
      if found == null {
        return Err(Error("form target not found"));
      }
      var i := 0;
      while i < |found.inputs|
        invariant 0 <= i <= |found.inputs| == |old(found.inputs)|
        invariant forall k :: 0 <= k < i ==> found.inputs[k] == Snapshot(old(found.inputs)[k])
        invariant forall k :: i <= k < |found.inputs| ==> found.inputs[k] == old(found.inputs)[k]
        invariant wrapper == found && unloadListeners == old(unloadListeners)
      {
        found.inputs := found.inputs[i := Snapshot(found.inputs[i])];
        i := i + 1;
      }
      unloadListeners := unloadListeners + 1;
      r := Ok(());
    }

    /** No lower bound: nothing stops the counter from going below zero. */
    method IncrementInFlight()
      modifies this`inFlightRequestCount
      ensures inFlightRequestCount == old(inFlightRequestCount) + 1
    {
      inFlightRequestCount := inFlightRequestCount + 1;
    }

    method DecrementInFlight()
      modifies this`inFlightRequestCount
      ensures inFlightRequestCount == old(inFlightRequestCount) - 1
    {
      inFlightRequestCount := inFlightRequestCount - 1;
    }

    /**
     * `hasUnsavedChanges()`. The inputs are compared before the counter is
     * looked at, so without a wrapper it throws whatever the counter says.
     */
    function HasUnsavedChanges(bodyFlag: Option<string>, focusedType: string): (r: Result<JsValue, Exception>)
      reads this, wrapper
      ensures r.Err? <==> wrapper == null
      ensures r.Ok? && inFlightRequestCount > 0 ==> r.value == Bool(true)
      ensures r.Ok? && inFlightRequestCount <= 0 && IsUnloadingToSave(focusedType) ==> r.value == Bool(false)
      ensures r.Ok? && inFlightRequestCount <= 0 && !IsUnloadingToSave(focusedType) ==>
                r.value == ChangesOrFlag(FormHasChanges(wrapper.inputs), bodyFlag)
    {
      if wrapper == null then Err(TypeError("hasUnsavedChanges before setup"))
      else Ok(Decide(inFlightRequestCount, FormHasChanges(wrapper.inputs), bodyFlag, focusedType))
    }

    /** The `beforeunload` listener asks for confirmation when the answer is truthy. */
    predicate PromptsOnUnload(bodyFlag: Option<string>, focusedType: string)
      reads this, wrapper
    {
      var r := HasUnsavedChanges(bodyFlag, focusedType);
      r.Ok? && Truthy(r.value)
    }
  }

  // ---------------------------------------------------------------------------
  // Properties of the decision

  /** Right after the snapshot, no input counts as changed. */
  lemma SnapshotIsClean(inputs: seq<Input>)
    ensures !FormHasChanges(SnapshotAll(inputs))
  {
    var snap := SnapshotAll(inputs);
    forall i | 0 <= i < |snap|
      ensures !Changed(snap[i])
    {
      assert snap[i] == Snapshot(inputs[i]);
    }
  }

  /** `hidden` and `password` inputs never count, whatever their values. */
  lemma ExcludedNeverChanged(el: Input)
    requires el.inputType == "hidden" || el.inputType == "password"
    ensures !Changed(el)
  {
  }

  /** A file input is compared by value, since the exclusion list names `files`. */
  lemma FileInputComparedByValue(el: Input)
    requires el.inputType == "file"
    ensures Changed(el) <==> el.origValue != Some(el.value)
  {
  }

  /** An input added after `setup` has no snapshot, so a compared one always counts as changed. */
  lemma AddedInputCountsAsChanged(el: Input)
    requires el.origValue == None && (ComparesValue(el.inputType) || el.inputType in SpecialInputTypes)
    ensures Changed(el)
  {
  }

  /** A counter below zero decides like zero. */
  lemma NegativeCountIsZero(count: int, formHasChanges: bool, bodyFlag: Option<string>, focusedType: string)
    requires count < 0
    ensures Decide(count, formHasChanges, bodyFlag, focusedType) == Decide(0, formHasChanges, bodyFlag, focusedType)
  {
  }

  /**
   * Right after `setup`, with nothing in flight and no body flag, the page
   * has no unsaved changes: the answer is falsy (`undefined`, or `false` while
   * a submit control has focus).
   */
  lemma CleanAfterSetup(inputs: seq<Input>, focusedType: string)
    ensures !Truthy(Decide(0, FormHasChanges(SnapshotAll(inputs)), None, focusedType))
  {
    SnapshotIsClean(inputs);
  }

  /** An empty `data-unsaved-changes` attribute reads as "" and so does not make the answer truthy. */
  lemma EmptyBodyFlagIsFalsy(focusedType: string)
    requires !IsUnloadingToSave(focusedType)
    ensures !Truthy(Decide(0, false, Some(""), focusedType))
    ensures Truthy(Decide(0, false, Some("true"), focusedType))
  {
  }

  /** A client of the tracker: one request raised and settled leaves the counter where it was. */
  method IncrementThenDecrement(t: Tracker)
    modifies t`inFlightRequestCount
    ensures t.inFlightRequestCount == old(t.inFlightRequestCount)
  {
    t.IncrementInFlight();
    t.DecrementInFlight();
  }
}
