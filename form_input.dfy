/**
 * The form-input mixin of `formInput.js`: the id and label a field derives
 * from its props, the CSS classes it computes, whether it holds a value, the
 * modifier validator, the check made on mounting, and the handlers that keep
 * `localValue` and `isFocused` and emit the component's events.
 */
module FormInput {
  import opened Wrappers
  import opened JsValues
  import StringUtil

  // ---------------------------------------------------------------------------
  // Computeds

  /** `fieldId`: the `id` prop when it is non-empty, otherwise `id_` and the name. */
  function FieldId(id: string, name: JsValue): (r: string)
    ensures id != "" ==> r == id
    ensures id == "" ==> r == "id_" + ToJsString(name)
  {
    if id != "" then id else "id_" + ToJsString(name)
  }

  /** Two fields without an explicit id get different ids exactly when their names differ. */
  lemma DerivedIdsDistinct(a: string, b: string)
    ensures FieldId("", Str(a)) == FieldId("", Str(b)) <==> a == b
  {
    if FieldId("", Str(a)) == FieldId("", Str(b)) {
      assert a == FieldId("", Str(a))[3..];
    }
  }

  /**
   * `fieldLabel`: the `label` prop when non-empty, else the title-cased name
   * when the name is a string, else the empty string.
   */
  function FieldLabel(labelText: string, name: JsValue): (r: Result<string, Exception>)
    ensures labelText != "" ==> r == Ok(labelText)
    ensures labelText == "" && !name.Str? ==> r == Ok("")
    ensures labelText == "" && name.Str? ==>
              && (r.Err? <==> StringUtil.HasEmptyWord(name.s))
              && (r.Ok? ==> StringUtil.IsTitleCased(name.s, r.value))
  {
    if labelText != "" then Ok(labelText)
    else if StringUtil.IsStringValue(name) then StringUtil.ToTitleCase(name.s)
    else Ok("")
  }

  /**
   * `hasValue`: a number counts when it is not negative, so 0 counts;
   * anything else counts when it is truthy.
   */
  function HasValue(localValue: JsValue): (r: bool)
    ensures localValue.Num? ==> (r <==> localValue.n >= 0)
    ensures !localValue.Num? ==> (r <==> Truthy(localValue))
  {
    match localValue
    case Num(n) => n >= 0
    case _ => Truthy(localValue)
  }

  /** Zero is a value although it is falsy; a negative number is not. */
  lemma ZeroHasValue()
    ensures HasValue(Num(0)) && !Truthy(Num(0))
    ensures !HasValue(Num(-1)) && Truthy(Num(-1))
    ensures !HasValue(Str("")) && !HasValue(Null) && !HasValue(Undefined)
  {
  }

  /** The classes an object binding turns on: its keys with truthy values. */
  function ClassesOn(binding: map<string, JsValue>): set<string> {
    set k | k in binding && Truthy(binding[k])
  }

  /**
   * The object `wrapperClass` returns, key by key in source order: a
   * computed `c-input--<modifier>` key equal to `c-input--float` overwrites
   * the first entry.
   */
  function WrapperBinding(modifier: string, isFocused: bool, hideLabel: bool, hasValue: bool,
                          errorCount: nat, showConditionalField: JsValue): map<string, JsValue>
  {
    map["c-input--float" := Bool(modifier == "minimal")]
       ["c-input--" + modifier := Str(modifier)]
       ["is-focused" := Bool(isFocused)]
       ["is-label-hidden" := Bool(hideLabel)]
       ["has-value" := Bool(hasValue)]
       ["has-invalid-feedback" := Bool(errorCount > 0)]
       ["d-none" := Bool(showConditionalField == Bool(false))]
  }

  /** `wrapperClass`, as the set of classes it turns on. */
  function WrapperClass(modifier: string, isFocused: bool, hideLabel: bool, hasValue: bool,
                        errorCount: nat, showConditionalField: JsValue): set<string>
  {
    ClassesOn(WrapperBinding(modifier, isFocused, hideLabel, hasValue, errorCount, showConditionalField))
  }

  /** The computed modifier key differs from every fixed key but possibly `c-input--float`. */
  lemma ModifierKeyDistinct(modifier: string)
    ensures var key := "c-input--" + modifier;
      && (key == "c-input--float" <==> modifier == "float")
      && (key == "c-input--" <==> modifier == "")
      && key != "is-focused" && key != "is-label-hidden" && key != "has-value"
      && key != "has-invalid-feedback" && key != "d-none"
  {
    var key := "c-input--" + modifier;
    if key == "c-input--float" {
      assert modifier == key[9..];
    }
    assert key[0] == 'c';
  }

  /** The modifier classes: `c-input--float` for both `minimal` and `float`, and one per non-empty modifier. */
  lemma WrapperModifierClasses(modifier: string, isFocused: bool, hideLabel: bool, hasValue: bool,
                               errorCount: nat, showConditionalField: JsValue)
    ensures var c := WrapperClass(modifier, isFocused, hideLabel, hasValue, errorCount, showConditionalField);
      && ("c-input--float" in c <==> modifier == "minimal" || modifier == "float")
      && (modifier != "" ==> "c-input--" + modifier in c)
      && "c-input--" !in c
  {
    ModifierKeyDistinct(modifier);
    var b := WrapperBinding(modifier, isFocused, hideLabel, hasValue, errorCount, showConditionalField);
    if modifier == "float" {
      assert b["c-input--float"] == Str("float");
    } else {
      assert b["c-input--float"] == Bool(modifier == "minimal");
    }
    assert b["c-input--" + modifier] == Str(modifier);
  }

  /** The state classes follow their flags; `has-invalid-feedback` follows the errors. */
  lemma WrapperStateClasses(modifier: string, isFocused: bool, hideLabel: bool, hasValue: bool,
                            errorCount: nat, showConditionalField: JsValue)
    ensures var c := WrapperClass(modifier, isFocused, hideLabel, hasValue, errorCount, showConditionalField);
      && ("is-focused" in c <==> isFocused)
      && ("is-label-hidden" in c <==> hideLabel)
      && ("has-value" in c <==> hasValue)
      && ("has-invalid-feedback" in c <==> errorCount > 0)
      && ("d-none" in c <==> showConditionalField == Bool(false))
  {
    ModifierKeyDistinct(modifier);
    var b := WrapperBinding(modifier, isFocused, hideLabel, hasValue, errorCount, showConditionalField);
    assert b["is-focused"] == Bool(isFocused);
    assert b["is-label-hidden"] == Bool(hideLabel);
    assert b["has-value"] == Bool(hasValue);
    assert b["has-invalid-feedback"] == Bool(errorCount > 0);
    assert b["d-none"] == Bool(showConditionalField == Bool(false));
  }

  /** `inputClass`: `is-invalid` exactly when there are errors. */
  function InputClass(errorCount: nat): (r: set<string>)
    ensures "is-invalid" in r <==> errorCount > 0
    ensures r <= {"is-invalid"}
  {
    ClassesOn(map["is-invalid" := Bool(errorCount > 0)])
  }

  /** The modifiers the validator accepts. */
  const Modifiers: seq<string> :=
    ["minimal", "seamless", "headline", "float", "inline-block", "inline-hack", "horizontal", "crops", "plants", ""]

  /** The `modifier` prop's validator. */
  function IsValidModifier(value: string): (r: bool)
    ensures r <==> value == "minimal" || value == "seamless" || value == "headline" || value == "float"
                   || value == "inline-block" || value == "inline-hack" || value == "horizontal"
                   || value == "crops" || value == "plants" || value == ""
  {
    value in Modifiers
  }

  /**
   * `mounted()`: a `minimal` or `float` field with a placeholder throws;
   * otherwise the result says whether the field focuses itself.
   */
  function MountCheck(modifier: string, placeholder: string, autofocus: bool): (r: Result<bool, Exception>)
    ensures r.Err? <==> (modifier == "minimal" || modifier == "float") && placeholder != ""
    ensures r.Ok? ==> r.value == autofocus
  {
    if (modifier == "minimal" || modifier == "float") && placeholder != "" then
      Err(Error("You cannot have a placeholder with modifier \"" + modifier + "\""))
    else Ok(autofocus)
  }

  /** The value `updateLocalValue(value)` stores. */
  function LocalValueFor(value: JsValue, modelValue: JsValue): (r: JsValue)
    ensures !IsNullish(value) ==> r == value
    ensures IsNullish(value) ==> r == modelValue
  {
    if value == Null || value == Undefined then modelValue else value
  }

  // ---------------------------------------------------------------------------
  // The component

  /** What the component emits. */
  datatype Event =
    | Focus
    | Blur
    | UpdateModelValue(value: JsValue)
    | EnterKeydown(event: JsValue)
    | Click(event: JsValue)
    | InputEvent(event: JsValue)

  class Field {
    const name: JsValue
    const id: string
    const labelText: string
    const placeholder: string
    const modifier: string
    const autofocus: bool
    var modelValue: JsValue

    var isFocused: bool
    var localValue: JsValue
    /** The events emitted so far, oldest first. */
    var emitted: seq<Event>
    /** How many times `focus()` was asked of the input element. */
    var focusRequests: nat

    /** `data()` and then the immediate `modelValue` watcher. */
    constructor(name: JsValue, id: string, labelText: string, placeholder: string, modifier: string,
                autofocus: bool, modelValue: JsValue)
      ensures this.name == name && this.id == id && this.labelText == labelText && this.placeholder == placeholder
      ensures this.modifier == modifier && this.autofocus == autofocus && this.modelValue == modelValue
      ensures !isFocused && localValue == modelValue && emitted == [] && focusRequests == 0
    {
      this.name := name;
      this.id := id;
      this.labelText := labelText;
      this.placeholder := placeholder;
      this.modifier := modifier;
      this.autofocus := autofocus;
      this.modelValue := modelValue;
      isFocused := false;
      localValue := Null;
      emitted := [];
      focusRequests := 0;
      new;
      UpdateLocalValue(modelValue);
    }

    /** `updateLocalValue(value)`: `null` and `undefined` fall back to `modelValue`. */
    method UpdateLocalValue(value: JsValue)
      modifies this`localValue
      ensures localValue == LocalValueFor(value, modelValue)
    {
      localValue := if value == Null || value == Undefined then modelValue else value;
    }

    /** A new `modelValue` prop: the watcher stores it as the local value. */
    method SetModelValue(value: JsValue)
      modifies this`modelValue, this`localValue
      ensures modelValue == value && localValue == value
    {
      modelValue := value;
      UpdateLocalValue(value);
    }

    /** `getLocalValue()`. */
    function GetLocalValue(): JsValue
      reads this
    {
      localValue
    }

    /** `mounted()`: the placeholder check, then `focus()` when `autofocus` is set. */
    method Mounted() returns (r: Result<(), Exception>)
      modifies this`focusRequests
      ensures r.Err? <==> MountCheck(modifier, placeholder, autofocus).Err?
      ensures focusRequests == old(focusRequests) + (if r.Ok? && autofocus then 1 else 0)
    {
      match MountCheck(modifier, placeholder, autofocus)
      case Err(e) =>
        return Err(e);
      case Ok(focus) =>
        if focus {
          focusRequests := focusRequests + 1;
        }
        return Ok(());
    }

    method OnFocus()
      modifies this`isFocused, this`emitted
      ensures isFocused && emitted == old(emitted) + [Focus]
    {
      isFocused := true;
      emitted := emitted + [Focus];
    }

    method OnBlur()
      modifies this`isFocused, this`emitted
      ensures !isFocused && emitted == old(emitted) + [Blur]
    {
      isFocused := false;
      emitted := emitted + [Blur];
    }

    method OnEnter(event: JsValue)
      modifies this`emitted
      ensures emitted == old(emitted) + [EnterKeydown(event)]
    {
      emitted := emitted + [EnterKeydown(event)];
    }

    method OnClick(event: JsValue)
      modifies this`emitted
      ensures emitted == old(emitted) + [Click(event)]
    {
      emitted := emitted + [Click(event)];
    }

    /** `fireInputEvent($event)`. */
    method FireInputEvent(event: JsValue)
      modifies this`emitted
      ensures emitted == old(emitted) + [InputEvent(event)]
    {
      emitted := emitted + [InputEvent(event)];
    }

    /**
     * `onInput($event)`: stores and emits `$event.target.value`, then
     * forwards the event. An event without a target throws before anything changes.
     */
    method OnInput(event: JsValue) returns (r: Result<(), Exception>)
      modifies this`localValue, this`emitted
      ensures r.Err? <==> TargetProperty(event, "value").Err?
      ensures r.Err? ==> localValue == old(localValue) && emitted == old(emitted)
      ensures r.Ok? ==> var v := TargetProperty(event, "value").value;
                        localValue == LocalValueFor(v, modelValue)
                        && emitted == old(emitted) + [UpdateModelValue(v), InputEvent(event)]
    {
      match TargetProperty(event, "value")
      case Err(e) =>
        return Err(e);
      case Ok(v) =>
        UpdateLocalValue(v);
        emitted := emitted + [UpdateModelValue(v)];
        FireInputEvent(event);
        return Ok(());
    }

    /** `onInputValue(value)`: stores and emits the value itself. */
    method OnInputValue(value: JsValue)
      modifies this`localValue, this`emitted
      ensures localValue == LocalValueFor(value, modelValue)
      ensures emitted == old(emitted) + [UpdateModelValue(value)]
    {
      UpdateLocalValue(value);
      emitted := emitted + [UpdateModelValue(value)];
    }

    /** `onInputChecked($event)`: as `onInput`, with `$event.target.checked`. */
    method OnInputChecked(event: JsValue) returns (r: Result<(), Exception>)
      modifies this`localValue, this`emitted
      ensures r.Err? <==> TargetProperty(event, "checked").Err?
      ensures r.Err? ==> localValue == old(localValue) && emitted == old(emitted)
      ensures r.Ok? ==> var v := TargetProperty(event, "checked").value;
                        localValue == LocalValueFor(v, modelValue)
                        && emitted == old(emitted) + [UpdateModelValue(v), InputEvent(event)]
    {
      match TargetProperty(event, "checked")
      case Err(e) =>
        return Err(e);
      case Ok(v) =>
        UpdateLocalValue(v);
        emitted := emitted + [UpdateModelValue(v)];
        FireInputEvent(event);
        return Ok(());
    }
  }

  /** `$event.target[key]`. */
  function TargetProperty(event: JsValue, key: string): (r: Result<JsValue, Exception>)
    ensures r.Ok? <==> !IsNullish(event) && !IsNullish(Prop(event, "target"))
  {
    match Get(event, "target")
    case Err(e) => Err(e)
    case Ok(target) => Get(target, key)
  }
}
