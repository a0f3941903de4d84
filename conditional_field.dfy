/**
 * The conditional-visibility mixin of `conditionalField.js`: a page may map
 * a field's name to a rule naming a parent field, the parent's event to
 * listen to and a condition on the parent's local value; the field is shown
 * exactly when the condition holds, tested on mounting and on every event.
 *
 * The root's `$refs` is a map from names to parent components, and a
 * registered listener is recorded by its event name.
 */
module ConditionalField {
  import opened Wrappers
  import opened JsValues

  /** A rule object: its plain properties, and its `condition` function if it has one. */
  datatype Rule = Rule(props: map<string, JsValue>, condition: Option<JsValue -> JsValue>)

  /** `{}`. */
  const EmptyRule: Rule := Rule(map[], None)

  /** The keys `Object.keys` lists for a rule. */
  function RuleKeys(rule: Rule): set<string> {
    rule.props.Keys + (if rule.condition.Some? then {"condition"} else {})
  }

  function RuleProp(rule: Rule, key: string): JsValue {
    if key in rule.props then rule.props[key] else Undefined
  }

  /** `fieldConditional`: the rule filed under the field's name, else `{}`. */
  function FieldConditional(conditional: Option<map<string, Rule>>, name: JsValue): (r: Rule)
    ensures conditional.Some? && ToJsString(name) in conditional.value ==> r == conditional.value[ToJsString(name)]
    ensures conditional.None? || ToJsString(name) !in conditional.value ==> r == EmptyRule
  {
    if conditional.Some? && ToJsString(name) in conditional.value then conditional.value[ToJsString(name)]
    else EmptyRule
  }

  /** `fieldHasConditional`: the rule has at least one key. */
  function FieldHasConditional(rule: Rule): (r: bool)
    ensures r <==> rule.props != map[] || rule.condition.Some?
  {
    if rule.condition.Some? then assert "condition" in RuleKeys(rule); true
    else if rule.props == map[] then false
    else assert rule.props.Keys <= RuleKeys(rule); |RuleKeys(rule)| != 0
  }

  /** A field with no rule of its own has none, whatever the other fields' rules are. */
  lemma NoRuleNoConditional(conditional: Option<map<string, Rule>>, name: JsValue)
    requires conditional.None? || ToJsString(name) !in conditional.value
    ensures !FieldHasConditional(FieldConditional(conditional, name))
  {
  }

  /** A component that may be a rule's parent. */
  class ParentField {
    /** Whether the component has a `getLocalValue` method (the form-input mixin gives it one). */
    const exposesLocalValue: bool
    var localValue: JsValue

    constructor(exposesLocalValue: bool, localValue: JsValue)
      ensures this.exposesLocalValue == exposesLocalValue && this.localValue == localValue
    {
      this.exposesLocalValue := exposesLocalValue;
      this.localValue := localValue;
    }

    /** The parent's value changes (the event is then dispatched separately). */
    method SetLocalValue(v: JsValue)
      modifies this`localValue
      ensures localValue == v
    {
      localValue := v;
    }
  }

  class Conditional {
    const name: JsValue
    const conditional: Option<map<string, Rule>>
    /** `$root.$refs`. */
    const refs: map<string, ParentField>

    var showConditionalField: bool
    /** `null` stands for the `{}` it starts as, and for a missing ref. */
    var conditionalParent: ParentField?
    /** The events listened to on the parent, oldest first. */
    var listeners: seq<JsValue>

    /** `data()`: hidden, with no parent yet. */
    constructor(name: JsValue, conditional: Option<map<string, Rule>>, refs: map<string, ParentField>)
      ensures this.name == name && this.conditional == conditional && this.refs == refs
      ensures !showConditionalField && conditionalParent == null && listeners == []
    {
      this.name := name;
      this.conditional := conditional;
      this.refs := refs;
      showConditionalField := false;
      conditionalParent := null;
      listeners := [];
    }

    function Rule(): Rule
      reads this
    {
      FieldConditional(conditional, name)
    }

    /** The parent's value can be read and the condition called. */
    predicate CanTest()
      reads this, conditionalParent
    {
      conditionalParent != null && conditionalParent.exposesLocalValue && Rule().condition.Some?
    }

    /** What the condition says of the parent's current value. */
    predicate ConditionHolds()
      requires CanTest()
      reads this, conditionalParent
    {
      Truthy(Rule().condition.value(conditionalParent.localValue))
    }

    /**
     * `showFieldIfConditionPasses()`: visibility becomes the condition's
     * verdict on the parent's value, as a strict boolean. With no parent or
     * no condition to call it throws and nothing changes.
     */
    method ShowFieldIfConditionPasses() returns (r: Result<(), Exception>)
      modifies this`showConditionalField
      ensures r.Ok? <==> CanTest()
      ensures r.Ok? ==> showConditionalField == ConditionHolds()
      ensures r.Err? ==> showConditionalField == old(showConditionalField)
    {
      if conditionalParent == null || !conditionalParent.exposesLocalValue {
        return Err(TypeError("getLocalValue is not a function"));
      }
      var rule := FieldConditional(conditional, name);
      if rule.condition.None? {
        return Err(TypeError("condition is not a function"));
      }
      var shouldShow := rule.condition.value(conditionalParent.localValue);
      showConditionalField := Truthy(shouldShow);
      return Ok(());
    }

    /**
     * `mounted()`: without a rule the field is shown and nothing else
     * happens. With one, the parent is looked up; an undefined name or a
     * parent without `getLocalValue` throws; then the condition is tested
     * and a listener for the rule's event is added.
     */
    method Mounted() returns (r: Result<(), Exception>)
      modifies this`showConditionalField, this`conditionalParent, this`listeners
      ensures !FieldHasConditional(Rule()) ==>
                r.Ok? && showConditionalField && conditionalParent == old(conditionalParent) && listeners == old(listeners)
      ensures FieldHasConditional(Rule()) ==>
                var parentKey := ToJsString(RuleProp(Rule(), "parent"));
                conditionalParent == (if parentKey in refs then refs[parentKey] else null)
      ensures FieldHasConditional(Rule()) && (name == Undefined || conditionalParent == null || !conditionalParent.exposesLocalValue) ==>
                r.Err? && showConditionalField == old(showConditionalField) && listeners == old(listeners)
      ensures FieldHasConditional(Rule()) && name != Undefined && conditionalParent != null && conditionalParent.exposesLocalValue ==>
                && (r.Ok? <==> Rule().condition.Some?)
                && (r.Ok? ==> showConditionalField == ConditionHolds() && listeners == old(listeners) + [RuleProp(Rule(), "event")])
                && (r.Err? ==> showConditionalField == old(showConditionalField) && listeners == old(listeners))
    {
      var rule := FieldConditional(conditional, name);
      if !FieldHasConditional(rule) {
        showConditionalField := true;
        return Ok(());
      }
      var parentKey := ToJsString(RuleProp(rule, "parent"));
      conditionalParent := if parentKey in refs then refs[parentKey] else null;
      if name == Undefined {
        return Err(Error("Required fields missing for conditional fields mixin"));
      }
      if conditionalParent == null {
        return Err(TypeError("cannot read properties of undefined (reading 'getLocalValue')"));
      }
      if !conditionalParent.exposesLocalValue {
        return Err(Error("Required fields missing for conditional fields mixin"));
      }
      r := ShowFieldIfConditionPasses();
      if r.Ok? {
        listeners := listeners + [RuleProp(rule, "event")];
      }
    }
  }

  /** After the parent changes and its event fires, the field's visibility follows the new value. */
  method ParentChangeUpdatesVisibility(field: Conditional, v: JsValue)
    requires field.CanTest()
    requires RuleProp(field.Rule(), "event") in field.listeners
    modifies field.conditionalParent, field`showConditionalField
    ensures field.CanTest() && field.conditionalParent.localValue == v
    ensures field.showConditionalField == Truthy(field.Rule().condition.value(v))
  {
    field.conditionalParent.SetLocalValue(v);
    var r := field.ShowFieldIfConditionPasses();
  }
}
