/**
 * The "other" subfield mixin of `otherOptions.js`: options may carry a
 * `sub_field` (a free-text or number input shown beside them); the mixin
 * collects their names and default values, keeps the subfields' local value
 * (one string, or an object keyed by subfield name) and updates it as the
 * user types.
 */
module OtherOptions {
  import opened Wrappers
  import opened JsValues

  /** `created()`: the options must be an array. */
  function CreatedCheck(options: JsValue): (r: Result<(), Exception>)
    ensures r.Ok? <==> options.Arr?
  {
    if !options.Arr? then Err(Error("Other option mixin requires options to be set and to be an array"))
    else Ok(())
  }

  /** `option.sub_field` is truthy: the filter of `optionSubfieldValues`. */
  predicate HasSubfield(option: JsValue)
    requires !IsNullish(option)
  {
    Truthy(Prop(option, "sub_field"))
  }

  function SubfieldName(option: JsValue): string
    requires !IsNullish(option) && HasSubfield(option)
  {
    ToJsString(Prop(Prop(option, "sub_field"), "name"))
  }

  function SubfieldDefault(option: JsValue): JsValue
    requires !IsNullish(option) && HasSubfield(option)
  {
    Prop(Prop(option, "sub_field"), "value")
  }

  /**
   * `optionSubfieldValues`: the filter, then the reduce, left to right,
   * mapping each subfield's name to its value; a null option throws.
   */
  function SubfieldValues(options: seq<JsValue>): (r: Result<map<string, JsValue>, Exception>)
    ensures r.Ok? ==> |r.value| <= |options|
    decreases |options|
  {
    if options == [] then Ok(map[])
    else
      var n := |options| - 1;
      match SubfieldValues(options[..n])
      case Err(e) => Err(e)
      case Ok(values) =>
        if IsNullish(options[n]) then Err(TypeError("cannot read properties of null (reading 'sub_field')"))
        else if !HasSubfield(options[n]) then Ok(values)
        else Ok(values[SubfieldName(options[n]) := SubfieldDefault(options[n])])
  }

  /** Every option can be read. */
  predicate Readable(options: seq<JsValue>) {
    forall i :: 0 <= i < |options| ==> !IsNullish(options[i])
  }

  /** Collecting the defaults fails exactly when an option is null or undefined. */
  lemma {:induction false} SubfieldValuesOk(options: seq<JsValue>)
    ensures SubfieldValues(options).Ok? <==> Readable(options)
    decreases |options|
  {
    if options != [] {
      var n := |options| - 1;
      SubfieldValuesOk(options[..n]);
      assert forall i :: 0 <= i < n ==> options[..n][i] == options[i];
    }
  }

  /** Option `i` exists, can be read and has a subfield called `name`. */
  predicate NamedAt(options: seq<JsValue>, i: int, name: string) {
    0 <= i < |options| && !IsNullish(options[i]) && HasSubfield(options[i]) && SubfieldName(options[i]) == name
  }

  /** The names collected are exactly those of the options with a subfield. */
  lemma {:induction false} SubfieldValuesNames(options: seq<JsValue>, name: string)
    requires Readable(options)
    ensures SubfieldValues(options).Ok?
    ensures name in SubfieldValues(options).value <==> exists i :: NamedAt(options, i, name)
    decreases |options|
  {
    SubfieldValuesOk(options);
    if options != [] {
      var n := |options| - 1;
      var front := options[..n];
      assert Readable(front) by {
        assert forall i :: 0 <= i < n ==> front[i] == options[i];
      }
      SubfieldValuesNames(front, name);
      var m := SubfieldValues(front).value;
      var last := options[n];
      assert SubfieldValues(options).value ==
        if HasSubfield(last) then m[SubfieldName(last) := SubfieldDefault(last)] else m;
      if name in SubfieldValues(options).value {
        if HasSubfield(last) && SubfieldName(last) == name {
          assert NamedAt(options, n, name);
        } else {
          var i :| NamedAt(front, i, name);
          assert front[i] == options[i];
          assert NamedAt(options, i, name);
        }
      }
      if exists i :: NamedAt(options, i, name) {
        var i :| NamedAt(options, i, name);
        if i < n {
          assert front[i] == options[i];
          assert NamedAt(front, i, name);
        }
      }
    }
  }

  /** Option `i` is the last one whose subfield is called `name`. */
  predicate LastNamedAt(options: seq<JsValue>, i: int, name: string) {
    NamedAt(options, i, name) && forall j :: i < j < |options| ==> !NamedAt(options, j, name)
  }

  /** Collecting the defaults of a readable list: those of all but the last option, then the last one's. */
  lemma SubfieldValuesSnoc(options: seq<JsValue>)
    requires Readable(options) && options != []
    ensures Readable(options[..|options| - 1])
    ensures SubfieldValues(options[..|options| - 1]).Ok? && SubfieldValues(options).Ok?
    ensures var last := options[|options| - 1];
            var m := SubfieldValues(options[..|options| - 1]).value;
            SubfieldValues(options).value == if HasSubfield(last) then m[SubfieldName(last) := SubfieldDefault(last)] else m
  {
    var n := |options| - 1;
    assert forall i :: 0 <= i < n ==> options[..n][i] == options[i];
    SubfieldValuesOk(options[..n]);
  }

  /** The last option named `name` in the front stays the last once an option without that name follows. */
  lemma LastNamedExtend(options: seq<JsValue>, i: int, name: string)
    requires options != [] && LastNamedAt(options[..|options| - 1], i, name)
    requires !NamedAt(options, |options| - 1, name)
    ensures LastNamedAt(options, i, name)
  {
    var n := |options| - 1;
    assert options[..n][i] == options[i];
    forall j | i < j < |options| ensures !NamedAt(options, j, name) {
      if j < n {
        assert options[..n][j] == options[j];
        assert !NamedAt(options[..n], j, name);
      }
    }
  }

  /** A name the last option does not carry is carried in the front, if anywhere. */
  lemma NamedInFront(options: seq<JsValue>, front: seq<JsValue>, name: string)
    requires options != [] && front == options[..|options| - 1]
    requires exists i :: NamedAt(options, i, name)
    requires !NamedAt(options, |options| - 1, name)
    ensures exists k :: NamedAt(front, k, name)
  {
    var k :| NamedAt(options, k, name);
    assert front[k] == options[k];
    assert NamedAt(front, k, name);
  }


  /** A collected name holds the default of the last option carrying it. */
  lemma {:induction false} SubfieldValuesLastNamed(options: seq<JsValue>, name: string)
    requires Readable(options) && exists i :: NamedAt(options, i, name)
    ensures SubfieldValues(options).Ok? && name in SubfieldValues(options).value
    ensures exists i :: LastNamedAt(options, i, name) && SubfieldValues(options).value[name] == SubfieldDefault(options[i])
    decreases |options|
  {
    var n := |options| - 1;
    var front := options[..n];
    if NamedAt(options, n, name) {
      SubfieldValuesSnoc(options);
      assert LastNamedAt(options, n, name);
    } else {
      NamedInFront(options, front, name);
      SubfieldValuesSnoc(options);
      SubfieldValuesLastNamed(front, name);
      var i :| LastNamedAt(front, i, name) && SubfieldValues(front).value[name] == SubfieldDefault(front[i]);
      LastNamedExtend(options, i, name);
      assert front[i] == options[i];
    }
  }


  /** The default collected under a name: the last option's carrying it, and none when no option does. */
  lemma DefaultFor(options: seq<JsValue>, name: string)
    requires Readable(options)
    ensures SubfieldValues(options).Ok?
    ensures (exists i :: NamedAt(options, i, name)) ==>
              && name in SubfieldValues(options).value
              && exists i :: LastNamedAt(options, i, name) && SubfieldValues(options).value[name] == SubfieldDefault(options[i])
    ensures !(exists i :: NamedAt(options, i, name)) ==> name !in SubfieldValues(options).value
  {
    if exists i :: NamedAt(options, i, name) {
      SubfieldValuesLastNamed(options, name);
    } else {
      SubfieldValuesNames(options, name);
    }
  }

  /** A later option with the same subfield name overrides an earlier one. */
  lemma {:induction false} SubfieldLastWins(options: seq<JsValue>, i: nat)
    requires Readable(options) && i < |options| && HasSubfield(options[i])
    requires forall j :: i < j < |options| && HasSubfield(options[j]) ==> SubfieldName(options[j]) != SubfieldName(options[i])
    ensures SubfieldValues(options).Ok?
    ensures SubfieldName(options[i]) in SubfieldValues(options).value
    ensures SubfieldValues(options).value[SubfieldName(options[i])] == SubfieldDefault(options[i])
    decreases |options|
  {
    SubfieldValuesNames(options, SubfieldName(options[i]));
    assert NamedAt(options, i, SubfieldName(options[i]));
    var n := |options| - 1;
    var front := options[..n];
    if i < n {
      assert forall j :: 0 <= j < n ==> front[j] == options[j];
      SubfieldLastWins(front, i);
    }
  }

  /** The subfield names the options carry, each once. */
  function SubfieldNames(options: seq<JsValue>): set<string>
    requires Readable(options)
  {
    set i | 0 <= i < |options| && HasSubfield(options[i]) :: SubfieldName(options[i])
  }

  /** The defaults are keyed by exactly the subfield names. */
  lemma SubfieldValuesKeys(options: seq<JsValue>)
    requires Readable(options)
    ensures SubfieldValues(options).Ok?
    ensures SubfieldValues(options).value.Keys == SubfieldNames(options)
  {
    SubfieldValuesOk(options);
    var keys := SubfieldValues(options).value.Keys;
    forall name ensures name in keys <==> name in SubfieldNames(options) {
      SubfieldValuesNames(options, name);
      if name in SubfieldNames(options) {
        var i :| 0 <= i < |options| && HasSubfield(options[i]) && SubfieldName(options[i]) == name;
        assert NamedAt(options, i, name);
      }
    }
  }

  /** `subfieldCount`: how many distinct subfield names there are. */
  function SubfieldCount(options: seq<JsValue>): (r: Result<nat, Exception>)
    ensures r.Ok? <==> Readable(options)
    ensures r.Ok? ==> r.value <= |options|
    ensures r.Ok? ==> r.value == |SubfieldNames(options)|
  {
    SubfieldValuesOk(options);
    match SubfieldValues(options)
    case Err(e) => Err(e)
    case Ok(values) => SubfieldValuesKeys(options); Ok(|values.Keys|)
  }

  /** Two options with distinct subfield names make the count more than one. */
  lemma TwoNamesCountTwo(options: seq<JsValue>, i: nat, j: nat)
    requires Readable(options) && i < |options| && j < |options|
    requires HasSubfield(options[i]) && HasSubfield(options[j])
    requires SubfieldName(options[i]) != SubfieldName(options[j])
    ensures SubfieldCount(options).Ok? && SubfieldCount(options).value > 1
  {
    var a, b := SubfieldName(options[i]), SubfieldName(options[j]);
    SubfieldValuesOk(options);
    var m := SubfieldValues(options).value;
    assert a in m by {
      SubfieldValuesNames(options, a);
      assert NamedAt(options, i, a);
    }
    assert b in m by {
      SubfieldValuesNames(options, b);
      assert NamedAt(options, j, b);
    }
    assert {a, b} <= m.Keys;
    assert |{a, b}| == 2;
    SubsetCardinality({a, b}, m.Keys);
  }

  /** Options that all share one subfield name count one name at most, so a string prop stays a string. */
  lemma SharedNameKeepsString(s: string, options: seq<JsValue>, name: string)
    requires Readable(options)
    requires forall i :: 0 <= i < |options| && HasSubfield(options[i]) ==> SubfieldName(options[i]) == name
    ensures SubfieldCount(options).Ok? && SubfieldCount(options).value <= 1
    ensures WatchedLocalValue(Str(s), options) == Ok(Str(s))
  {
    assert SubfieldNames(options) <= {name};
    SubsetCardinality(SubfieldNames(options), {name});
  }

  lemma SubsetCardinality(small: set<string>, large: set<string>)
    requires small <= large
    ensures |small| <= |large|
  {
    assert large == small + (large - small);
  }

  /** The subfield types `getComponent` knows. */
  datatype Component = TextInput | NumberInput

  /** `getComponent(componentKey)`: only `text` and `number` resolve. */
  function GetComponent(componentKey: string): (r: Option<Component>)
    ensures r == Some(TextInput) <==> componentKey == "text"
    ensures r == Some(NumberInput) <==> componentKey == "number"
    ensures r.None? <==> componentKey != "text" && componentKey != "number"
  {
    var allowed := map["text" := TextInput, "number" := NumberInput];
    if componentKey in allowed then Some(allowed[componentKey]) else None
  }

  /**
   * The `subfieldValue` watcher: a string prop becomes a copy of the
   * defaults when there is more than one subfield, and stays the string
   * otherwise; any other prop is taken as it is.
   */
  function WatchedLocalValue(subfieldValue: JsValue, options: seq<JsValue>): (r: Result<JsValue, Exception>)
    ensures !subfieldValue.Str? ==> r == Ok(subfieldValue)
    ensures subfieldValue.Str? && SubfieldCount(options).Ok? && SubfieldCount(options).value > 1 ==>
              r == Ok(Obj(SubfieldValues(options).value))
    ensures subfieldValue.Str? && SubfieldCount(options).Ok? && SubfieldCount(options).value <= 1 ==>
              r == Ok(subfieldValue)
    ensures subfieldValue.Str? ==> (r.Err? <==> SubfieldCount(options).Err?)
  {
    if !subfieldValue.Str? then Ok(subfieldValue)
    else match SubfieldCount(options)
      case Err(e) => Err(e)
      case Ok(count) =>
        if count > 1 then Ok(Spread(Obj(SubfieldValues(options).value))) else Ok(subfieldValue)
  }

  /**
   * `getSubfieldValue(option)`: while the local value is a string, the
   * option's declared default; otherwise the local value's entry for the
   * option's subfield name.
   */
  function GetSubfieldValue(local: JsValue, options: seq<JsValue>, option: JsValue): (r: Result<JsValue, Exception>)
    ensures r.Err? <==> IsNullish(option) || IsNullish(Prop(option, "sub_field"))
                        || (local.Str? && !Readable(options)) || (!local.Str? && IsNullish(local))
    ensures r.Ok? ==>
              var name := ToJsString(Prop(Prop(option, "sub_field"), "name"));
              && (!local.Str? ==> r.value == Prop(local, name))
              && (local.Str? && (exists i :: NamedAt(options, i, name)) ==>
                    exists i :: LastNamedAt(options, i, name) && r.value == SubfieldDefault(options[i]))
              && (local.Str? && !(exists i :: NamedAt(options, i, name)) ==> r.value == Undefined)
  {
    SubfieldValuesOk(options);
    match Get(option, "sub_field")
    case Err(e) => Err(e)
    case Ok(subField) =>
      match Get(subField, "name")
      case Err(e) => Err(e)
      case Ok(name) =>
        if local.Str? then
          match SubfieldValues(options)
          case Err(e) => Err(e)
          case Ok(values) => DefaultFor(options, ToJsString(name)); Get(Obj(values), ToJsString(name))
        else Get(local, ToJsString(name))
  }

  /** With a string local value, an option whose name no later option reuses gets its own default. */
  lemma DefaultWhileString(s: string, options: seq<JsValue>, i: nat)
    requires Readable(options) && i < |options| && HasSubfield(options[i])
    requires forall j :: i < j < |options| && HasSubfield(options[j]) ==> SubfieldName(options[j]) != SubfieldName(options[i])
    ensures GetSubfieldValue(Str(s), options, options[i]) == Ok(SubfieldDefault(options[i]))
  {
    SubfieldLastWins(options, i);
  }

  /** `$event.target.value`. */
  function TargetValue(event: JsValue): (r: Result<JsValue, Exception>)
    ensures r.Ok? <==> !IsNullish(event) && !IsNullish(Prop(event, "target"))
  {
    match Get(event, "target")
    case Err(e) => Err(e)
    case Ok(target) => Get(target, "value")
  }

  /** The value `onInput` leaves: one key set on a plain object, else the whole value replaced. */
  function InputLocalValue(local: JsValue, optionSlug: string, value: JsValue): (r: JsValue)
    ensures local.Obj? ==> r.Obj? && r.fields.Keys == local.fields.Keys + {optionSlug}
                           && r.fields[optionSlug] == value
                           && forall k :: k in local.fields && k != optionSlug ==> r.fields[k] == local.fields[k]
    ensures !local.Obj? ==> r == value
  {
    if local.Obj? then Obj(local.fields[optionSlug := value]) else value
  }

  class Subfields {
    const options: seq<JsValue>
    var subfieldValue: JsValue
    var subfieldLocalValue: JsValue
    /** The `input-subfield` events emitted so far, oldest first. */
    var emitted: seq<JsValue>

    /** `data()` and then the immediate watcher. */
    constructor(options: seq<JsValue>, subfieldValue: JsValue)
      ensures this.options == options && this.subfieldValue == subfieldValue && emitted == []
      ensures WatchedLocalValue(subfieldValue, options).Ok? ==> subfieldLocalValue == WatchedLocalValue(subfieldValue, options).value
      ensures WatchedLocalValue(subfieldValue, options).Err? ==> subfieldLocalValue == Null
    {
      this.options := options;
      this.subfieldValue := subfieldValue;
      subfieldLocalValue := Null;
      emitted := [];
      new;
      var r := WatchSubfieldValue();
    }

    /** The `subfieldValue` watcher; a throw leaves the local value as it was. */
    method WatchSubfieldValue() returns (r: Result<(), Exception>)
      modifies this`subfieldLocalValue
      ensures r.Err? <==> WatchedLocalValue(subfieldValue, options).Err?
      ensures r.Ok? ==> subfieldLocalValue == WatchedLocalValue(subfieldValue, options).value
      ensures r.Err? ==> subfieldLocalValue == old(subfieldLocalValue)
    {
      match WatchedLocalValue(subfieldValue, options)
      case Err(e) =>
        return Err(e);
      case Ok(v) =>
        subfieldLocalValue := v;
        return Ok(());
    }

    /** A new `subfieldValue` prop. */
    method SetSubfieldValue(v: JsValue) returns (r: Result<(), Exception>)
      modifies this`subfieldValue, this`subfieldLocalValue
      ensures subfieldValue == v
      ensures r.Err? <==> WatchedLocalValue(v, options).Err?
      ensures r.Ok? ==> subfieldLocalValue == WatchedLocalValue(v, options).value
      ensures r.Err? ==> subfieldLocalValue == old(subfieldLocalValue)
    {
      subfieldValue := v;
      r := WatchSubfieldValue();
    }

    /**
     * `onInput($event, optionSlug)` once the debounce has fired: sets the
     * subfield's key on an object local value, or replaces a scalar one,
     * then emits the local value.
     */
    method OnInput(event: JsValue, optionSlug: string) returns (r: Result<(), Exception>)
      modifies this`subfieldLocalValue, this`emitted
      ensures r.Err? <==> TargetValue(event).Err?
      ensures r.Err? ==> subfieldLocalValue == old(subfieldLocalValue) && emitted == old(emitted)
      ensures r.Ok? ==> subfieldLocalValue == InputLocalValue(old(subfieldLocalValue), optionSlug, TargetValue(event).value)
                        && emitted == old(emitted) + [subfieldLocalValue]
    {
      match TargetValue(event)
      case Err(e) =>
        return Err(e);
      case Ok(value) =>
        if subfieldLocalValue.Obj? {
          subfieldLocalValue := Obj(subfieldLocalValue.fields[optionSlug := value]);
        } else {
          subfieldLocalValue := value;
        }
        emitted := emitted + [subfieldLocalValue];
        return Ok(());
    }
  }
}
