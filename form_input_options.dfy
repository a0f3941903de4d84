/**
 * The option-group mixin of `formInputOptions.js`: the group keys and the
 * grouping of options by an attribute, the checked test, the option ids and
 * the check made on mounting.
 */
module FormInputOptions {
  import opened Wrappers
  import opened JsValues
  import opened Ascii

  // ---------------------------------------------------------------------------
  // groupKeys

  /** `${option[groupBy]}` for every option, in order; a null option throws. */
  function GroupValues(options: seq<JsValue>, groupBy: string): (r: Result<seq<string>, Exception>)
    ensures r.Ok? <==> forall i :: 0 <= i < |options| ==> !IsNullish(options[i])
    ensures r.Ok? ==> |r.value| == |options|
                      && forall i :: 0 <= i < |options| ==> r.value[i] == ToJsString(Prop(options[i], groupBy))
    decreases |options|
  {
    if options == [] then Ok([])
    else
      var n := |options| - 1;
      match GroupValues(options[..n], groupBy)
      case Err(e) => Err(e)
      case Ok(front) =>
        if IsNullish(options[n]) then Err(TypeError("cannot read properties of null"))
        else Ok(front + [ToJsString(Prop(options[n], groupBy))])
  }

  /** The distinct values, each where it first occurs: the push-if-absent of the reduce. */
  function Distinct(values: seq<string>): seq<string>
    decreases |values|
  {
    if values == [] then []
    else
      var front := Distinct(values[..|values| - 1]);
      if values[|values| - 1] in front then front else front + [values[|values| - 1]]
  }

  /** Nothing appears twice, and exactly the values appear. */
  lemma {:induction false} DistinctSpec(values: seq<string>)
    ensures forall i, j :: 0 <= i < j < |Distinct(values)| ==> Distinct(values)[i] != Distinct(values)[j]
    ensures forall x :: x in Distinct(values) <==> x in values
    decreases |values|
  {
    if values != [] {
      var n := |values| - 1;
      DistinctSpec(values[..n]);
      assert values == values[..n] + [values[n]];
    }
  }

  /** Where a value first occurs. */
  function FirstIndex(values: seq<string>, x: string): (i: nat)
    requires x in values
    ensures i < |values| && values[i] == x && x !in values[..i]
  {
    if values[0] == x then 0 else 1 + FirstIndex(values[1..], x)
  }

  lemma {:induction false} FirstIndexAppend(values: seq<string>, y: string, x: string)
    requires x in values
    ensures FirstIndex(values + [y], x) == FirstIndex(values, x)
  {
    if values[0] != x {
      assert (values + [y])[1..] == values[1..] + [y];
      FirstIndexAppend(values[1..], y, x);
    }
  }

  lemma {:induction false} FirstIndexOfNew(values: seq<string>, y: string)
    requires y !in values
    ensures FirstIndex(values + [y], y) == |values|
  {
    if values != [] {
      assert (values + [y])[1..] == values[1..] + [y];
      FirstIndexOfNew(values[1..], y);
    }
  }

  /** The keys come in the order in which they first occur. */
  lemma {:induction false} DistinctFirstOccurrence(values: seq<string>)
    ensures forall x :: x in Distinct(values) ==> x in values
    ensures forall i, j :: 0 <= i < j < |Distinct(values)| ==>
              FirstIndex(values, Distinct(values)[i]) < FirstIndex(values, Distinct(values)[j])
    decreases |values|
  {
    DistinctSpec(values);
    if values != [] {
      var n := |values| - 1;
      var front := values[..n];
      DistinctFirstOccurrence(front);
      DistinctSpec(front);
      assert values == front + [values[n]];
      var d := Distinct(values);
      forall i, j | 0 <= i < j < |d| ensures FirstIndex(values, d[i]) < FirstIndex(values, d[j]) {
        var df := Distinct(front);
        FirstIndexAppend(front, values[n], d[i]);
        if j < |df| {
          FirstIndexAppend(front, values[n], d[j]);
        } else {
          assert d[j] == values[n] && d[j] !in front;
          FirstIndexOfNew(front, values[n]);
        }
      }
    }
  }

  /** `groupKeys`: none without `groupBy`, else the distinct group values in first-occurrence order. */
  function GroupKeysOf(options: seq<JsValue>, groupBy: string): Result<seq<string>, Exception> {
    if groupBy == "" then Ok([])
    else match GroupValues(options, groupBy)
      case Err(e) => Err(e)
      case Ok(values) => Ok(Distinct(values))
  }

  /** `groupKeys`, as the reduce pushing into its accumulator. */
  method GroupKeys(options: seq<JsValue>, groupBy: string) returns (r: Result<seq<string>, Exception>)
    ensures r.Ok? <==> GroupKeysOf(options, groupBy).Ok?
    ensures r.Ok? ==> r == GroupKeysOf(options, groupBy)
  {
    if groupBy == "" {
      return Ok([]);
    }
    var keys: seq<string> := [];
    var i := 0;
    while i < |options|
      invariant 0 <= i <= |options|
      invariant GroupValues(options[..i], groupBy).Ok?
      invariant keys == Distinct(GroupValues(options[..i], groupBy).value)
    {
      if IsNullish(options[i]) {
        assert !GroupValues(options, groupBy).Ok?;
        return Err(TypeError("cannot read properties of null"));
      }
      var value := ToJsString(Prop(options[i], groupBy));
      assert options[..i + 1][..i] == options[..i];
      if value !in keys {
        keys := keys + [value];
      }
      i := i + 1;
    }
    assert options[..i] == options;
    r := Ok(keys);
  }

  // ---------------------------------------------------------------------------
  // groupedOptions

  /** The options filed under `key`, in order. */
  function InGroup(options: seq<JsValue>, groupBy: string, key: string): seq<JsValue> {
    if options == [] then []
    else (if IsGroupedUnder(options[0], groupBy, key) then [options[0]] else [])
         + InGroup(options[1..], groupBy, key)
  }

  /** The option's group value, as a property key, is `key`. */
  predicate IsGroupedUnder(option: JsValue, groupBy: string, key: string) {
    !IsNullish(option) && ToJsString(Prop(option, groupBy)) == key
  }

  /** The reduce of `groupedOptions`, left to right: each option appended to its group. */
  function GroupFold(options: seq<JsValue>, groupBy: string): Result<map<string, seq<JsValue>>, Exception>
    decreases |options|
  {
    if options == [] then Ok(map[])
    else
      var n := |options| - 1;
      match GroupFold(options[..n], groupBy)
      case Err(e) => Err(e)
      case Ok(groups) =>
        if IsNullish(options[n]) then Err(TypeError("cannot read properties of null"))
        else
          var key := ToJsString(Prop(options[n], groupBy));
          Ok(groups[key := (if key in groups then groups[key] else []) + [options[n]]])
  }

  /** `groupedOptions`: the options themselves without `groupBy`, else their groups. */
  datatype Grouping = Ungrouped(options: seq<JsValue>) | Grouped(groups: map<string, seq<JsValue>>)

  function GroupedOptions(options: seq<JsValue>, groupBy: string): (r: Result<Grouping, Exception>)
    ensures groupBy == "" ==> r == Ok(Ungrouped(options))
    ensures groupBy != "" ==> (r.Ok? <==> forall i :: 0 <= i < |options| ==> !IsNullish(options[i]))
    ensures groupBy != "" && r.Ok? ==> r.value.Grouped?
  {
    GroupFoldOk(options, groupBy);
    if groupBy == "" then Ok(Ungrouped(options))
    else match GroupFold(options, groupBy)
      case Err(e) => Err(e)
      case Ok(groups) => Ok(Grouped(groups))
  }

  /** Grouping fails exactly when some option is `null` or `undefined`. */
  lemma {:induction false} GroupFoldOk(options: seq<JsValue>, groupBy: string)
    ensures GroupFold(options, groupBy).Ok? <==> forall i :: 0 <= i < |options| ==> !IsNullish(options[i])
    decreases |options|
  {
    if options != [] {
      var n := |options| - 1;
      GroupFoldOk(options[..n], groupBy);
      assert forall i :: 0 <= i < n ==> options[..n][i] == options[i];
    }
  }

  /**
   * The groups are exactly the group values that occur, and each holds the
   * options with its value in their original order, so every option lands
   * in exactly one group.
   */
  lemma {:induction false} GroupFoldGroups(options: seq<JsValue>, groupBy: string, key: string)
    requires forall i :: 0 <= i < |options| ==> !IsNullish(options[i])
    ensures GroupFold(options, groupBy).Ok?
    ensures key in GroupFold(options, groupBy).value <==> |InGroup(options, groupBy, key)| > 0
    ensures key in GroupFold(options, groupBy).value ==> GroupFold(options, groupBy).value[key] == InGroup(options, groupBy, key)
    decreases |options|
  {
    if options != [] {
      var n := |options| - 1;
      var front := options[..n];
      assert forall i :: 0 <= i < n ==> front[i] == options[i];
      GroupFoldGroups(front, groupBy, key);
      InGroupAppend(front, options[n], groupBy, key);
      assert front + [options[n]] == options;
    }
  }

  lemma {:induction false} InGroupAppend(options: seq<JsValue>, last: JsValue, groupBy: string, key: string)
    ensures InGroup(options + [last], groupBy, key)
            == InGroup(options, groupBy, key) + (if IsGroupedUnder(last, groupBy, key) then [last] else [])
    decreases |options|
  {
    var all := options + [last];
    var tail := if IsGroupedUnder(last, groupBy, key) then [last] else [];
    if options == [] {
      assert all[1..] == [];
      assert InGroup(all, groupBy, key) == tail + InGroup([], groupBy, key);
    } else {
      var head := if IsGroupedUnder(options[0], groupBy, key) then [options[0]] else [];
      assert all[0] == options[0] && all[1..] == options[1..] + [last];
      InGroupAppend(options[1..], last, groupBy, key);
      calc {
        InGroup(all, groupBy, key);
        head + InGroup(options[1..] + [last], groupBy, key);
        head + (InGroup(options[1..], groupBy, key) + tail);
        (head + InGroup(options[1..], groupBy, key)) + tail;
      }
    }
  }

  // ---------------------------------------------------------------------------
  // The remaining methods

  /** `optionId(index, fieldId)`. */
  function OptionId(index: nat, fieldId: string): (r: string)
    ensures r == fieldId + "-input-" + NatToDecimal(index)
  {
    fieldId + "-input-" + ToJsString(Num(index))
  }

  /** Within one field, different indices give different ids. */
  lemma OptionIdsDistinct(fieldId: string, i: nat, j: nat)
    requires i != j
    ensures OptionId(i, fieldId) != OptionId(j, fieldId)
  {
    var p := fieldId + "-input-";
    NatToDecimalInjective(i, j);
    assert OptionId(i, fieldId)[|p|..] == NatToDecimal(i);
    assert OptionId(j, fieldId)[|p|..] == NatToDecimal(j);
  }

  /**
   * `isOptionChecked(option)`: a falsy local value checks nothing; an array
   * checks its elements, a string its substrings; any other truthy value
   * has no `includes` and throws, as does a null option.
   */
  function IsOptionChecked(localValue: JsValue, option: JsValue, optionValue: string): (r: Result<bool, Exception>)
    ensures !Truthy(localValue) ==> r == Ok(false)
    ensures Truthy(localValue) && localValue.Arr? && !IsNullish(option) ==>
              r == Ok(Prop(option, optionValue) in localValue.items)
    ensures Truthy(localValue) && localValue.Str? && !IsNullish(option) ==>
              r == Ok(Contains(localValue.s, ToJsString(Prop(option, optionValue))))
    ensures Truthy(localValue) && (IsNullish(option) || !(localValue.Arr? || localValue.Str?)) ==> r.Err?
  {
    if !Truthy(localValue) then Ok(false)
    else match Get(option, optionValue)
      case Err(e) => Err(e)
      case Ok(key) =>
        match localValue
        case Arr(items) => Ok(key in items)
        case Str(s) => Ok(Contains(s, ToJsString(key)))
        case _ => Err(TypeError("includes is not a function"))
  }

  /** A string local value also checks an option whose value is only part of it. */
  lemma SubstringIsChecked()
    ensures IsOptionChecked(Str("12"), Obj(map["id" := Num(2)]), "id") == Ok(true)
  {
    assert ToJsString(Num(2)) == "2";
    assert Contains("12"[1..], "2");
  }

  /** `mounted()`: a component without `localValue` cannot use the mixin. */
  function MountCheck(localValue: JsValue): (r: Result<(), Exception>)
    ensures r.Err? <==> localValue == Undefined
  {
    if localValue == Undefined then Err(Error("You must use the formInputOptions mixin within the context of a form component"))
    else Ok(())
  }
}
