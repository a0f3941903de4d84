/**
 * The `hybrid_field` template tag of `apps/base/templatetags/forms.py`: it
 * decorates a bound form field with the attributes the Vue widget templates
 * read (`vue_value`, `vue_options`, `vue_errors`, `required`,
 * `vue_multiple`, `hide_label`, `input_type`, `help_text`) and points the
 * widget at the hybrid template.
 */
module TemplateForms {
  import opened Wrappers
  import opened PyValues
  import Json

  const RadioSelect: string := "radioselect"
  const DjangoWidgets: string := "django/forms/widgets"
  const HybridWidgets: string := "hybrid_forms/widgets"

  // ----- str.replace -----

  predicate OccursAt(s: string, sep: string, i: int) {
    0 <= i <= |s| - |sep| && s[i..i + |sep|] == sep
  }

  ghost predicate Occurs(s: string, sep: string) {
    exists i :: OccursAt(s, sep, i)
  }

  /** `s.replace(pattern, replacement)`: every occurrence of `pattern`, scanning left to right without overlap, is replaced. */
  function ReplaceAll(s: string, pattern: string, replacement: string): string
    requires pattern != []
    decreases |s|
  {
    if s == [] then []
    else if pattern <= s then replacement + ReplaceAll(s[|pattern|..], pattern, replacement)
    else [s[0]] + ReplaceAll(s[1..], pattern, replacement)
  }

  /** `s.split(sep)`: the stretches between the occurrences of `sep`. */
  function SplitOn(s: string, sep: string): (parts: seq<string>)
    requires sep != []
    ensures |parts| >= 1
    decreases |s|
  {
    if s == [] then [[]]
    else if sep <= s then [[]] + SplitOn(s[|sep|..], sep)
    else
      var p := SplitOn(s[1..], sep);
      [[s[0]] + p[0]] + p[1..]
  }

  /** `sep.join(parts)`. */
  function JoinWith(sep: string, parts: seq<string>): string
    requires |parts| >= 1
  {
    if |parts| == 1 then parts[0] else parts[0] + sep + JoinWith(sep, parts[1..])
  }

  /** Joining the pieces with the separator gives back the string. */
  lemma {:induction false} JoinSplit(s: string, sep: string)
    requires sep != []
    ensures JoinWith(sep, SplitOn(s, sep)) == s
    decreases |s|
  {
    if s == [] {
    } else if sep <= s {
      JoinSplit(s[|sep|..], sep);
      JoinSplitAtSeparator(s, sep);
    } else {
      JoinSplit(s[1..], sep);
      JoinSplitAtChar(s, sep);
    }
  }

  lemma JoinSplitAtSeparator(s: string, sep: string)
    requires sep != [] && s != [] && sep <= s
    requires JoinWith(sep, SplitOn(s[|sep|..], sep)) == s[|sep|..]
    ensures JoinWith(sep, SplitOn(s, sep)) == s
  {
    var p := SplitOn(s[|sep|..], sep);
    assert SplitOn(s, sep) == [[]] + p;
    JoinEmptyHead(sep, p);
    assert sep + s[|sep|..] == s;
  }

  lemma JoinSplitAtChar(s: string, sep: string)
    requires sep != [] && s != [] && !(sep <= s)
    requires JoinWith(sep, SplitOn(s[1..], sep)) == s[1..]
    ensures JoinWith(sep, SplitOn(s, sep)) == s
  {
    var p := SplitOn(s[1..], sep);
    calc {
      JoinWith(sep, SplitOn(s, sep));
      == { assert SplitOn(s, sep) == [[s[0]] + p[0]] + p[1..]; }
      JoinWith(sep, [[s[0]] + p[0]] + p[1..]);
      == { JoinHead(sep, s[0], p); }
      [s[0]] + JoinWith(sep, p);
      == { assert [s[0]] + s[1..] == s; }
      s;
    }
  }

  lemma JoinEmptyHead(sep: string, p: seq<string>)
    requires |p| >= 1
    ensures JoinWith(sep, [[]] + p) == sep + JoinWith(sep, p)
  {
    var q := [[]] + p;
    assert q[0] == [] && q[1..] == p;
    assert [] + sep == sep;
  }

  lemma JoinHead(sep: string, c: char, p: seq<string>)
    requires |p| >= 1
    ensures JoinWith(sep, [[c] + p[0]] + p[1..]) == [c] + JoinWith(sep, p)
  {
    var q := [[c] + p[0]] + p[1..];
    assert q[1..] == p[1..];
  }

  /** `replace` is `replacement.join(s.split(pattern))`. */
  lemma {:induction false} ReplaceIsSplitJoin(s: string, pattern: string, replacement: string)
    requires pattern != []
    ensures ReplaceAll(s, pattern, replacement) == JoinWith(replacement, SplitOn(s, pattern))
    decreases |s|
  {
    if s == [] {
    } else if pattern <= s {
      var p := SplitOn(s[|pattern|..], pattern);
      calc {
        ReplaceAll(s, pattern, replacement);
        == replacement + ReplaceAll(s[|pattern|..], pattern, replacement);
        == { ReplaceIsSplitJoin(s[|pattern|..], pattern, replacement); }
        replacement + JoinWith(replacement, p);
        == { JoinEmptyHead(replacement, p); }
        JoinWith(replacement, [[]] + p);
        == { assert SplitOn(s, pattern) == [[]] + p; }
        JoinWith(replacement, SplitOn(s, pattern));
      }
    } else {
      var p := SplitOn(s[1..], pattern);
      calc {
        ReplaceAll(s, pattern, replacement);
        == [s[0]] + ReplaceAll(s[1..], pattern, replacement);
        == { ReplaceIsSplitJoin(s[1..], pattern, replacement); }
        [s[0]] + JoinWith(replacement, p);
        == { JoinHead(replacement, s[0], p); }
        JoinWith(replacement, [[s[0]] + p[0]] + p[1..]);
        == { assert SplitOn(s, pattern) == [[s[0]] + p[0]] + p[1..]; }
        JoinWith(replacement, SplitOn(s, pattern));
      }
    }
  }

  /** A string without the pattern is left as it is. */
  lemma {:induction false} ReplaceAbsent(s: string, pattern: string, replacement: string)
    requires pattern != [] && !Occurs(s, pattern)
    ensures ReplaceAll(s, pattern, replacement) == s
    decreases |s|
  {
    if s != [] {
      assert !OccursAt(s, pattern, 0);
      forall i | 0 <= i <= |s| - 1 - |pattern|
        ensures !OccursAt(s[1..], pattern, i)
      {
        assert s[1..][i..i + |pattern|] == s[i + 1..i + 1 + |pattern|];
        assert !OccursAt(s, pattern, i + 1);
      }
      ReplaceAbsent(s[1..], pattern, replacement);
      assert [s[0]] + s[1..] == s;
    }
  }

  // ----- the values hybrid_field computes -----

  /** `vue_value` before quoting (lines 28-33). */
  function NormalisedValue(value: PyValue, widgetType: string): PyValue {
    var v := if value.PyNone? then PyStr("") else value;
    if widgetType == RadioSelect then
      if v.PyBool? then PyStr(if v.b then "true" else "false")
      else if v == PyStr("") then PyStr("unknown")
      else v
    else v
  }

  /** `vue_value`: a string is written as a JSON string literal; any other value is passed through. */
  function VueValue(value: PyValue, widgetType: string): (r: PyValue)
    ensures r.PyStr? <==> value.PyNone? || value.PyStr? || (widgetType == RadioSelect && value.PyBool?)
    ensures !r.PyStr? ==> r == value
  {
    var v := NormalisedValue(value, widgetType);
    if v.PyStr? then PyStr(Json.Quote(v.s)) else v
  }

  /** What the page's JavaScript reads back from a string `vue_value`. */
  lemma VueValueReadsBack(value: PyValue, widgetType: string)
    ensures value.PyNone? && widgetType != RadioSelect ==> VueValue(value, widgetType) == PyStr("\"\"")
    ensures widgetType == RadioSelect && (value.PyNone? || value == PyStr("")) ==>
              Json.Unquote(VueValue(value, widgetType).s) == Some("unknown")
    ensures widgetType == RadioSelect && value.PyBool? ==>
              Json.Unquote(VueValue(value, widgetType).s) == Some(if value.b then "true" else "false")
    ensures value.PyStr? && !(widgetType == RadioSelect && value.s == "") ==>
              Json.Unquote(VueValue(value, widgetType).s) == Some(value.s)
  {
    var v := NormalisedValue(value, widgetType);
    if v.PyStr? {
      Json.UnquoteQuote(v.s);
    }
  }

  /** A radio button's value is never the empty string or a raw boolean once normalised. */
  lemma RadioValueNeverEmpty(value: PyValue)
    ensures var r := VueValue(value, RadioSelect);
            r != PyStr(Json.Quote("")) && !r.PyBool?
  {
    var v := NormalisedValue(value, RadioSelect);
    if v.PyStr? && v.s != "" {
      if Json.Quote(v.s) == Json.Quote("") {
        Json.QuoteInjective(v.s, "");
      }
    }
  }

  /** One entry of `vue_options`. */
  datatype Choice = Choice(value: PyValue, name: PyValue)

  function ChoiceKey(v: PyValue): PyValue {
    if v.PyChoiceValue? then v.value else v
  }

  /** `vue_options`: one `{"value", "name"}` per choice, in order, model choices unwrapped to their value. */
  function VueOptions(choices: seq<(PyValue, PyValue)>): (r: seq<Choice>)
    ensures |r| == |choices|
    ensures forall i :: 0 <= i < |r| ==>
              r[i].name == choices[i].1
    ensures forall i :: 0 <= i < |r| ==>
              r[i].value == (if choices[i].0.PyChoiceValue? then choices[i].0.value else choices[i].0)
  {
    seq(|choices|, i requires 0 <= i < |choices| => Choice(ChoiceKey(choices[i].0), choices[i].1))
  }

  /** `vue_errors`: the form's messages for this field, or none. */
  function VueErrors(errors: map<string, seq<string>>, name: string): (r: seq<string>)
    ensures name in errors ==> r == errors[name]
    ensures name !in errors ==> r == []
  {
    if name in errors then errors[name] else []
  }

  /** The widget's template: the field's own base template, else the Django one moved to the hybrid directory. */
  function TemplateName(baseTemplate: Option<string>, widgetTemplate: string): string {
    if baseTemplate.Some? then baseTemplate.value else ReplaceAll(widgetTemplate, DjangoWidgets, HybridWidgets)
  }

  lemma TemplateNameSpec(baseTemplate: Option<string>, widgetTemplate: string)
    ensures baseTemplate.Some? ==> TemplateName(baseTemplate, widgetTemplate) == baseTemplate.value
    ensures baseTemplate.None? ==>
              TemplateName(baseTemplate, widgetTemplate) == JoinWith(HybridWidgets, SplitOn(widgetTemplate, DjangoWidgets))
    ensures baseTemplate.None? && !Occurs(widgetTemplate, DjangoWidgets) ==>
              TemplateName(baseTemplate, widgetTemplate) == widgetTemplate
  {
    if baseTemplate.None? {
      ReplaceIsSplitJoin(widgetTemplate, DjangoWidgets, HybridWidgets);
      if !Occurs(widgetTemplate, DjangoWidgets) {
        ReplaceAbsent(widgetTemplate, DjangoWidgets, HybridWidgets);
      }
    }
  }

  /** Django's own widget directory is swapped for the hybrid one. */
  lemma DjangoTemplateMoved(file: string)
    requires !Occurs(file, DjangoWidgets)
    ensures TemplateName(None, DjangoWidgets + file) == HybridWidgets + file
  {
    var s := DjangoWidgets + file;
    assert DjangoWidgets <= s;
    assert s[|DjangoWidgets|..] == file;
    ReplaceAbsent(file, DjangoWidgets, HybridWidgets);
  }

  /** `field.help_text or ""`. */
  function HelpText(helpText: PyValue): (r: PyValue)
    ensures PyTruthy(helpText) ==> r == helpText
    ensures !PyTruthy(helpText) ==> r == PyStr("")
  {
    if PyTruthy(helpText) then helpText else PyStr("")
  }

  // ----- the objects hybrid_field mutates -----

  class Widget {
    /** The `choices` attribute, when the widget has one that is not `None`. */
    const choices: Option<seq<(PyValue, PyValue)>>
    const allowMultipleSelected: Option<PyValue>
    const inputType: Option<PyValue>
    var templateName: string

    constructor(choices: Option<seq<(PyValue, PyValue)>>, allowMultipleSelected: Option<PyValue>,
                inputType: Option<PyValue>, templateName: string)
      ensures this.choices == choices && this.allowMultipleSelected == allowMultipleSelected
      ensures this.inputType == inputType && this.templateName == templateName
    {
      this.choices := choices;
      this.allowMultipleSelected := allowMultipleSelected;
      this.inputType := inputType;
      this.templateName := templateName;
    }
  }

  /** The form field behind a bound field. */
  class FormField {
    const required: bool
    const baseTemplate: Option<string>
    const widget: Widget

    constructor(required: bool, baseTemplate: Option<string>, widget: Widget)
      ensures this.required == required && this.baseTemplate == baseTemplate && this.widget == widget
    {
      this.required := required;
      this.baseTemplate := baseTemplate;
      this.widget := widget;
    }
  }

  class BoundField {
    const name: string
    const widgetType: string
    /** What `field.value()` returns. */
    const value: PyValue
    /** `field.form.errors`. */
    const formErrors: map<string, seq<string>>
    const field: FormField

    var vueValue: PyValue
    /** `None` while the attribute is unset. */
    var vueOptions: Option<seq<Choice>>
    var vueErrors: seq<string>
    var required: bool
    var vueMultiple: PyValue
    /** `None` while the attribute is unset. */
    var hideLabel: Option<PyValue>
    var inputType: PyValue
    var helpText: PyValue

    constructor(name: string, widgetType: string, value: PyValue, formErrors: map<string, seq<string>>,
                field: FormField, hideLabel: Option<PyValue>, helpText: PyValue)
      ensures this.name == name && this.widgetType == widgetType && this.value == value
      ensures this.formErrors == formErrors && this.field == field
      ensures this.hideLabel == hideLabel && this.helpText == helpText && vueOptions.None?
    {
      this.name := name;
      this.widgetType := widgetType;
      this.value := value;
      this.formErrors := formErrors;
      this.field := field;
      this.hideLabel := hideLabel;
      this.helpText := helpText;
      vueValue := PyNone;
      vueOptions := None;
      vueErrors := [];
      required := false;
      vueMultiple := PyBool(false);
      inputType := PyStr("");
    }
  }

  /** Lines 28-35: `field.vue_value` is normalised, then a string is JSON-quoted. */
  method SetVueValue(field: BoundField)
    modifies field`vueValue
    ensures field.vueValue == VueValue(field.value, field.widgetType)
  {
    var v := if field.value.PyNone? then PyStr("") else field.value;
    if field.widgetType == RadioSelect {
      if v.PyBool? {
        v := PyStr(if v.b then "true" else "false");
      } else if v == PyStr("") {
        v := PyStr("unknown");
      }
    }
    if v.PyStr? {
      v := PyStr(Json.Quote(v.s));
    }
    field.vueValue := v;
  }

  /** Lines 46-51: the widget is pointed at the hybrid template. */
  method RetargetWidget(field: FormField)
    modifies field.widget`templateName
    ensures field.widget.templateName == TemplateName(field.baseTemplate, old(field.widget.templateName))
  {
    var widget := field.widget;
    if field.baseTemplate.Some? {
      widget.templateName := field.baseTemplate.value;
    } else {
      widget.templateName := ReplaceAll(widget.templateName, DjangoWidgets, HybridWidgets);
    }
  }

  /** `hybrid_field(field)`, up to the rendering of the widget. */
  method HybridField(field: BoundField)
    modifies field, field.field.widget
    ensures field.vueValue == VueValue(field.value, field.widgetType)
    ensures field.vueOptions ==
              if field.field.widget.choices.Some? then Some(VueOptions(field.field.widget.choices.value))
              else old(field.vueOptions)
    ensures field.vueErrors == VueErrors(field.formErrors, field.name)
    ensures field.required == field.field.required
    ensures field.vueMultiple == field.field.widget.allowMultipleSelected.GetOr(PyBool(false))
    ensures field.hideLabel == Some(old(field.hideLabel).GetOr(PyBool(false)))
    ensures field.field.widget.templateName == TemplateName(field.field.baseTemplate, old(field.field.widget.templateName))
    ensures field.inputType == field.field.widget.inputType.GetOr(PyStr(""))
    ensures field.helpText == HelpText(old(field.helpText))
  {
    SetVueValue(field);
    var widget := field.field.widget;
    if widget.choices.Some? {
      field.vueOptions := Some(VueOptions(widget.choices.value));
    }
    field.vueErrors := if field.name in field.formErrors then field.formErrors[field.name] else [];
    field.required := field.field.required;
    field.vueMultiple := widget.allowMultipleSelected.GetOr(PyBool(false));
    field.hideLabel := Some(field.hideLabel.GetOr(PyBool(false)));
    RetargetWidget(field.field);
    field.inputType := widget.inputType.GetOr(PyStr(""));
    field.helpText := if PyTruthy(field.helpText) then field.helpText else PyStr("");
  }
}
