/**
 * The `Form` class of src/Kris/LaravelFormBuilder/Form.php as an object whose
 * methods update its properties in place. Each method is proved to leave the
 * object in the state, and to return or throw what, the matching function of
 * `FormSemantics` prescribes; what those functions promise is proved there.
 * A thrown exception is an `Outcome` result: `Fail(e)` means the PHP method
 * throws `e`, with the properties as they are at the throw.
 */
module Forms {
  import opened Wrappers
  import opened PhpValues
  import opened PhpArray
  import S = FormSemantics

  /** What `compose` is handed: a built form, a child form type (whose form it takes), or anything else. */
  datatype Source = BuiltForm(form: Form) | ChildForm(form: Form) | Other

  class Form {
    /** The form helper: field types, labels, option merging and field rules. */
    const helper: S.Helper
    /** The plain base class, or a subclass with its own `buildForm`. */
    const kind: S.Kind

    var fields: OMap<S.Field>
    var model: Value
    var formOptions: S.Options
    var data: map<string, Value>
    var showFieldErrors: bool
    var clientValidation: bool
    var name: Option<string>
    var exclude: seq<string>
    var rebuilding: bool
    var validator: Option<bool>

    /** The object's properties as a `FormSemantics.State`. */
    ghost function St(): S.State
      reads this
    {
      S.State(fields, model, formOptions, data, showFieldErrors, clientValidation, name, exclude, rebuilding, validator)
    }

    ghost predicate Valid()
      reads this
    {
      S.Keyed(fields)
    }

    /** A new form with the property defaults. */
    constructor (helper: S.Helper, kind: S.Kind)
      ensures Valid() && St() == S.Initial()
      ensures this.helper == helper && this.kind == kind
    {
      this.helper := helper;
      this.kind := kind;
      fields := Empty();
      model := Arr(map[]);
      formOptions := map["method" := Str("GET"), "url" := Null];
      data := map[];
      showFieldErrors := true;
      clientValidation := true;
      name := None;
      exclude := [];
      rebuilding := false;
      validator := None;
    }

    // ------------------------------------------------------------ registry

    method Has(n: string) returns (b: bool)
      ensures b <==> S.Has(St(), n)
    {
      b := n in fields.vals;
    }

    method GetField(n: string) returns (r: Result<S.Field, S.FormError>)
      ensures r == S.GetField(St(), n)
    {
      var present := Has(n);
      if present {
        return Success(fields.vals[n]);
      }
      return Failure(S.UnknownField(n));
    }

    method GetFieldName(n: string) returns (r: string)
      ensures r == S.FieldName(name, n)
    {
      if name.Some? {
        return name.value + "[" + n + "]";
      }
      return n;
    }

    method SetupFieldOptions(n: string, options: S.Options) returns (r: S.Options)
      ensures r == S.SetupFieldOptions(helper, name, n, options)
    {
      if !S.TruthyName(name) {
        return options;
      }
      r := options["real_name" := Str(n)];
      if !("label" in options && options["label"] != Null) {
        r := r["label" := Str(helper.formatLabel(n))];
      }
    }

    /** `getFieldType`: false where the helper throws for an unknown type. */
    method GetFieldType(fieldType: string) returns (known: bool)
      modifies this
      ensures known == helper.isFieldType(fieldType)
      ensures known ==> St() == S.WithFileFlag(old(St()), fieldType)
      ensures !known ==> St() == old(St())
    {
      known := helper.isFieldType(fieldType);
      if !known {
        return;
      }
      if fieldType == "file" {
        formOptions := formOptions["files" := Bool(true)];
      }
    }

    method MakeField(n: string, fieldType: string, options: S.Options) returns (r: Result<S.Field, S.FormError>)
      modifies this
      ensures helper.isFieldType(fieldType) ==>
        r == Success(S.NewField(helper, name, n, fieldType, options)) && St() == S.WithFileFlag(old(St()), fieldType)
      ensures !helper.isFieldType(fieldType) ==>
        r == Failure(S.UnknownFieldType(fieldType)) && St() == old(St())
    {
      var opts := SetupFieldOptions(n, options);
      var fieldName := GetFieldName(n);
      var known := GetFieldType(fieldType);
      if !known {
        return Failure(S.UnknownFieldType(fieldType));
      }
      return Success(S.Field(fieldName, fieldType, opts, false));
    }

    method PreventDuplicate(n: string) returns (out: Outcome<S.FormError>)
      ensures out.Fail? <==> S.Has(St(), n)
      ensures out.Fail? ==> out.error == S.DuplicateField(n)
    {
      var present := Has(n);
      if present {
        return Fail(S.DuplicateField(n));
      }
      return Pass;
    }

    method AddField(f: S.Field, modifying: bool) returns (out: Outcome<S.FormError>)
      requires Valid()
      modifies this
      ensures Valid()
      ensures (St(), out) == S.AddField(old(St()), f, modifying)
    {
      if !modifying && !rebuilding {
        out := PreventDuplicate(S.RealName(f));
        if out.Fail? {
          return;
        }
      }
      fields := Put(fields, S.RealName(f), f);
      out := Pass;
    }

    method Add(n: string, fieldType: string, options: S.Options, modifying: bool) returns (out: Outcome<S.FormError>)
      requires Valid()
      modifies this
      ensures Valid()
      ensures (St(), out) == S.Add(helper, old(St()), n, fieldType, options, modifying)
    {
      if S.IsBlankName(n) {
        return Fail(S.InvalidFieldName(n));
      }
      var present := Has(n);
      if rebuilding && !present {
        return Pass;
      }
      var made := MakeField(n, fieldType, options);
      if made.Failure? {
        return Fail(made.error);
      }
      out := AddField(made.value, modifying);
    }

    method AddBefore(anchor: string, n: string, fieldType: string, options: S.Options, modifying: bool)
      returns (out: Outcome<S.FormError>)
      requires Valid()
      modifies this
      ensures Valid()
      ensures (St(), out) == S.AddBefore(helper, old(St()), anchor, n, fieldType, options, modifying)
    {
      var offset := S.BeforeOffset(fields.keys, anchor);
      out := Splice(offset, n, fieldType, options, modifying);
    }

    method AddAfter(anchor: string, n: string, fieldType: string, options: S.Options, modifying: bool)
      returns (out: Outcome<S.FormError>)
      requires Valid()
      modifies this
      ensures Valid()
      ensures (St(), out) == S.AddAfter(helper, old(St()), anchor, n, fieldType, options, modifying)
    {
      var offset := S.AfterOffset(fields.keys, anchor);
      out := Splice(offset, n, fieldType, options, modifying);
    }

    /** The common body of `addBefore` and `addAfter`. */
    method Splice(offset: nat, n: string, fieldType: string, options: S.Options, modifying: bool)
      returns (out: Outcome<S.FormError>)
      requires Valid()
      modifies this
      ensures Valid()
      ensures (St(), out) == S.Spliced(helper, old(St()), offset, n, fieldType, options, modifying)
    {
      var before, after := Take(fields, offset), Drop(fields, offset);
      fields := before;
      out := Add(n, fieldType, options, modifying);
      if out.Fail? {
        return;
      }
      fields := Union(fields, after);
    }

    method Compose(source: Source, modifying: bool) returns (out: Outcome<S.FormError>)
      requires Valid()
      requires !source.Other? ==> source.form.Valid()
      modifies this
      ensures Valid()
      ensures source.Other? ==> (St(), out) == S.Compose(old(St()), None, modifying)
      ensures !source.Other? ==> (St(), out) == S.Compose(old(St()), Some(old(Values(source.form.fields))), modifying)
    {
      if source.Other? {
        return Fail(S.InvalidComposeSource);
      }
      var fs := Values(source.form.fields);
      var i := 0;
      while i < |fs|
        invariant 0 <= i <= |fs| && Valid()
        invariant S.AddFields(St(), fs[i..], modifying) == S.AddFields(old(St()), fs, modifying)
      {
        assert fs[i..][0] == fs[i] && fs[i..][1..] == fs[i + 1..];
        S.AddFieldsFirst(St(), fs[i..], modifying);
        out := AddField(fs[i], modifying);
        if out.Fail? {
          return;
        }
        i := i + 1;
      }
      assert fs[i..] == [];
      out := Pass;
    }

    method Remove(n: string) returns (out: Outcome<S.FormError>)
      requires Valid()
      modifies this
      ensures Valid()
      ensures (St(), out) == S.Remove(old(St()), n)
    {
      var present := Has(n);
      if present {
        fields := Unset(fields, n);
        return Pass;
      }
      return Fail(S.UnknownField(n));
    }

    method Modify(n: string, fieldType: string, options: S.Options, overwriteOptions: bool)
      returns (out: Outcome<S.FormError>)
      requires Valid()
      modifies this
      ensures Valid()
      ensures (St(), out) == S.Modify(helper, old(St()), n, fieldType, options, overwriteOptions)
    {
      var opts := options;
      var present := Has(n);
      if !overwriteOptions && present {
        var old_ := GetField(n);
        opts := helper.mergeOptions(old_.value.options, options);
      }
      out := Add(n, fieldType, opts, true);
    }

    // ------------------------------------------------------------- rebuild

    /** A run of `add` calls, stopping at the first that throws. */
    method Replay(calls: seq<S.AddCall>) returns (out: Outcome<S.FormError>)
      requires Valid()
      modifies this
      ensures Valid()
      ensures (St(), out) == S.Replay(helper, old(St()), calls)
    {
      var i := 0;
      while i < |calls|
        invariant 0 <= i <= |calls| && Valid()
        invariant S.Replay(helper, St(), calls[i..]) == S.Replay(helper, old(St()), calls)
      {
        var c := calls[i];
        assert calls[i..][0] == c && calls[i..][1..] == calls[i + 1..];
        out := Add(c.name, c.fieldType, c.options, c.modifying);
        if out.Fail? {
          return;
        }
        i := i + 1;
      }
      out := Pass;
    }

    method BuildForm() returns (out: Outcome<S.FormError>)
      requires Valid()
      modifies this
      ensures Valid()
      ensures (St(), out) == S.BuildForm(helper, kind, old(St()))
    {
      match kind
      case Plain =>
        out := Pass;
      case Custom(steps) =>
        out := Replay(steps);
    }

    method RebuildForm() returns (out: Outcome<S.FormError>)
      requires Valid()
      modifies this
      ensures Valid()
      ensures (St(), out) == S.Rebuild(helper, kind, old(St()))
    {
      rebuilding := true;
      if kind.Plain? {
        out := Replay(S.PlainCalls(fields));
      } else {
        out := BuildForm();
      }
      if out.Fail? {
        return;
      }
      rebuilding := false;
    }

    method SetName(n: Option<string>) returns (out: Outcome<S.FormError>)
      requires Valid()
      modifies this
      ensures Valid()
      ensures (St(), out) == S.SetName(helper, kind, old(St()), n)
    {
      name := n;
      out := RebuildForm();
    }

    // --------------------------------------------------- model and options

    method SetupNamedModel()
      modifies this
      ensures St() == S.SetupNamedModel(old(St()))
    {
      if !Truthy(model) || !S.TruthyName(name) {
        return;
      }
      if !Truthy(Get(model, name.value, Null)) {
        model := Arr(map[name.value := model]);
      }
    }

    method SetModel(v: Value)
      modifies this
      ensures St() == S.SetModel(old(St()), v)
    {
      model := v;
      SetupNamedModel();
    }

    method GetFormOption(option: string, default: Value) returns (v: Value)
      ensures v == S.GetFormOption(St(), option, default)
    {
      v := Lookup(formOptions, option, default);
    }

    method SetFormOption(option: string, v: Value)
      modifies this
      ensures St() == S.SetFormOption(old(St()), option, v)
    {
      formOptions := formOptions[option := v];
    }

    /** The `array_pull` half of `pullFromOptions`; the caller hands the value to the setter. */
    method PullOption(option: string) returns (v: Option<Value>)
      modifies this
      ensures (St(), v) == S.Pull(old(St()), option)
    {
      var current := GetFormOption(option, Null);
      if current == Null {
        return None;
      }
      formOptions := formOptions - {option};
      return Some(current);
    }

    method SetErrorsEnabled(enabled: Value)
      modifies this
      ensures St() == old(St()).(showFieldErrors := Truthy(enabled))
    {
      showFieldErrors := Truthy(enabled);
    }

    method SetClientValidationEnabled(enabled: Value)
      modifies this
      ensures St() == old(St()).(clientValidation := Truthy(enabled))
    {
      clientValidation := Truthy(enabled);
    }

    method CheckIfNamedForm()
      modifies this
      ensures St() == S.CheckIfNamedForm(old(St()))
    {
      var v := GetFormOption("name", Null);
      if Truthy(v) {
        name := Some(ToPhpString(v));
        formOptions := formOptions - {"name"};
      }
    }

    /** `pullFromOptions('model', 'setModel')` */
    method PullModel()
      modifies this
      ensures St() == S.PullModel(old(St()))
    {
      var v := PullOption("model");
      if v.Some? {
        SetModel(v.value);
      }
    }

    /** `pullFromOptions('data', 'addData')`; a non-array fails `addData`'s parameter type. */
    method PullData() returns (out: Outcome<S.FormError>)
      modifies this
      ensures (St(), out) == S.PullData(old(St()))
    {
      var v := PullOption("data");
      if v.Some? {
        if !v.value.Arr? {
          return Fail(S.NotAnArray("data"));
        }
        AddData(v.value.entries);
      }
      out := Pass;
    }

    /** `pullFromOptions('errors_enabled', 'setErrorsEnabled')` */
    method PullErrorsEnabled()
      modifies this
      ensures St() == S.PullErrorsEnabled(old(St()))
    {
      var v := PullOption("errors_enabled");
      if v.Some? {
        SetErrorsEnabled(v.value);
      }
    }

    /** `pullFromOptions('client_validation', 'setClientValidationEnabled')` */
    method PullClientValidation()
      modifies this
      ensures St() == S.PullClientValidation(old(St()))
    {
      var v := PullOption("client_validation");
      if v.Some? {
        SetClientValidationEnabled(v.value);
      }
    }

    method SetFormOptions(options: S.Options) returns (out: Outcome<S.FormError>)
      modifies this
      ensures (St(), out) == S.SetFormOptions(helper, old(St()), options)
    {
      formOptions := helper.mergeOptions(formOptions, options);
      PullModel();
      out := PullData();
      if out.Fail? {
        return;
      }
      PullErrorsEnabled();
      PullClientValidation();
      CheckIfNamedForm();
    }

    method SetData(key: string, v: Value)
      modifies this
      ensures St() == S.SetData(old(St()), key, v)
    {
      data := data[key := v];
    }

    method GetData(key: Option<string>, default: Value) returns (v: Value)
      ensures v == S.GetData(St(), key, default)
    {
      if key.None? {
        return Arr(data);
      }
      v := Lookup(data, key.value, default);
    }

    /** `addData`: `setData` for every entry. */
    method AddData(m: map<string, Value>)
      modifies this
      ensures St() == S.AddData(old(St()), m)
    {
      var rest := m.Keys;
      ghost var done: map<string, Value> := map[];
      while rest != {}
        invariant rest <= m.Keys && done.Keys == m.Keys - rest
        invariant forall k :: k in done ==> done[k] == m[k]
        invariant St() == old(St()).(data := old(data) + done)
        decreases |rest|
      {
        var k :| k in rest;
        SetData(k, m[k]);
        S.SetDataMerges(old(data), done, k, m[k]);
        done := done[k := m[k]];
        rest := rest - {k};
      }
      assert done == m;
    }

    method Exclude(names: seq<string>)
      modifies this
      ensures St() == S.Exclude(old(St()), names)
    {
      exclude := exclude + names;
    }

    // ------------------------------------------------ rules and validation

    method GetRules(overrideRules: map<string, Value>) returns (r: map<string, Value>)
      requires Valid()
      ensures r == S.GetRules(helper, St(), overrideRules)
    {
      r := helper.fieldRules(Values(fields)) + overrideRules;
    }

    /** `validate`; `fails` is the verdict of the validator the factory builds. */
    method Validate(fails: bool)
      modifies this
      ensures St() == S.Validate(old(St()), fails)
    {
      validator := Some(fails);
    }

    method IsValid(fails: bool) returns (ok: bool)
      modifies this
      ensures (St(), ok) == S.IsValid(old(St()), fails)
    {
      if validator.None? {
        Validate(fails);
      }
      ok := !validator.value;
    }

    method GetErrors() returns (out: Outcome<S.FormError>)
      ensures out == S.GetErrors(St())
    {
      if validator.None? {
        return Fail(S.NotValidated);
      }
      return Pass;
    }

    // ------------------------------------------------------------ rendering

    method GetUnrenderedFields() returns (r: seq<S.Field>)
      requires Valid()
      ensures r == S.Unrendered(Values(fields))
    {
      var all := Values(fields);
      r := [];
      var i := 0;
      while i < |all|
        invariant 0 <= i <= |all|
        invariant r == S.Unrendered(all[..i])
      {
        assert all[..i + 1][..i] == all[..i];
        if !all[i].rendered {
          r := r + [all[i]];
        }
        i := i + 1;
      }
      assert all[..|all|] == all;
    }

    /** `render`'s effect on the form; the view it fills is not modelled. */
    method Render()
      modifies this
      ensures St() == S.Render(old(St()))
    {
      SetupNamedModel();
    }

    /** `renderForm`: renders every field; returns the fields handed to the view. */
    method RenderForm() returns (selected: seq<S.Field>)
      requires Valid()
      modifies this
      ensures selected == old(Values(fields))
      ensures St() == S.Render(old(St()))
    {
      selected := Values(fields);
      Render();
    }

    /** `renderRest`: renders the fields not rendered yet. */
    method RenderRest() returns (selected: seq<S.Field>)
      requires Valid()
      modifies this
      ensures selected == old(S.Unrendered(Values(fields)))
      ensures St() == S.Render(old(St()))
    {
      selected := GetUnrenderedFields();
      Render();
    }

    /** `renderUntil`: renders the unrendered fields up to and including the one with the given real name. */
    method RenderUntil(fieldName: string) returns (selected: seq<S.Field>)
      requires Valid()
      modifies this
      ensures selected == old(S.PrefixThrough(S.Unrendered(Values(fields)), fieldName))
      ensures St() == S.Render(old(St()))
    {
      var fs := GetUnrenderedFields();
      var i := 1;
      var j := 0;
      while j < |fs|
        invariant 0 <= j <= |fs| && i == j + 1
        invariant forall t :: 0 <= t < j ==> S.RealName(fs[t]) != fieldName
      {
        if S.RealName(fs[j]) == fieldName {
          break;
        }
        i := i + 1;
        j := j + 1;
      }
      if j < |fs| {
        S.PrefixThroughFirstMatch(fs, fieldName, j);
      } else {
        S.PrefixThroughNoMatch(fs, fieldName);
      }
      selected := fs[..Min(i, |fs|)];
      Render();
    }
  }
}
