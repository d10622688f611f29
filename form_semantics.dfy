/**
 * What each operation of `Form` (src/Kris/LaravelFormBuilder/Form.php) does
 * to the form's state: a pure function from the state before the call to the
 * state after it, together with the exception the call threw, if any (the
 * state is then the one PHP leaves behind at the throw). The class in form.dfy
 * performs these operations in place and is proved against these functions;
 * the lemmas below state what the operations promise.
 */
module FormSemantics {
  import opened Wrappers
  import opened PhpValues
  import opened PhpArray

  type Options = map<string, Value>

  /**
   * A form field as the registry holds it: `name` is the name `getFieldName`
   * built (namespaced in a named form), `options` the option bag after
   * `setupFieldOptions`, `rendered` the flag a render pass sets.
   */
  datatype Field = Field(name: string, fieldType: string, options: Options, rendered: bool)

  /** The field's real name, its registry key: its `real_name` option when that is a string, else its name. */
  function RealName(f: Field): string {
    if "real_name" in f.options && f.options["real_name"].Str? then f.options["real_name"].s else f.name
  }

  /** The exceptions the form's operations throw. */
  datatype FormError =
    | InvalidFieldName(name: string)
    | DuplicateField(name: string)
    | UnknownField(name: string)
    | UnknownFieldType(fieldType: string)
    | InvalidComposeSource
    | NotAnArray(option: string)
    | NotValidated

  /** The services the form reaches through its FormHelper, as functions. */
  datatype Helper = Helper(
    isFieldType: string -> bool,                     // getFieldType finds a class for the type
    formatLabel: string -> string,                   // formatLabel
    mergeOptions: (Options, Options) -> Options,     // mergeOptions
    fieldRules: seq<Field> -> map<string, Value>)    // mergeFieldsRules(...)['rules']

  /** One `$this->add(...)` call, as a subclass's `buildForm` issues it. */
  datatype AddCall = AddCall(name: string, fieldType: string, options: Options, modifying: bool)

  /** The base `Form` class, whose `buildForm` is empty, or a subclass whose `buildForm` issues these calls. */
  datatype Kind = Plain | Custom(buildSteps: seq<AddCall>)

  /** The properties of a Form object that its operations read and write. */
  datatype State = State(
    fields: OMap<Field>,
    model: Value,
    formOptions: Options,
    data: map<string, Value>,
    showFieldErrors: bool,
    clientValidation: bool,
    name: Option<string>,
    exclude: seq<string>,
    rebuilding: bool,
    validator: Option<bool>)   // Some(fails) once validated; `fails` is the validator's verdict

  /** A call's new state and the exception it threw, if any. */
  type Step = (State, Outcome<FormError>)

  /** The registry invariant: a well-formed ordered array in which every field sits under its real name. */
  ghost predicate Keyed(m: OMap<Field>) {
    Valid(m) && forall k :: k in m.vals ==> RealName(m.vals[k]) == k
  }

  /** The property defaults of a new form. */
  function Initial(): (s: State)
    ensures Keyed(s.fields) && s.fields.keys == [] && !s.rebuilding && s.validator.None?
  {
    State(Empty(), Arr(map[]), map["method" := Str("GET"), "url" := Null], map[], true, true,
          None, [], false, None)
  }

  // ---------------------------------------------------------------- naming

  /** `!$name || trim($name) == ''`: the field names `add` refuses. */
  predicate IsBlankName(n: string) {
    !TruthyString(n) || TrimsToEmpty(n)
  }

  /** `$this->getName()` is truthy. */
  predicate TruthyName(formName: Option<string>) {
    formName.Some? && TruthyString(formName.value)
  }

  /** `getFieldName`: the raw name, or `name[raw]` once the form has a (non-null) name. */
  function FieldName(formName: Option<string>, n: string): string {
    match formName
    case None => n
    case Some(p) => p + "[" + n + "]"
  }

  /**
   * `setupFieldOptions`: in a form with a truthy name, record the raw name as
   * `real_name` and give the field a formatted label unless one is set.
   */
  function SetupFieldOptions(h: Helper, formName: Option<string>, n: string, options: Options): (r: Options)
    ensures !TruthyName(formName) ==> r == options
    ensures TruthyName(formName) ==> "real_name" in r && r["real_name"] == Str(n)
    ensures TruthyName(formName) ==> "label" in r && r["label"] != Null
    ensures "label" in options && options["label"] != Null ==> "label" in r && r["label"] == options["label"]
    ensures forall k :: k in options && k != "real_name" && k != "label" ==> k in r && r[k] == options[k]
    ensures forall k :: k in r ==> k in options || k == "real_name" || k == "label"
  {
    if !TruthyName(formName) then options
    else
      var o := options["real_name" := Str(n)];
      if "label" in options && options["label"] != Null then o
      else o["label" := Str(h.formatLabel(n))]
  }

  /** The field `makeField` constructs (line 149), once the type is known. */
  function NewField(h: Helper, formName: Option<string>, n: string, fieldType: string, options: Options): Field {
    Field(FieldName(formName, n), fieldType, SetupFieldOptions(h, formName, n, options), false)
  }

  /** `getFieldType`: a field of type 'file' sets the form option `files`. */
  function WithFileFlag(s: State, fieldType: string): State {
    if fieldType == "file" then s.(formOptions := s.formOptions["files" := Bool(true)]) else s
  }

  // -------------------------------------------------------------- registry

  predicate Has(s: State, n: string) {
    n in s.fields.vals
  }

  /** `addField`: refuse a duplicate real name unless modifying or rebuilding, then `$fields[realName] = $field`. */
  function AddField(s: State, f: Field, modifying: bool): (r: Step)
    requires Keyed(s.fields)
    ensures Keyed(r.0.fields)
    ensures r.1.Fail? ==> r.0 == s && r.1 == Fail(DuplicateField(RealName(f)))
    ensures r.1.Pass? ==> RealName(f) in r.0.fields.vals && r.0.fields.vals[RealName(f)] == f
  {
    var key := RealName(f);
    if !modifying && !s.rebuilding && key in s.fields.vals then (s, Fail(DuplicateField(key)))
    else (s.(fields := Put(s.fields, key, f)), Pass)
  }

  /** `add`: refuse a blank name, skip a name the registry lacks while rebuilding, else make the field and add it. */
  function Add(h: Helper, s: State, n: string, fieldType: string, options: Options, modifying: bool): (r: Step)
    requires Keyed(s.fields)
    ensures Keyed(r.0.fields)
    ensures r.1.Fail? ==> r.0.fields == s.fields
    ensures r.0.name == s.name && r.0.rebuilding == s.rebuilding && r.0.validator == s.validator
  {
    if IsBlankName(n) then (s, Fail(InvalidFieldName(n)))
    else if s.rebuilding && n !in s.fields.vals then (s, Pass)
    else if !h.isFieldType(fieldType) then (s, Fail(UnknownFieldType(fieldType)))
    else
      var t := WithFileFlag(s, fieldType);
      assert t.fields == s.fields && t.name == s.name;
      AddField(t, NewField(h, s.name, n, fieldType, options), modifying)
  }

  /** The real name a call of `add` files its field under. */
  function AddedKey(h: Helper, s: State, n: string, fieldType: string, options: Options): string {
    RealName(NewField(h, s.name, n, fieldType, options))
  }

  /** `add` gets as far as `addField` (lines 163-173). */
  predicate ReachesAddField(h: Helper, s: State, n: string, fieldType: string) {
    !IsBlankName(n) && !(s.rebuilding && n !in s.fields.vals) && h.isFieldType(fieldType)
  }

  /** The split point of `addBefore`: the anchor's position; `array_search`'s `false` slices as 0. */
  function BeforeOffset(keys: seq<string>, anchor: string): nat {
    match IndexOf(keys, anchor)
    case None => 0
    case Some(i) => i
  }

  /** The split point of `addAfter`: one past the anchor; `false + 1` is 1. */
  function AfterOffset(keys: seq<string>, anchor: string): nat {
    match IndexOf(keys, anchor)
    case None => 1
    case Some(i) => i + 1
  }

  /**
   * The body of `addBefore` and `addAfter`: cut the registry at `offset`,
   * `add` into the prefix, then union the suffix back on. When `add` throws,
   * the union is never reached and the suffix is lost.
   */
  function Spliced(h: Helper, s: State, offset: nat, n: string, fieldType: string, options: Options, modifying: bool): (r: Step)
    requires Keyed(s.fields)
    ensures Keyed(r.0.fields)
    ensures r.1.Fail? ==> r.0.fields == Take(s.fields, offset)
  {
    var before, after := Take(s.fields, offset), Drop(s.fields, offset);
    var (t, out) := Add(h, s.(fields := before), n, fieldType, options, modifying);
    if out.Fail? then (t, out) else (t.(fields := Union(t.fields, after)), Pass)
  }

  function AddBefore(h: Helper, s: State, anchor: string, n: string, fieldType: string, options: Options, modifying: bool): (r: Step)
    requires Keyed(s.fields)
    ensures Keyed(r.0.fields)
  {
    Spliced(h, s, BeforeOffset(s.fields.keys, anchor), n, fieldType, options, modifying)
  }

  function AddAfter(h: Helper, s: State, anchor: string, n: string, fieldType: string, options: Options, modifying: bool): (r: Step)
    requires Keyed(s.fields)
    ensures Keyed(r.0.fields)
  {
    Spliced(h, s, AfterOffset(s.fields.keys, anchor), n, fieldType, options, modifying)
  }

  /** `remove`: unset a present field; an absent one throws. */
  function Remove(s: State, n: string): (r: Step)
    requires Keyed(s.fields)
    ensures Keyed(r.0.fields)
  {
    if n in s.fields.vals then (s.(fields := Unset(s.fields, n)), Pass) else (s, Fail(UnknownField(n)))
  }

  /** `getField` */
  function GetField(s: State, n: string): (r: Result<Field, FormError>)
    ensures r.Success? <==> Has(s, n)
    ensures r.Success? ==> r.value == s.fields.vals[n]
    ensures r.Failure? ==> r.error == UnknownField(n)
  {
    if n in s.fields.vals then Success(s.fields.vals[n]) else Failure(UnknownField(n))
  }

  /** `modify`: merge the new options into the old ones unless told to overwrite, then `add` with `modify = true`. */
  function Modify(h: Helper, s: State, n: string, fieldType: string, options: Options, overwriteOptions: bool): (r: Step)
    requires Keyed(s.fields)
    ensures Keyed(r.0.fields)
  {
    var opts := if !overwriteOptions && n in s.fields.vals
                then h.mergeOptions(s.fields.vals[n].options, options) else options;
    Add(h, s, n, fieldType, opts, true)
  }

  /** The loop of `compose`: `addField` each field in turn; the first that throws stops it. */
  function AddFields(s: State, fs: seq<Field>, modifying: bool): (r: Step)
    requires Keyed(s.fields)
    ensures Keyed(r.0.fields)
    ensures r.0.rebuilding == s.rebuilding
    decreases |fs|
  {
    if fs == [] then (s, Pass)
    else
      var (t, out) := AddField(s, fs[0], modifying);
      if out.Fail? then (t, out) else AddFields(t, fs[1..], modifying)
  }

  /** `compose`'s loop, one step: the first field is added, and the rest follow unless it threw. */
  lemma AddFieldsFirst(s: State, fs: seq<Field>, modifying: bool)
    requires Keyed(s.fields) && fs != []
    ensures var (t, out) := AddField(s, fs[0], modifying);
      AddFields(s, fs, modifying) == if out.Fail? then (t, out) else AddFields(t, fs[1..], modifying)
  {
  }

  /**
   * `compose`: the fields of a built form or of a child form type, in their
   * order (`Some`), or a source of any other kind (`None`), which throws.
   */
  function Compose(s: State, source: Option<seq<Field>>, modifying: bool): (r: Step)
    requires Keyed(s.fields)
    ensures Keyed(r.0.fields)
  {
    match source
    case None => (s, Fail(InvalidComposeSource))
    case Some(fs) => AddFields(s, fs, modifying)
  }

  // --------------------------------------------------------------- rebuild

  /** A run of `add` calls; the first that throws stops it. */
  function Replay(h: Helper, s: State, calls: seq<AddCall>): (r: Step)
    requires Keyed(s.fields)
    ensures Keyed(r.0.fields)
    ensures r.0.name == s.name && r.0.rebuilding == s.rebuilding && r.0.validator == s.validator
    decreases |calls|
  {
    if calls == [] then (s, Pass)
    else
      var c := calls[0];
      var (t, out) := Add(h, s, c.name, c.fieldType, c.options, c.modifying);
      if out.Fail? then (t, out) else Replay(h, t, calls[1..])
  }

  /** The calls the plain form's rebuild makes: `add($name, $field->getType(), $field->getOptions())` per entry. */
  function PlainCalls(m: OMap<Field>): (r: seq<AddCall>)
    requires Valid(m)
    ensures |r| == |m.keys|
    ensures forall i :: 0 <= i < |r| ==> r[i] == AddCall(m.keys[i], m.vals[m.keys[i]].fieldType, m.vals[m.keys[i]].options, false)
  {
    seq(|m.keys|, i requires 0 <= i < |m.keys| =>
      AddCall(m.keys[i], m.vals[m.keys[i]].fieldType, m.vals[m.keys[i]].options, false))
  }

  /** `buildForm`: empty on the plain form, a subclass's calls otherwise. */
  function BuildForm(h: Helper, kind: Kind, s: State): (r: Step)
    requires Keyed(s.fields)
    ensures Keyed(r.0.fields)
  {
    match kind
    case Plain => (s, Pass)
    case Custom(steps) => Replay(h, s, steps)
  }

  /**
   * `rebuildForm`: set `rebuilding`, replay the plain form's own entries or
   * the subclass's `buildForm`, and clear `rebuilding` again, which is skipped
   * when the replay throws.
   */
  function Rebuild(h: Helper, kind: Kind, s: State): (r: Step)
    requires Keyed(s.fields)
    ensures Keyed(r.0.fields)
    ensures r.1.Pass? ==> !r.0.rebuilding
  {
    var s1 := s.(rebuilding := true);
    var calls := match kind case Plain => PlainCalls(s.fields) case Custom(steps) => steps;
    var (t, out) := Replay(h, s1, calls);
    if out.Fail? then (t, out) else (t.(rebuilding := false), Pass)
  }

  /** `setName`: set the name, then rebuild so every field is named anew. */
  function SetName(h: Helper, kind: Kind, s: State, n: Option<string>): (r: Step)
    requires Keyed(s.fields)
    ensures Keyed(r.0.fields)
  {
    Rebuild(h, kind, s.(name := n))
  }

  // ------------------------------------------------------- model and options

  /**
   * `setupNamedModel`: in a named form, wrap a truthy model as
   * `[name => model]` unless the model's entry under the name is truthy
   * already. The model conversion is the identity here (see README).
   */
  function SetupNamedModel(s: State): (r: State)
    ensures r.(model := s.model) == s
    ensures Truthy(s.model) && TruthyName(s.name) ==>
      && Truthy(Get(r.model, s.name.value, Null))
      && (r.model == s.model || r.model == Arr(map[s.name.value := s.model]))
    ensures Truthy(s.model) && TruthyName(s.name) && !Truthy(Get(s.model, s.name.value, Null)) ==>
      r.model == Arr(map[s.name.value := s.model])
    ensures Truthy(s.model) && TruthyName(s.name) && Truthy(Get(s.model, s.name.value, Null)) ==> r == s
  {
    if !Truthy(s.model) || !TruthyName(s.name) then s
    else if Truthy(Get(s.model, s.name.value, Null)) then s
    else s.(model := Arr(map[s.name.value := s.model]))
  }

  /** `setModel` */
  function SetModel(s: State, v: Value): State {
    SetupNamedModel(s.(model := v))
  }

  /** `getFormOption($option, $default)` */
  function GetFormOption(s: State, option: string, default: Value): Value {
    Lookup(s.formOptions, option, default)
  }

  /** `setFormOption` */
  function SetFormOption(s: State, option: string, v: Value): State {
    s.(formOptions := s.formOptions[option := v])
  }

  /** The pulling half of `pullFromOptions`: remove a non-null option and hand its value on. */
  function Pull(s: State, option: string): (r: (State, Option<Value>))
    ensures r.1.Some? <==> option in s.formOptions && s.formOptions[option] != Null
    ensures r.1.Some? ==> r.0 == s.(formOptions := s.formOptions - {option}) && r.1.value == s.formOptions[option]
    ensures r.1.None? ==> r.0 == s
  {
    if Lookup(s.formOptions, option, Null) != Null
    then (s.(formOptions := s.formOptions - {option}), Some(s.formOptions[option]))
    else (s, None)
  }

  /** `setData` */
  function SetData(s: State, key: string, v: Value): State {
    s.(data := s.data[key := v])
  }

  /** `addData`: `setData` for each entry, so the new entries win. */
  function AddData(s: State, m: map<string, Value>): (r: State)
    ensures r.data.Keys == s.data.Keys + m.Keys
    ensures forall k :: k in m ==> r.data[k] == m[k]
    ensures forall k :: k in s.data && k !in m ==> r.data[k] == s.data[k]
    ensures r.(data := s.data) == s
  {
    s.(data := s.data + m)
  }

  /** One `setData` of the `addData` loop extends the entries merged so far by one. */
  lemma SetDataMerges(a: map<string, Value>, done: map<string, Value>, k: string, v: Value)
    ensures (a + done)[k := v] == a + done[k := v]
  {
  }

  /** `getData`: all the data for a null name, else one entry or the default. */
  function GetData(s: State, key: Option<string>, default: Value): Value {
    match key
    case None => Arr(s.data)
    case Some(k) => Lookup(s.data, k, default)
  }

  /** Every option of `b` is an option of `a` with the same value: `b` is `a` with some options pulled out. */
  ghost predicate Narrows(a: Options, b: Options) {
    forall k :: k in b ==> k in a && b[k] == a[k]
  }

  /** `checkIfNamedForm`: a truthy `name` option becomes the form's name and leaves the options. */
  function CheckIfNamedForm(s: State): (r: State)
    ensures r.fields == s.fields && r.rebuilding == s.rebuilding && Narrows(s.formOptions, r.formOptions)
    ensures !Truthy(GetFormOption(r, "name", Null))
  {
    var v := GetFormOption(s, "name", Null);
    if Truthy(v) then s.(name := Some(ToPhpString(v)), formOptions := s.formOptions - {"name"}) else s
  }

  /** `pullFromOptions('model', 'setModel')` */
  function PullModel(s: State): (r: State)
    ensures r.fields == s.fields && r.rebuilding == s.rebuilding && Narrows(s.formOptions, r.formOptions)
    ensures GetFormOption(r, "model", Null) == Null
    ensures r.formOptions == if GetFormOption(s, "model", Null) != Null then s.formOptions - {"model"} else s.formOptions
    ensures var v := GetFormOption(s, "model", Null);
      && (v == Null ==> r == s)
      && (v != Null ==> r == SetModel(s.(formOptions := s.formOptions - {"model"}), v))
      && (v != Null ==> r.(model := s.model, formOptions := s.formOptions) == s)
      && (v != Null && !(Truthy(v) && TruthyName(s.name)) ==> r.model == v)
      && (v != Null && Truthy(v) && TruthyName(s.name) ==>
            r.model == v || r.model == Arr(map[s.name.value := v]))
  {
    var (t, v) := Pull(s, "model");
    if v.Some? then SetModel(t, v.value) else t
  }

  /** `pullFromOptions('data', 'addData')`; `addData` takes an array only. */
  function PullData(s: State): (r: Step)
    ensures r.0.fields == s.fields && r.0.rebuilding == s.rebuilding && Narrows(s.formOptions, r.0.formOptions)
    ensures GetFormOption(r.0, "data", Null) == Null
    ensures r.0.formOptions == if GetFormOption(s, "data", Null) != Null then s.formOptions - {"data"} else s.formOptions
    ensures r.1.Fail? <==> "data" in s.formOptions && s.formOptions["data"] != Null && !s.formOptions["data"].Arr?
    ensures var v := GetFormOption(s, "data", Null);
      && (v == Null ==> r == (s, Pass))
      && (v != Null ==> r.0.(data := s.data, formOptions := s.formOptions) == s)
      && (v.Arr? ==> r.0.data == s.data + v.entries)
      && (v != Null && !v.Arr? ==> r.0.data == s.data)
  {
    var (t, v) := Pull(s, "data");
    if v.None? then (t, Pass)
    else if !v.value.Arr? then (t, Fail(NotAnArray("data")))
    else (AddData(t, v.value.entries), Pass)
  }

  /** `pullFromOptions('errors_enabled', 'setErrorsEnabled')` */
  function PullErrorsEnabled(s: State): (r: State)
    ensures r.fields == s.fields && r.rebuilding == s.rebuilding && Narrows(s.formOptions, r.formOptions)
    ensures GetFormOption(r, "errors_enabled", Null) == Null
    ensures r.formOptions == if GetFormOption(s, "errors_enabled", Null) != Null then s.formOptions - {"errors_enabled"} else s.formOptions
    ensures var v := GetFormOption(s, "errors_enabled", Null);
      && (v == Null ==> r == s)
      && (v != Null ==> r.showFieldErrors == Truthy(v))
      && (v != Null ==> r.(showFieldErrors := s.showFieldErrors, formOptions := s.formOptions) == s)
  {
    var (t, v) := Pull(s, "errors_enabled");
    if v.Some? then t.(showFieldErrors := Truthy(v.value)) else t
  }

  /** `pullFromOptions('client_validation', 'setClientValidationEnabled')` */
  function PullClientValidation(s: State): (r: State)
    ensures r.fields == s.fields && r.rebuilding == s.rebuilding && Narrows(s.formOptions, r.formOptions)
    ensures GetFormOption(r, "client_validation", Null) == Null
    ensures r.formOptions == if GetFormOption(s, "client_validation", Null) != Null then s.formOptions - {"client_validation"} else s.formOptions
    ensures var v := GetFormOption(s, "client_validation", Null);
      && (v == Null ==> r == s)
      && (v != Null ==> r.clientValidation == Truthy(v))
      && (v != Null ==> r.(clientValidation := s.clientValidation, formOptions := s.formOptions) == s)
  {
    var (t, v) := Pull(s, "client_validation");
    if v.Some? then t.(clientValidation := Truthy(v.value)) else t
  }

  /**
   * `setFormOptions`: merge the options in, then pull `model`, `data`,
   * `errors_enabled` and `client_validation` out into their setters, then
   * check for a `name`. A non-array `data` fails `addData`'s `array` type
   * and stops the call there.
   */
  function SetFormOptions(h: Helper, s: State, options: Options): (r: Step)
    ensures r.0.fields == s.fields && r.0.rebuilding == s.rebuilding
  {
    var s1 := PullModel(s.(formOptions := h.mergeOptions(s.formOptions, options)));
    var (s2, out) := PullData(s1);
    if out.Fail? then (s2, out)
    else (CheckIfNamedForm(PullClientValidation(PullErrorsEnabled(s2))), Pass)
  }

  /** `exclude`: `array_merge` of two lists appends. */
  function Exclude(s: State, names: seq<string>): (r: State)
    ensures |r.exclude| == |s.exclude| + |names|
    ensures r.exclude[..|s.exclude|] == s.exclude && r.exclude[|s.exclude|..] == names
    ensures r.(exclude := s.exclude) == s
  {
    s.(exclude := s.exclude + names)
  }

  // ------------------------------------------------------ rules and validation

  /** `getRules`: the field-derived rules with the override merged on top, so an override wins. */
  function GetRules(h: Helper, s: State, overrideRules: map<string, Value>): (r: map<string, Value>)
    requires Valid(s.fields)
    ensures r.Keys == h.fieldRules(Values(s.fields)).Keys + overrideRules.Keys
    ensures forall k :: k in overrideRules ==> r[k] == overrideRules[k]
    ensures forall k :: k in h.fieldRules(Values(s.fields)) && k !in overrideRules ==>
              r[k] == h.fieldRules(Values(s.fields))[k]
  {
    h.fieldRules(Values(s.fields)) + overrideRules
  }

  /** `validate`: cache the validator's verdict. */
  function Validate(s: State, fails: bool): State {
    s.(validator := Some(fails))
  }

  /** `isValid`: validate with the defaults when not yet validated, then report the cached verdict. */
  function IsValid(s: State, fails: bool): (r: (State, bool))
    ensures r.0.validator.Some?
    ensures r.1 == !r.0.validator.value
    ensures s.validator.Some? ==> r.0 == s
    ensures s.validator.None? ==> r.0 == Validate(s, fails)
  {
    var t := if s.validator.None? then Validate(s, fails) else s;
    (t, !t.validator.value)
  }

  /** `getErrors`: throws until the form has been validated; the messages themselves are not modelled. */
  function GetErrors(s: State): (r: Outcome<FormError>)
    ensures r.Fail? <==> s.validator.None?
    ensures r.Fail? ==> r.error == NotValidated
  {
    if s.validator.None? then Fail(NotValidated) else Pass
  }

  // ------------------------------------------------------------- rendering

  /** `getUnrenderedFields`: the fields not yet rendered, in registry order. */
  function Unrendered(fs: seq<Field>): seq<Field>
    decreases |fs|
  {
    if fs == [] then []
    else Unrendered(fs[..|fs| - 1]) + (if fs[|fs| - 1].rendered then [] else [fs[|fs| - 1]])
  }

  /** The selection of `renderUntil`: the fields up to and including the first named `name`, or all of them. */
  function PrefixThrough(fs: seq<Field>, name: string): seq<Field>
    decreases |fs|
  {
    if fs == [] then []
    else if RealName(fs[0]) == name then [fs[0]]
    else [fs[0]] + PrefixThrough(fs[1..], name)
  }

  /** The state change of `render`: it sets up the named model. */
  function Render(s: State): State {
    SetupNamedModel(s)
  }

  // ================================================================ lemmas

  // ---- naming

  /** Namespacing never makes two raw names collide. */
  lemma FieldNameInjective(formName: Option<string>, a: string, b: string)
    requires FieldName(formName, a) == FieldName(formName, b)
    ensures a == b
  {
    if formName.Some? {
      var p := formName.value;
      var x, y := p + "[" + a + "]", p + "[" + b + "]";
      assert |a| == |b|;
      assert a == x[|p| + 1..|x| - 1];
      assert b == y[|p| + 1..|y| - 1];
    }
  }

  /** A named form's field name holds the form name and then the raw name in brackets. */
  lemma FieldNameNamed(p: string, n: string)
    ensures var r := FieldName(Some(p), n);
      |r| == |p| + |n| + 2 && r[..|p|] == p && r[|p|] == '[' && r[|p| + 1..|r| - 1] == n && r[|r| - 1] == ']'
  {
  }

  /** The field of an unnamed form keeps its raw name. */
  lemma FieldNameUnnamed(n: string)
    ensures FieldName(None, n) == n
  {
  }

  /**
   * The registry key `add` files a field under is its raw name when the form
   * name is truthy (`real_name` is set) or null (no namespacing), unless the
   * caller passed a `real_name` option of their own.
   */
  lemma AddedKeyIsName(h: Helper, s: State, n: string, fieldType: string, options: Options)
    requires TruthyName(s.name) || (s.name.None? && !("real_name" in options && options["real_name"].Str?))
    ensures AddedKey(h, s, n, fieldType, options) == n
  {
  }

  /**
   * A form named "" (or "0") namespaces the field name, since `getFieldName`
   * tests for null, but sets no `real_name`, since `setupFieldOptions` tests
   * truthiness: the field is filed under `[n]`.
   */
  lemma AddedKeyEmptyFormName(h: Helper, s: State, n: string, fieldType: string, options: Options)
    requires s.name == Some("") && "real_name" !in options
    ensures AddedKey(h, s, n, fieldType, options) == "[" + n + "]"
  {
  }

  // ---- add, addField, modifying

  /** A blank name is refused before anything else happens. */
  lemma AddRejectsBlankName(h: Helper, s: State, n: string, fieldType: string, options: Options, modifying: bool)
    requires Keyed(s.fields) && IsBlankName(n)
    ensures Add(h, s, n, fieldType, options, modifying) == (s, Fail(InvalidFieldName(n)))
  {
  }

  /** "0" is a blank name too, since PHP reads it as false. */
  lemma ZeroIsBlankName()
    ensures IsBlankName("0") && IsBlankName("") && IsBlankName(" \t") && !IsBlankName("email")
  {
    assert !TrimsToEmpty("email") by { assert !Trimmed("email"[0]); }
  }

  /**
   * Outside modify and rebuild mode a second field under a registered name
   * is refused; the registry is unchanged, though a 'file' type has already
   * set the `files` option.
   */
  lemma AddRejectsDuplicate(h: Helper, s: State, n: string, fieldType: string, options: Options)
    requires Keyed(s.fields) && ReachesAddField(h, s, n, fieldType) && !s.rebuilding
    requires AddedKey(h, s, n, fieldType, options) in s.fields.vals
    ensures Add(h, s, n, fieldType, options, false) ==
              (WithFileFlag(s, fieldType), Fail(DuplicateField(AddedKey(h, s, n, fieldType, options))))
  {
  }

  /** A type the helper does not know is refused and nothing changes. */
  lemma AddRejectsUnknownType(h: Helper, s: State, n: string, fieldType: string, options: Options, modifying: bool)
    requires Keyed(s.fields) && !IsBlankName(n) && !(s.rebuilding && n !in s.fields.vals)
    requires !h.isFieldType(fieldType)
    ensures Add(h, s, n, fieldType, options, modifying) == (s, Fail(UnknownFieldType(fieldType)))
  {
  }

  /** A field under a fresh name is appended; every existing key keeps its place and entry. */
  lemma AddAppendsFresh(h: Helper, s: State, n: string, fieldType: string, options: Options, modifying: bool)
    requires Keyed(s.fields) && ReachesAddField(h, s, n, fieldType)
    requires AddedKey(h, s, n, fieldType, options) !in s.fields.vals
    ensures var r := Add(h, s, n, fieldType, options, modifying);
      var f := NewField(h, s.name, n, fieldType, options);
      && r.1 == Pass
      && r.0.fields.keys == s.fields.keys + [RealName(f)]
      && r.0.fields.vals == s.fields.vals[RealName(f) := f]
      && r.0 == WithFileFlag(s, fieldType).(fields := r.0.fields)
  {
  }

  /** With `modify`, a field under a registered name replaces that entry in its slot; nothing else changes. */
  lemma AddModifyReplacesInPlace(h: Helper, s: State, n: string, fieldType: string, options: Options)
    requires Keyed(s.fields) && ReachesAddField(h, s, n, fieldType)
    requires AddedKey(h, s, n, fieldType, options) in s.fields.vals
    ensures var r := Add(h, s, n, fieldType, options, true);
      var f := NewField(h, s.name, n, fieldType, options);
      && r.1 == Pass
      && r.0.fields.keys == s.fields.keys
      && r.0.fields.vals == s.fields.vals[RealName(f) := f]
      && r.0 == WithFileFlag(s, fieldType).(fields := r.0.fields)
  {
  }

  /** `modify` of a registered field merges the old options with the new and replaces the field in its slot. */
  lemma ModifyReplacesInPlace(h: Helper, s: State, n: string, fieldType: string, options: Options)
    requires Keyed(s.fields) && n in s.fields.vals && !IsBlankName(n) && h.isFieldType(fieldType)
    requires var opts := h.mergeOptions(s.fields.vals[n].options, options);
      AddedKey(h, s, n, fieldType, opts) == n
    ensures var r := Modify(h, s, n, fieldType, options, false);
      var f := NewField(h, s.name, n, fieldType, h.mergeOptions(s.fields.vals[n].options, options));
      && r.1 == Pass
      && r.0.fields.keys == s.fields.keys
      && r.0.fields.vals == s.fields.vals[n := f]
  {
    AddModifyReplacesInPlace(h, s, n, fieldType, h.mergeOptions(s.fields.vals[n].options, options));
  }

  /** A 'file' field sets the `files` option whenever `add` gets as far as making the field, even if it is then refused. */
  lemma AddFileSetsFilesOption(h: Helper, s: State, n: string, options: Options, modifying: bool)
    requires Keyed(s.fields) && ReachesAddField(h, s, n, "file")
    ensures GetFormOption(Add(h, s, n, "file", options, modifying).0, "files", Null) == Bool(true)
  {
  }

  // ---- addBefore, addAfter

  /** The first position of a key in a duplicate-free order is where it is. */
  lemma IndexOfDistinct(s: seq<string>, i: nat)
    requires Distinct(s) && i < |s|
    ensures IndexOf(s, s[i]) == Some(i)
  {
    var j := IndexOf(s, s[i]).value;
    assert s[j] == s[i];
  }

  /** The splice at `offset` when `add` reaches `addField` without being refused: the general shape. */
  lemma SplicedShape(h: Helper, s: State, offset: nat, n: string, fieldType: string, options: Options, modifying: bool)
    requires Keyed(s.fields) && !s.rebuilding && !IsBlankName(n) && h.isFieldType(fieldType)
    requires var i := Min(offset, |s.fields.keys|);
      modifying || AddedKey(h, s, n, fieldType, options) !in s.fields.keys[..i]
    ensures var i := Min(offset, |s.fields.keys|);
      var K := s.fields.keys;
      var f := NewField(h, s.name, n, fieldType, options);
      var k := RealName(f);
      var r := Spliced(h, s, offset, n, fieldType, options, modifying);
      && r.1 == Pass
      && r.0 == WithFileFlag(s, fieldType).(fields := r.0.fields)
      && r.0.fields.vals == s.fields.vals[k := f]
      && r.0.fields.keys == if k in K[..i] then K else K[..i] + [k] + FilterOut(K[i..], {k})
  {
    var i := Min(offset, |s.fields.keys|);
    var f := NewField(h, s.name, n, fieldType, options);
    var pre := Take(s.fields, offset);
    assert RealName(f) in pre.vals <==> RealName(f) in s.fields.keys[..i];
    AddStores(h, s.(fields := pre), n, fieldType, options, modifying);
    Splice(s.fields, offset, RealName(f), f);
  }

  /** An `add` that reaches `addField` and is not refused stores the new field with `$fields[realName] = $field`. */
  lemma AddStores(h: Helper, s: State, n: string, fieldType: string, options: Options, modifying: bool)
    requires Keyed(s.fields) && ReachesAddField(h, s, n, fieldType)
    requires modifying || s.rebuilding || AddedKey(h, s, n, fieldType, options) !in s.fields.vals
    ensures var f := NewField(h, s.name, n, fieldType, options);
      Add(h, s, n, fieldType, options, modifying) == (WithFileFlag(s, fieldType).(fields := Put(s.fields, RealName(f), f)), Pass)
  {
  }

  /** A splice of a new name inserts it at the offset. */
  lemma SplicedFresh(h: Helper, s: State, offset: nat, n: string, fieldType: string, options: Options, modifying: bool)
    requires Keyed(s.fields) && !s.rebuilding && !IsBlankName(n) && h.isFieldType(fieldType)
    requires offset <= |s.fields.keys|
    requires AddedKey(h, s, n, fieldType, options) !in s.fields.vals
    ensures var K := s.fields.keys;
      var f := NewField(h, s.name, n, fieldType, options);
      var r := Spliced(h, s, offset, n, fieldType, options, modifying);
      && r.1 == Pass
      && r.0.fields.keys == K[..offset] + [RealName(f)] + K[offset..]
      && r.0.fields.vals == s.fields.vals[RealName(f) := f]
      && r.0 == WithFileFlag(s, fieldType).(fields := r.0.fields)
  {
    var k := AddedKey(h, s, n, fieldType, options);
    assert k !in s.fields.keys[..offset];
    SplicedShape(h, s, offset, n, fieldType, options, modifying);
    FilterOutNone(s.fields.keys[offset..], {k});
  }

  /** A splice of a name registered at or after the offset moves that entry to the offset. */
  lemma SplicedMoves(h: Helper, s: State, offset: nat, n: string, fieldType: string, options: Options, modifying: bool, j: nat)
    requires Keyed(s.fields) && !s.rebuilding && !IsBlankName(n) && h.isFieldType(fieldType)
    requires offset <= j < |s.fields.keys|
    requires s.fields.keys[j] == AddedKey(h, s, n, fieldType, options)
    ensures var K := s.fields.keys;
      var r := Spliced(h, s, offset, n, fieldType, options, modifying);
      r.1 == Pass && r.0.fields.keys == K[..offset] + [K[j]] + K[offset..j] + K[j + 1..]
  {
    MovedKeys(s.fields.keys, offset, j);
    SplicedShape(h, s, offset, n, fieldType, options, modifying);
  }

  /** Moving the entry at `j` to `offset`, on the key sequence alone. */
  lemma MovedKeys(K: seq<string>, offset: nat, j: nat)
    requires Distinct(K) && offset <= j < |K|
    ensures K[j] !in K[..offset]
    ensures K[..offset] + [K[j]] + FilterOut(K[offset..], {K[j]}) == K[..offset] + [K[j]] + K[offset..j] + K[j + 1..]
  {
    SplitDisjoint(K, offset);
    assert K[j] == K[offset..][j - offset];
    assert Distinct(K[offset..]) by {
      forall a, b | 0 <= a < b < |K[offset..]| ensures K[offset..][a] != K[offset..][b] {
        assert K[offset..][a] == K[offset + a] && K[offset..][b] == K[offset + b];
      }
    }
    FilterOutAt(K[offset..], j - offset);
    assert K[offset..][..j - offset] == K[offset..j];
    assert K[offset..][j - offset + 1..] == K[j + 1..];
  }

  /** A splice of a name registered before the offset, without `modify`, throws and leaves only the prefix. */
  lemma SplicedDuplicate(h: Helper, s: State, offset: nat, n: string, fieldType: string, options: Options, j: nat)
    requires Keyed(s.fields) && !s.rebuilding && !IsBlankName(n) && h.isFieldType(fieldType)
    requires j < offset <= |s.fields.keys|
    requires s.fields.keys[j] == AddedKey(h, s, n, fieldType, options)
    ensures var r := Spliced(h, s, offset, n, fieldType, options, false);
      r.1 == Fail(DuplicateField(s.fields.keys[j])) && r.0.fields.keys == s.fields.keys[..offset]
  {
    assert s.fields.keys[..offset][j] == s.fields.keys[j];
    assert s.fields.keys[j] in Take(s.fields, offset).vals;
  }

  /** `addBefore(anchor, x)` with the anchor present and `x` new puts `x` right before the anchor. */
  lemma AddBeforeInserts(h: Helper, s: State, anchor: string, n: string, fieldType: string, options: Options, modifying: bool)
    requires Keyed(s.fields) && !s.rebuilding && !IsBlankName(n) && h.isFieldType(fieldType)
    requires anchor in s.fields.vals
    requires AddedKey(h, s, n, fieldType, options) !in s.fields.vals
    ensures var i := IndexOf(s.fields.keys, anchor).value;
      var K := s.fields.keys;
      var f := NewField(h, s.name, n, fieldType, options);
      var r := AddBefore(h, s, anchor, n, fieldType, options, modifying);
      && r.1 == Pass
      && r.0.fields.keys == K[..i] + [RealName(f)] + K[i..]
      && r.0.fields.vals == s.fields.vals[RealName(f) := f]
      && r.0 == WithFileFlag(s, fieldType).(fields := r.0.fields)
  {
    var i := IndexOf(s.fields.keys, anchor).value;
    assert AddBefore(h, s, anchor, n, fieldType, options, modifying) == Spliced(h, s, i, n, fieldType, options, modifying);
    SplicedFresh(h, s, i, n, fieldType, options, modifying);
  }

  /** `addAfter(anchor, x)` with the anchor present and `x` new puts `x` right after the anchor. */
  lemma AddAfterInserts(h: Helper, s: State, anchor: string, n: string, fieldType: string, options: Options, modifying: bool)
    requires Keyed(s.fields) && !s.rebuilding && !IsBlankName(n) && h.isFieldType(fieldType)
    requires anchor in s.fields.vals
    requires AddedKey(h, s, n, fieldType, options) !in s.fields.vals
    ensures var i := IndexOf(s.fields.keys, anchor).value;
      var K := s.fields.keys;
      var f := NewField(h, s.name, n, fieldType, options);
      var r := AddAfter(h, s, anchor, n, fieldType, options, modifying);
      && r.1 == Pass
      && r.0.fields.keys == K[..i + 1] + [RealName(f)] + K[i + 1..]
      && r.0.fields.vals == s.fields.vals[RealName(f) := f]
      && r.0 == WithFileFlag(s, fieldType).(fields := r.0.fields)
  {
    var i := IndexOf(s.fields.keys, anchor).value;
    assert AddAfter(h, s, anchor, n, fieldType, options, modifying) == Spliced(h, s, i + 1, n, fieldType, options, modifying);
    SplicedFresh(h, s, i + 1, n, fieldType, options, modifying);
  }

  /** `addBefore` an entry and `addAfter` the entry before it do the same thing. */
  lemma AddBeforeIsAddAfterPrevious(h: Helper, s: State, i: nat, n: string, fieldType: string, options: Options, modifying: bool)
    requires Keyed(s.fields) && 0 < i < |s.fields.keys|
    ensures AddBefore(h, s, s.fields.keys[i], n, fieldType, options, modifying) ==
            AddAfter(h, s, s.fields.keys[i - 1], n, fieldType, options, modifying)
  {
    AnchorOffsets(s.fields.keys, i);
    AnchorOffsets(s.fields.keys, i - 1);
  }

  /** The split points of an anchor at position `i` of a duplicate-free order. */
  lemma AnchorOffsets(keys: seq<string>, i: nat)
    requires Distinct(keys) && i < |keys|
    ensures BeforeOffset(keys, keys[i]) == i && AfterOffset(keys, keys[i]) == i + 1
  {
    IndexOfDistinct(keys, i);
  }

  /** With the anchor missing, `addBefore` puts a new field first. */
  lemma AddBeforeMissingAnchor(h: Helper, s: State, anchor: string, n: string, fieldType: string, options: Options, modifying: bool)
    requires Keyed(s.fields) && !s.rebuilding && !IsBlankName(n) && h.isFieldType(fieldType)
    requires anchor !in s.fields.vals
    requires AddedKey(h, s, n, fieldType, options) !in s.fields.vals
    ensures var r := AddBefore(h, s, anchor, n, fieldType, options, modifying);
      r.1 == Pass && r.0.fields.keys == [AddedKey(h, s, n, fieldType, options)] + s.fields.keys
  {
    MissingAnchorOffsets(s.fields, anchor);
    SplicedFresh(h, s, 0, n, fieldType, options, modifying);
  }

  /** With the anchor missing, `addAfter` puts a new field second (after the first entry). */
  lemma AddAfterMissingAnchor(h: Helper, s: State, anchor: string, n: string, fieldType: string, options: Options, modifying: bool)
    requires Keyed(s.fields) && !s.rebuilding && !IsBlankName(n) && h.isFieldType(fieldType)
    requires anchor !in s.fields.vals && |s.fields.keys| > 0
    requires AddedKey(h, s, n, fieldType, options) !in s.fields.vals
    ensures var K := s.fields.keys;
      var r := AddAfter(h, s, anchor, n, fieldType, options, modifying);
      r.1 == Pass && r.0.fields.keys == [K[0], AddedKey(h, s, n, fieldType, options)] + K[1..]
  {
    MissingAnchorOffsets(s.fields, anchor);
    SplicedFresh(h, s, 1, n, fieldType, options, modifying);
  }

  /** A missing anchor splits the registry at 0 for `addBefore` and at 1 for `addAfter`. */
  lemma MissingAnchorOffsets(m: OMap<Field>, anchor: string)
    requires Keyed(m) && anchor !in m.vals
    ensures BeforeOffset(m.keys, anchor) == 0 && AfterOffset(m.keys, anchor) == 1
    ensures forall k :: m.keys[..0] + [k] + m.keys[0..] == [k] + m.keys
    ensures |m.keys| > 0 ==> forall k :: m.keys[..1] + [k] + m.keys[1..] == [m.keys[0], k] + m.keys[1..]
  {
    assert anchor !in m.keys;
  }

  /**
   * `addBefore` of a name registered at or after the anchor is not refused,
   * since the duplicate check sees only the prefix: the union then drops the
   * old slot, so the field moves to just before the anchor.
   */
  lemma AddBeforeMovesLaterField(h: Helper, s: State, anchor: string, n: string, fieldType: string, options: Options, modifying: bool, j: nat)
    requires Keyed(s.fields) && !s.rebuilding && !IsBlankName(n) && h.isFieldType(fieldType)
    requires anchor in s.fields.vals
    requires IndexOf(s.fields.keys, anchor).value <= j < |s.fields.keys|
    requires s.fields.keys[j] == AddedKey(h, s, n, fieldType, options)
    ensures var i := IndexOf(s.fields.keys, anchor).value;
      var K := s.fields.keys;
      var r := AddBefore(h, s, anchor, n, fieldType, options, modifying);
      r.1 == Pass && r.0.fields.keys == K[..i] + [K[j]] + K[i..j] + K[j + 1..]
  {
    var i := IndexOf(s.fields.keys, anchor).value;
    assert AddBefore(h, s, anchor, n, fieldType, options, modifying) == Spliced(h, s, i, n, fieldType, options, modifying);
    SplicedMoves(h, s, i, n, fieldType, options, modifying, j);
  }

  /**
   * `addBefore` of a name registered before the anchor, without `modify`, is
   * refused after the registry was cut: the anchor and everything after it are
   * lost.
   */
  lemma AddBeforeDuplicateLosesSuffix(h: Helper, s: State, anchor: string, n: string, fieldType: string, options: Options, j: nat)
    requires Keyed(s.fields) && !s.rebuilding && !IsBlankName(n) && h.isFieldType(fieldType)
    requires anchor in s.fields.vals
    requires j < IndexOf(s.fields.keys, anchor).value
    requires s.fields.keys[j] == AddedKey(h, s, n, fieldType, options)
    ensures var i := IndexOf(s.fields.keys, anchor).value;
      var r := AddBefore(h, s, anchor, n, fieldType, options, false);
      r.1 == Fail(DuplicateField(s.fields.keys[j])) && r.0.fields.keys == s.fields.keys[..i]
  {
    var i := IndexOf(s.fields.keys, anchor).value;
    assert AddBefore(h, s, anchor, n, fieldType, options, false) == Spliced(h, s, i, n, fieldType, options, false);
    SplicedDuplicate(h, s, i, n, fieldType, options, j);
  }

  /** Whatever makes the inner `add` of `addBefore` throw, the registry is left cut before the anchor. */
  lemma AddBeforeFailureTruncates(h: Helper, s: State, anchor: string, n: string, fieldType: string, options: Options, modifying: bool)
    requires Keyed(s.fields) && anchor in s.fields.vals
    requires AddBefore(h, s, anchor, n, fieldType, options, modifying).1.Fail?
    ensures AddBefore(h, s, anchor, n, fieldType, options, modifying).0.fields.keys ==
            s.fields.keys[..IndexOf(s.fields.keys, anchor).value]
  {
  }

  // ---- remove, getField

  /** `remove` of a registered name deletes it and closes the gap; the other keys keep their order. */
  lemma RemoveDeletes(s: State, j: nat)
    requires Keyed(s.fields) && j < |s.fields.keys|
    ensures var K := s.fields.keys;
      var r := Remove(s, K[j]);
      && r.1 == Pass
      && !Has(r.0, K[j])
      && r.0.fields.keys == K[..j] + K[j + 1..]
      && r.0.fields.vals == s.fields.vals - {K[j]}
      && r.0 == s.(fields := r.0.fields)
  {
    FilterOutAt(s.fields.keys, j);
  }

  /** `remove` and `getField` of an unregistered name throw and change nothing. */
  lemma RemoveAbsentFails(s: State, n: string)
    requires Keyed(s.fields) && !Has(s, n)
    ensures Remove(s, n) == (s, Fail(UnknownField(n)))
    ensures GetField(s, n) == Failure(UnknownField(n))
  {
  }

  // ---- compose

  /** The real names of a list of fields, in order. */
  function RealNames(fs: seq<Field>): (r: seq<string>)
    ensures |r| == |fs|
    ensures forall i :: 0 <= i < |fs| ==> r[i] == RealName(fs[i])
    decreases |fs|
  {
    if fs == [] then [] else [RealName(fs[0])] + RealNames(fs[1..])
  }

  /** No name of the list is registered yet. */
  predicate Unregistered(s: State, names: seq<string>) {
    forall k :: k in names ==> k !in s.fields.vals
  }

  lemma DistinctTail(x: string, t: seq<string>)
    requires Distinct([x] + t)
    ensures Distinct(t) && x !in t
  {
    forall a, b | 0 <= a < b < |t| ensures t[a] != t[b] {
      assert ([x] + t)[a + 1] == t[a] && ([x] + t)[b + 1] == t[b];
    }
    assert x !in t by {
      forall i | 0 <= i < |t| ensures t[i] != x {
        assert ([x] + t)[i + 1] == t[i] && ([x] + t)[0] == x;
      }
    }
  }

  /** Distinct new names stay distinct and new once the first of them is added. */
  lemma FreshTail(s: State, fs: seq<Field>, t: State)
    requires fs != [] && Distinct(RealNames(fs)) && Unregistered(s, RealNames(fs))
    requires t.fields.vals.Keys == s.fields.vals.Keys + {RealName(fs[0])}
    ensures Distinct(RealNames(fs[1..])) && Unregistered(t, RealNames(fs[1..]))
    ensures RealName(fs[0]) !in RealNames(fs[1..])
  {
    DistinctTail(RealName(fs[0]), RealNames(fs[1..]));
  }

  /** One step of composition with a new name: returns the state after the first field. */
  lemma AddFieldFresh(s: State, fs: seq<Field>, modifying: bool) returns (t: State)
    requires Keyed(s.fields) && fs != [] && RealName(fs[0]) !in s.fields.vals
    ensures Keyed(t.fields) && t == s.(fields := t.fields)
    ensures t.fields.keys == s.fields.keys + [RealName(fs[0])]
    ensures t.fields.vals == s.fields.vals[RealName(fs[0]) := fs[0]]
    ensures AddFields(s, fs, modifying) == AddFields(t, fs[1..], modifying)
  {
    t := s.(fields := Put(s.fields, RealName(fs[0]), fs[0]));
    assert AddField(s, fs[0], modifying) == (t, Pass);
  }

  /** Composing fields whose names are new and distinct appends their names in order and throws nothing. */
  lemma {:induction false} ComposeAppends(s: State, fs: seq<Field>, modifying: bool)
    requires Keyed(s.fields) && Distinct(RealNames(fs)) && Unregistered(s, RealNames(fs))
    ensures var r := AddFields(s, fs, modifying);
      r.1 == Pass && r.0.fields.keys == s.fields.keys + RealNames(fs) && r.0 == s.(fields := r.0.fields)
    decreases |fs|
  {
    if fs != [] {
      var t := AddFieldFresh(s, fs, modifying);
      FreshTail(s, fs, t);
      ComposeAppends(t, fs[1..], modifying);
      AppendOne(s.fields.keys, RealName(fs[0]), RealNames(fs[1..]));
    }
  }

  /** Moving one element across a concatenation. */
  lemma AppendOne(a: seq<string>, x: string, b: seq<string>)
    ensures a + ([x] + b) == (a + [x]) + b
  {
  }

  /** Composing fields whose names are new and distinct stores each of them under its real name. */
  lemma {:induction false} ComposeStores(s: State, fs: seq<Field>, modifying: bool)
    requires Keyed(s.fields) && Distinct(RealNames(fs)) && Unregistered(s, RealNames(fs))
    ensures var r := AddFields(s, fs, modifying);
      forall f :: f in fs ==> RealName(f) in r.0.fields.vals && r.0.fields.vals[RealName(f)] == f
    decreases |fs|
  {
    if fs != [] {
      var t := AddFieldFresh(s, fs, modifying);
      FreshTail(s, fs, t);
      ComposeStores(t, fs[1..], modifying);
      ComposeKeepsEarlier(t, fs[1..], modifying, RealName(fs[0]));
      forall f | f in fs
        ensures RealName(f) in AddFields(s, fs, modifying).0.fields.vals
        ensures AddFields(s, fs, modifying).0.fields.vals[RealName(f)] == f
      {
        if f != fs[0] {
          assert f in fs[1..];
        }
      }
    }
  }

  /** An entry the composed fields do not name is left alone. */
  lemma {:induction false} ComposeKeepsEarlier(s: State, fs: seq<Field>, modifying: bool, k: string)
    requires Keyed(s.fields) && k in s.fields.vals && k !in RealNames(fs)
    ensures k in AddFields(s, fs, modifying).0.fields.vals
    ensures AddFields(s, fs, modifying).0.fields.vals[k] == s.fields.vals[k]
    decreases |fs|
  {
    if fs != [] {
      var (t, out) := AddField(s, fs[0], modifying);
      if out.Pass? {
        ComposeKeepsEarlier(t, fs[1..], modifying, k);
      }
    }
  }

  /**
   * Composition is not all-or-nothing: when field `j` names a registered
   * field, the fields before it, new and distinct, are appended and stay;
   * `j` throws the duplicate error and nothing after it is added.
   */
  lemma ComposeStopsAtDuplicate(s: State, fs: seq<Field>, j: nat)
    requires Keyed(s.fields) && !s.rebuilding && j < |fs|
    requires Distinct(RealNames(fs[..j])) && Unregistered(s, RealNames(fs[..j]))
    requires RealName(fs[j]) in s.fields.vals
    ensures var r := Compose(s, Some(fs), false);
      r.1 == Fail(DuplicateField(RealName(fs[j]))) && r.0.fields.keys == s.fields.keys + RealNames(fs[..j])
  {
    ComposeAppends(s, fs[..j], false);
    var t := AddFields(s, fs[..j], false).0;
    assert fs == fs[..j] + fs[j..];
    AddFieldsSplit(s, fs[..j], fs[j..], false);
    assert RealName(fs[j]) in t.fields.keys;
    AddFieldsFirst(t, fs[j..], false);
  }

  /** The `compose` loop over `a + b` is the loop over `a`, then, if that did not throw, the loop over `b`. */
  lemma {:induction false} AddFieldsSplit(s: State, a: seq<Field>, b: seq<Field>, modifying: bool)
    requires Keyed(s.fields) && AddFields(s, a, modifying).1.Pass?
    ensures AddFields(s, a + b, modifying) == AddFields(AddFields(s, a, modifying).0, b, modifying)
    decreases |a|
  {
    if a == [] {
      assert a + b == b;
    } else {
      assert (a + b)[0] == a[0] && (a + b)[1..] == a[1..] + b;
      AddFieldsFirst(s, a + b, modifying);
      AddFieldsFirst(s, a, modifying);
      var (t, out) := AddField(s, a[0], modifying);
      AddFieldsSplit(t, a[1..], b, modifying);
    }
  }

  /** Any source other than a form or a child form type is refused. */
  lemma ComposeRejectsOtherSources(s: State, modifying: bool)
    requires Keyed(s.fields)
    ensures Compose(s, None, modifying) == (s, Fail(InvalidComposeSource))
  {
  }

  // ---- rebuild

  /** While rebuilding, `add` of a name the registry lacks does nothing. */
  lemma RebuildingSkipsAbsent(h: Helper, s: State, n: string, fieldType: string, options: Options, modifying: bool)
    requires Keyed(s.fields) && s.rebuilding && !IsBlankName(n) && !Has(s, n)
    ensures Add(h, s, n, fieldType, options, modifying) == (s, Pass)
  {
  }

  /** Every call either names an unregistered field or files its field under the name it was given. */
  ghost predicate KeepsKeys(h: Helper, s: State, calls: seq<AddCall>) {
    forall c :: c in calls && c.name in s.fields.vals ==>
      AddedKey(h, s, c.name, c.fieldType, c.options) == c.name
  }

  /**
   * Rebuild containment: a replay in rebuild mode of calls that keep their
   * keys leaves the key sequence as it was, whether or not a call throws; and
   * when every name is non-blank and every type known, no call throws.
   */
  lemma {:induction false} ReplayKeepsKeys(h: Helper, s: State, calls: seq<AddCall>)
    requires Keyed(s.fields) && s.rebuilding
    requires KeepsKeys(h, s, calls)
    ensures Replay(h, s, calls).0.fields.keys == s.fields.keys
    ensures Replay(h, s, calls).0.fields.vals.Keys == s.fields.vals.Keys
    ensures (forall c :: c in calls ==> !IsBlankName(c.name) && h.isFieldType(c.fieldType)) ==>
              Replay(h, s, calls).1 == Pass
    decreases |calls|
  {
    if calls != [] {
      var c := calls[0];
      var (t, out) := Add(h, s, c.name, c.fieldType, c.options, c.modifying);
      assert calls[0] in calls;
      ReAddKeepsKeys(h, s, c);
      if out.Pass? {
        assert KeepsKeys(h, t, calls[1..]) by {
          forall c' | c' in calls[1..] && c'.name in t.fields.vals
            ensures AddedKey(h, t, c'.name, c'.fieldType, c'.options) == c'.name
          {
            assert c' in calls;
          }
        }
        ReplayKeepsKeys(h, t, calls[1..]);
      }
    }
  }

  /** One re-`add` in rebuild mode that files under its own name, or names nothing registered, keeps the keys. */
  lemma ReAddKeepsKeys(h: Helper, s: State, c: AddCall)
    requires Keyed(s.fields) && s.rebuilding
    requires c.name in s.fields.vals ==> AddedKey(h, s, c.name, c.fieldType, c.options) == c.name
    ensures var t := Add(h, s, c.name, c.fieldType, c.options, c.modifying).0;
      t.fields.keys == s.fields.keys && t.fields.vals.Keys == s.fields.vals.Keys
  {
  }

  /**
   * The plain form's replay keeps its keys when the form name is null or
   * truthy: each entry is re-added under its own key.
   */
  lemma PlainCallsKeepKeys(h: Helper, s: State)
    requires Keyed(s.fields) && (s.name.None? || TruthyName(s.name))
    ensures KeepsKeys(h, s.(rebuilding := true), PlainCalls(s.fields))
  {
    var calls := PlainCalls(s.fields);
    forall c | c in calls && c.name in s.fields.vals
      ensures AddedKey(h, s.(rebuilding := true), c.name, c.fieldType, c.options) == c.name
    {
      var i :| 0 <= i < |calls| && calls[i] == c;
      var f := s.fields.vals[s.fields.keys[i]];
      assert RealName(f) == c.name;
    }
  }

  /**
   * `rebuildForm` on a plain form whose name is null or truthy, with every
   * key non-blank and every type known: it succeeds with the same key
   * sequence and with `rebuilding` cleared.
   */
  lemma RebuildPlainKeepsKeys(h: Helper, s: State)
    requires Keyed(s.fields) && (s.name.None? || TruthyName(s.name))
    requires forall k :: k in s.fields.vals ==> !IsBlankName(k) && h.isFieldType(s.fields.vals[k].fieldType)
    ensures var r := Rebuild(h, Plain, s);
      r.1 == Pass && r.0.fields.keys == s.fields.keys && !r.0.rebuilding && r.0.name == s.name
  {
    var s1 := s.(rebuilding := true);
    var calls := PlainCalls(s.fields);
    PlainCallsKeepKeys(h, s);
    forall c | c in calls ensures !IsBlankName(c.name) && h.isFieldType(c.fieldType) {
      var i :| 0 <= i < |calls| && calls[i] == c;
    }
    ReplayKeepsKeys(h, s1, calls);
  }

  /** One re-`add` of a registered name in a truthy-named form, in rebuild mode: the entry is rebuilt in its slot. */
  lemma ReAddRenames(h: Helper, s: State, c: AddCall)
    requires Keyed(s.fields) && s.rebuilding && TruthyName(s.name)
    requires c.name in s.fields.vals && !IsBlankName(c.name) && h.isFieldType(c.fieldType)
    ensures var (t, out) := Add(h, s, c.name, c.fieldType, c.options, c.modifying);
      && out == Pass
      && t.fields.keys == s.fields.keys
      && t.fields.vals == s.fields.vals[c.name := NewField(h, s.name, c.name, c.fieldType, c.options)]
      && t.name == s.name && t.rebuilding
  {
    AddedKeyIsName(h, s, c.name, c.fieldType, c.options);
    AddStores(h, s, c.name, c.fieldType, c.options, c.modifying);
  }

  /**
   * A replay in rebuild mode, in a truthy-named form, of calls that name
   * registered fields: nothing throws, the keys stay, and every entry is
   * either rebuilt under the current name or untouched and named by no call.
   */
  lemma {:induction false} ReplayRenames(h: Helper, s: State, calls: seq<AddCall>)
    requires Keyed(s.fields) && s.rebuilding && TruthyName(s.name)
    requires forall c :: c in calls ==> c.name in s.fields.vals && !IsBlankName(c.name) && h.isFieldType(c.fieldType)
    ensures var (t, out) := Replay(h, s, calls);
      && out == Pass
      && t.fields.keys == s.fields.keys
      && forall k :: k in t.fields.vals ==>
           t.fields.vals[k].name == FieldName(s.name, k) ||
           (t.fields.vals[k] == s.fields.vals[k] && forall c :: c in calls ==> c.name != k)
    decreases |calls|
  {
    if calls != [] {
      var c := calls[0];
      assert c in calls;
      ReAddRenames(h, s, c);
      var (t, out) := Add(h, s, c.name, c.fieldType, c.options, c.modifying);
      forall c' | c' in calls[1..]
        ensures c'.name in t.fields.vals && !IsBlankName(c'.name) && h.isFieldType(c'.fieldType)
      {
        assert c' in calls;
      }
      ReplayRenames(h, t, calls[1..]);
      var r := Replay(h, t, calls[1..]).0;
      forall k | k in r.fields.vals
        ensures r.fields.vals[k].name == FieldName(s.name, k) ||
                (r.fields.vals[k] == s.fields.vals[k] && forall c' :: c' in calls ==> c'.name != k)
      {
        if r.fields.vals[k].name != FieldName(s.name, k) {
          assert r.fields.vals[k] == t.fields.vals[k];
          forall c' | c' in calls ensures c'.name != k {
            if c' != c {
              assert c' in calls[1..];
            }
          }
        }
      }
    }
  }

  /**
   * Renaming: `rebuildForm` on a plain form with a truthy name, every key
   * non-blank and every type known, succeeds with the same key sequence and
   * every field built anew under the current name, as `getFieldName` forms it.
   */
  lemma RebuildPlainRenames(h: Helper, s: State)
    requires Keyed(s.fields) && TruthyName(s.name)
    requires forall k :: k in s.fields.vals ==> !IsBlankName(k) && h.isFieldType(s.fields.vals[k].fieldType)
    ensures var r := Rebuild(h, Plain, s);
      && r.1 == Pass && r.0.fields.keys == s.fields.keys && !r.0.rebuilding
      && forall k :: k in r.0.fields.vals ==> r.0.fields.vals[k].name == FieldName(s.name, k)
  {
    var s1 := s.(rebuilding := true);
    var calls := PlainCalls(s.fields);
    forall c | c in calls ensures c.name in s1.fields.vals && !IsBlankName(c.name) && h.isFieldType(c.fieldType) {
      var i :| 0 <= i < |calls| && calls[i] == c;
    }
    ReplayRenames(h, s1, calls);
    var t := Replay(h, s1, calls).0;
    forall k | k in t.fields.vals ensures t.fields.vals[k].name == FieldName(s.name, k) {
      var i :| 0 <= i < |s.fields.keys| && s.fields.keys[i] == k;
      assert calls[i] in calls && calls[i].name == k;
    }
  }

  /** `setName(p)` on a plain form: every registered field is afterwards named `p[key]`, under its old key. */
  lemma SetNameRenames(h: Helper, s: State, p: string)
    requires Keyed(s.fields) && TruthyString(p)
    requires forall k :: k in s.fields.vals ==> !IsBlankName(k) && h.isFieldType(s.fields.vals[k].fieldType)
    ensures var r := SetName(h, Plain, s, Some(p));
      && r.1 == Pass && r.0.name == Some(p) && r.0.fields.keys == s.fields.keys
      && forall k :: k in r.0.fields.vals ==> r.0.fields.vals[k].name == p + "[" + k + "]"
  {
    RebuildPlainRenames(h, s.(name := Some(p)));
  }

  /**
   * Containment for a subclass: rebuilding never adds a key, whatever the
   * outcome, so long as the name is null or truthy and no call passes a
   * `real_name` option of its own.
   */
  lemma RebuildCustomAddsNothing(h: Helper, s: State, steps: seq<AddCall>)
    requires Keyed(s.fields) && (s.name.None? || TruthyName(s.name))
    requires forall c :: c in steps ==> !("real_name" in c.options && c.options["real_name"].Str?)
    ensures Rebuild(h, Custom(steps), s).0.fields.keys == s.fields.keys
  {
    var s1 := s.(rebuilding := true);
    forall c | c in steps && c.name in s1.fields.vals
      ensures AddedKey(h, s1, c.name, c.fieldType, c.options) == c.name
    {
      AddedKeyIsName(h, s1, c.name, c.fieldType, c.options);
    }
    ReplayKeepsKeys(h, s1, steps);
  }

  /**
   * A plain form renamed to "" grows on rebuild: its field `k` is re-added as
   * `[k]`, a key it did not have, next to the old entry.
   */
  lemma RebuildEmptyNameAddsKey(h: Helper, s: State, k: string, f: Field)
    requires s.name == Some("") && !s.rebuilding
    requires s.fields == OMap([k], map[k := f]) && f.name == k && "real_name" !in f.options
    requires !IsBlankName(k) && h.isFieldType(f.fieldType)
    ensures var r := Rebuild(h, Plain, s);
      r.1 == Pass && r.0.fields.keys == [k, "[" + k + "]"]
  {
    assert Keyed(s.fields);
    var s1 := s.(rebuilding := true);
    var calls := PlainCalls(s.fields);
    assert calls == [AddCall(k, f.fieldType, f.options, false)];
    var t := EmptyNameReAdd(h, s1, k, f);
    assert Replay(h, s1, calls) == Replay(h, t, calls[1..]);
    assert calls[1..] == [];
  }

  /** The one re-`add` of the rebuild above: the field comes back under `[k]` and the old entry stays. */
  lemma EmptyNameReAdd(h: Helper, s: State, k: string, f: Field) returns (t: State)
    requires s.name == Some("") && s.rebuilding
    requires s.fields == OMap([k], map[k := f]) && f.name == k && "real_name" !in f.options
    requires !IsBlankName(k) && h.isFieldType(f.fieldType)
    ensures Keyed(s.fields)
    ensures Add(h, s, k, f.fieldType, f.options, false) == (t, Pass)
    ensures t.fields.keys == [k, "[" + k + "]"]
  {
    var nf := NewField(h, Some(""), k, f.fieldType, f.options);
    assert RealName(nf) == "[" + k + "]";
    assert |"[" + k + "]"| == |k| + 2;
    t := WithFileFlag(s, f.fieldType).(fields := Put(s.fields, RealName(nf), nf));
  }

  // ---- named model

  /** `setupNamedModel` applied twice is `setupNamedModel` applied once. */
  lemma SetupNamedModelIdempotent(s: State)
    ensures SetupNamedModel(SetupNamedModel(s)) == SetupNamedModel(s)
  {
    var t := SetupNamedModel(s);
    if t != s {
      var p := s.name.value;
      assert t.model == Arr(map[p := s.model]);
      assert Get(t.model, p, Null) == s.model;
    }
  }

  /** `setupNamedModel` leaves a falsy model, and the model of a form without a truthy name, alone. */
  lemma SetupNamedModelNoop(s: State)
    requires !Truthy(s.model) || !TruthyName(s.name)
    ensures SetupNamedModel(s) == s
  {
  }

  /** The model `['name' => 'x']` of a form named 'user' becomes `['user' => ['name' => 'x']]` and then stays so. */
  lemma SetupNamedModelWraps(s: State)
    requires s.model == Arr(map["name" := Str("x")]) && s.name == Some("user")
    ensures SetupNamedModel(s).model == Arr(map["user" := Arr(map["name" := Str("x")])])
    ensures SetupNamedModel(SetupNamedModel(s)) == SetupNamedModel(s)
  {
    assert Truthy(s.model) by { assert "name" in s.model.entries; }
    assert TruthyName(s.name) by { assert |"user"| == 4; }
    assert Get(s.model, "user", Null) == Null by { assert "user" != "name"; }
    SetupNamedModelIdempotent(s);
  }

  // ---- options and data

  /** A successful `setFormOptions` leaves none of the pulled options behind with a non-null value. */
  lemma SetFormOptionsPulls(h: Helper, s: State, options: Options)
    ensures var r := SetFormOptions(h, s, options);
      r.1.Pass? ==>
        && GetFormOption(r.0, "model", Null) == Null
        && GetFormOption(r.0, "data", Null) == Null
        && GetFormOption(r.0, "errors_enabled", Null) == Null
        && GetFormOption(r.0, "client_validation", Null) == Null
        && !Truthy(GetFormOption(r.0, "name", Null))
  {
  }

  /** The first step of `setFormOptions`: the model option goes through `setModel`, the other options stay. */
  lemma PullModelStep(s: State, m: Options)
    ensures var mv := Lookup(m, "model", Null);
      PullModel(s.(formOptions := m)).model == (if mv != Null then SetModel(s, mv).model else s.model)
    ensures var t := PullModel(s.(formOptions := m));
      && t.data == s.data && t.exclude == s.exclude && t.validator == s.validator
      && t.showFieldErrors == s.showFieldErrors && t.clientValidation == s.clientValidation && t.name == s.name
      && Lookup(t.formOptions, "data", Null) == Lookup(m, "data", Null)
      && Lookup(t.formOptions, "errors_enabled", Null) == Lookup(m, "errors_enabled", Null)
      && Lookup(t.formOptions, "client_validation", Null) == Lookup(m, "client_validation", Null)
      && Lookup(t.formOptions, "name", Null) == Lookup(m, "name", Null)
  {
  }

  /** The second step: an array `data` option is merged into the data, and the later options stay. */
  lemma PullDataStep(s: State)
    ensures var dv := Lookup(s.formOptions, "data", Null);
      var (t, out) := PullData(s);
      && (out.Fail? <==> dv != Null && !dv.Arr?)
      && (out.Pass? ==> t.data == if dv.Arr? then s.data + dv.entries else s.data)
      && t.model == s.model && t.exclude == s.exclude && t.validator == s.validator
      && t.showFieldErrors == s.showFieldErrors && t.clientValidation == s.clientValidation && t.name == s.name
      && Lookup(t.formOptions, "errors_enabled", Null) == Lookup(s.formOptions, "errors_enabled", Null)
      && Lookup(t.formOptions, "client_validation", Null) == Lookup(s.formOptions, "client_validation", Null)
      && Lookup(t.formOptions, "name", Null) == Lookup(s.formOptions, "name", Null)
  {
  }

  /** The last steps: the two flags take their options' truthiness, and a truthy `name` option names the form. */
  lemma PullFlagsAndNameSteps(s: State)
    ensures var ev, cv, nv :=
        Lookup(s.formOptions, "errors_enabled", Null), Lookup(s.formOptions, "client_validation", Null),
        Lookup(s.formOptions, "name", Null);
      var t := CheckIfNamedForm(PullClientValidation(PullErrorsEnabled(s)));
      && t.showFieldErrors == (if ev != Null then Truthy(ev) else s.showFieldErrors)
      && t.clientValidation == (if cv != Null then Truthy(cv) else s.clientValidation)
      && t.name == (if Truthy(nv) then Some(ToPhpString(nv)) else s.name)
      && t.model == s.model && t.data == s.data && t.exclude == s.exclude && t.validator == s.validator
  {
    var s3 := PullErrorsEnabled(s);
    assert Lookup(s3.formOptions, "client_validation", Null) == Lookup(s.formOptions, "client_validation", Null);
    assert Lookup(s3.formOptions, "name", Null) == Lookup(s.formOptions, "name", Null);
    var s4 := PullClientValidation(s3);
    assert Lookup(s4.formOptions, "name", Null) == Lookup(s.formOptions, "name", Null);
  }

  /**
   * Where `setFormOptions` routes the merged options: a non-null `model` goes
   * through `setModel` under the old form name; an array `data` is merged into
   * the data, and a non-null `data` that is not an array throws after the
   * model was set; on success, non-null `errors_enabled` and
   * `client_validation` set their flags to their truthiness and a truthy
   * `name` becomes the form name.
   */
  lemma SetFormOptionsRoutes(h: Helper, s: State, options: Options)
    ensures var m := h.mergeOptions(s.formOptions, options);
      var mv, dv := Lookup(m, "model", Null), Lookup(m, "data", Null);
      var ev, cv, nv := Lookup(m, "errors_enabled", Null), Lookup(m, "client_validation", Null), Lookup(m, "name", Null);
      var r := SetFormOptions(h, s, options);
      && (r.1.Fail? <==> dv != Null && !dv.Arr?)
      && r.0.model == (if mv != Null then SetModel(s, mv).model else s.model)
      && (r.1.Pass? ==> r.0.data == (if dv.Arr? then s.data + dv.entries else s.data))
      && (r.1.Pass? ==> r.0.showFieldErrors == (if ev != Null then Truthy(ev) else s.showFieldErrors))
      && (r.1.Pass? ==> r.0.clientValidation == (if cv != Null then Truthy(cv) else s.clientValidation))
      && (r.1.Pass? ==> r.0.name == (if Truthy(nv) then Some(ToPhpString(nv)) else s.name))
      && r.0.exclude == s.exclude && r.0.validator == s.validator
  {
    var m := h.mergeOptions(s.formOptions, options);
    var s1 := PullModel(s.(formOptions := m));
    PullModelStep(s, m);
    PullDataStep(s1);
    var (s2, out) := PullData(s1);
    if out.Pass? {
      PullFlagsAndNameSteps(s2);
    }
  }

  /** A string `name` option makes the form named without a rebuild, and leaves the options. */
  lemma CheckIfNamedFormTakesName(s: State, p: string)
    requires "name" in s.formOptions && s.formOptions["name"] == Str(p) && TruthyString(p)
    ensures CheckIfNamedForm(s).name == Some(p) && "name" !in CheckIfNamedForm(s).formOptions
    ensures CheckIfNamedForm(s).fields == s.fields && CheckIfNamedForm(s).rebuilding == s.rebuilding
  {
  }

  /** What `setData`/`setFormOption` store, `getData`/`getFormOption` return. */
  lemma DataAndOptionRoundTrip(s: State, key: string, v: Value, default: Value)
    ensures GetData(SetData(s, key, v), Some(key), default) == v
    ensures GetFormOption(SetFormOption(s, key, v), key, default) == v
  {
  }

  /** `getData` of a missing name, and `getFormOption` of a missing option, return the default. */
  lemma MissingGivesDefault(s: State, key: string, default: Value)
    requires key !in s.data && key !in s.formOptions
    ensures GetData(s, Some(key), default) == default
    ensures GetFormOption(s, key, default) == default
  {
  }

  // ---- validation state

  /** `getErrors` throws on a form never validated and passes once `isValid` has run. */
  lemma ErrorsNeedValidation(s: State, fails: bool)
    ensures GetErrors(s) == Fail(NotValidated) <==> s.validator.None?
    ensures GetErrors(IsValid(s, fails).0) == Pass
  {
  }

  /** A second `isValid` reuses the cached verdict, whatever a new validation would say. */
  lemma IsValidCaches(s: State, first: bool, second: bool)
    ensures var t := IsValid(s, first);
      IsValid(t.0, second) == t
  {
  }

  // ---- rendering selection

  /** The unrendered fields are exactly the fields whose flag is clear. */
  lemma {:induction false} UnrenderedMembers(fs: seq<Field>)
    ensures forall f :: f in Unrendered(fs) <==> f in fs && !f.rendered
    decreases |fs|
  {
    if fs != [] {
      var init := fs[..|fs| - 1];
      UnrenderedMembers(init);
      assert fs == init + [fs[|fs| - 1]];
    }
  }

  /** Selecting the unrendered fields commutes with concatenation, so it keeps registry order. */
  lemma {:induction false} UnrenderedConcat(a: seq<Field>, b: seq<Field>)
    ensures Unrendered(a + b) == Unrendered(a) + Unrendered(b)
    decreases |b|
  {
    if b == [] {
      assert a + b == a;
    } else {
      var init := b[..|b| - 1];
      assert (a + b)[..|a + b| - 1] == a + init;
      UnrenderedConcat(a, init);
    }
  }

  /** After every field has been rendered, nothing is left to render. */
  lemma NothingLeftAfterAllRendered(fs: seq<Field>)
    requires forall f :: f in fs ==> f.rendered
    ensures Unrendered(fs) == []
  {
    UnrenderedMembers(fs);
    if Unrendered(fs) != [] {
      assert Unrendered(fs)[0] in Unrendered(fs);
    }
  }

  /** `renderUntil` selects through the first field with the given real name. */
  lemma {:induction false} PrefixThroughFirstMatch(fs: seq<Field>, name: string, j: nat)
    requires j < |fs| && RealName(fs[j]) == name
    requires forall t :: 0 <= t < j ==> RealName(fs[t]) != name
    ensures PrefixThrough(fs, name) == fs[..j + 1]
    decreases j
  {
    if j > 0 {
      PrefixThroughFirstMatch(fs[1..], name, j - 1);
      assert fs[..j + 1] == [fs[0]] + fs[1..][..j];
    }
  }

  /** `renderUntil` of a name no unrendered field has selects them all. */
  lemma {:induction false} PrefixThroughNoMatch(fs: seq<Field>, name: string)
    requires forall t :: 0 <= t < |fs| ==> RealName(fs[t]) != name
    ensures PrefixThrough(fs, name) == fs
    decreases |fs|
  {
    if fs != [] {
      PrefixThroughNoMatch(fs[1..], name);
      assert fs == [fs[0]] + fs[1..];
    }
  }
}
