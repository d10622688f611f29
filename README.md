# Laravel form builder: the `Form` class

This project models the `Form` class of the Laravel form builder
(`src/Kris/LaravelFormBuilder/Form.php`) and proves properties of the model.
A form keeps an ordered registry of fields keyed by their real names. Fields
are added, inserted before or after another field, modified, removed or copied
in from another form. Around that registry the form keeps some bookkeeping:
a form name that namespaces field names, a bound model that a named form wraps
under its name, a rebuild flag, the form options, extra data, the list of
fields not to render, and whether the form has been validated.

The project has five files:

- `wrappers.dfy`: `Option`, `Outcome` (a call returns normally, or throws an
  error) and `Result`.
- `php_array.dfy` (module `PhpArray`): PHP's ordered string-keyed array as a key
  sequence plus a map. It covers assignment `$a[$k] = $v` (an existing key keeps
  its slot, a new key goes last), `unset`, `array_slice` from the start and to
  the end, the union `+` (the left entry wins), `array_search` over the keys, and
  the `Splice` lemma, which says what cutting, adding and re-uniting does to the
  keys.
- `php_values.dfy` (module `PhpValues`): the PHP values held in options, data and
  models, with PHP truthiness, `trim(...) == ''`, string conversion and
  single-key `array_get`.
- `form_semantics.dfy` (module `FormSemantics`): the form's properties as a
  `State` value. Every operation is a pure function that takes the state before
  the call and returns the state after it together with the exception thrown,
  if any. The properties are lemmas about these functions.
- `form.dfy` (module `Forms`): the class `Form`. Its fields are the PHP
  properties, and its methods update them in place the way the PHP methods do.
  Each method is proved against its `FormSemantics` function: its state after
  the call and its result are the ones that function gives for the state
  before, and it keeps the registry invariant `Valid()`.

Modelling choices:

- Exceptions are results. `Fail(e)` means the PHP method throws `e`. The state
  returned with it is what PHP leaves behind at the throw. For example, after a
  failed `addBefore` the registry is still cut short.
- The form helper is a value of type `Helper`, a record of four functions: is
  this a known field type, format a label, merge options, and compute field
  rules. They are parameters of the model, so nothing about them is assumed.
- `FormField` is not part of this model. A field is a record of its built name,
  type, options and rendered flag. Its real name (`getRealName`) is its
  `real_name` option when that option is a string, and its built name
  otherwise. That is what the code around `setupFieldOptions` relies on.
- `get_class($this) === 'Kris\LaravelFormBuilder\Form'` becomes a constant
  `kind`. `Plain` stands for the base class, whose `buildForm` is empty.
  `Custom(steps)` stands for a subclass whose `buildForm` issues those `add`
  calls.
- The validator is the verdict it gives. `validator` is `None` before
  validation and `Some(fails)` after, where `fails` is what the validator
  factory's validator reports. `isValid` and `validate` take that verdict as a
  parameter.
- `convertModelToArray` is the identity. Models are values: arrays, strings,
  numbers, booleans or null.

Behaviour modelled as the code has it:

- `addBefore`/`addAfter` cut the registry first. If the inner `add` then throws,
  the fields after the cut are gone (`AddBeforeDuplicateLosesSuffix`,
  `AddBeforeFailureTruncates`).
- The duplicate check inside `addBefore` sees only the prefix. A name
  registered after the anchor is therefore not refused: it moves to in front of
  the anchor (`AddBeforeMovesLaterField`).
- A missing anchor is not an error. `addBefore` then puts the field first, and
  `addAfter` puts it after the first entry, since `false + 1` is 1
  (`AddBeforeMissingAnchor`, `AddAfterMissingAnchor`).
- A 'file' field sets the `files` form option before the duplicate check, so
  the option stays set even when the field is refused (`AddFileSetsFilesOption`).
- `getFieldName` namespaces whenever the name is not null. `setupFieldOptions`,
  however, records `real_name` only when the name is truthy. A form named `""`
  therefore files field `n` under `[n]`. A field with no string `real_name`
  option, such as one added while the form was already named `""`, is
  re-added under `[k]` when such a form is rebuilt, next to its old key `k`
  (`AddedKeyEmptyFormName`, `RebuildEmptyNameAddsKey`). A field added under a
  truthy name carries a `real_name` option, so it is filed under `k` again.
- A rebuild that throws leaves `rebuilding` set.
- `compose` is not all-or-nothing. The fields copied before a duplicate stay
  (`ComposeStopsAtDuplicate`).
- `checkIfNamedForm` sets the name directly, without a rebuild.

## Model

| member | source | states |
|---|---|---|
| PhpArray.Put | src/Kris/LaravelFormBuilder/Form.php:190 | assignment keeps an existing key in its slot and appends a new key; the value map gets the entry; the array stays well formed |
| PhpArray.Unset | src/Kris/LaravelFormBuilder/Form.php:291 | `unset` drops the key from the order and from the map |
| PhpArray.Take | src/Kris/LaravelFormBuilder/Form.php:209 | `array_slice($a, 0, n)` keeps the first n keys (all of them past the end) with their entries |
| PhpArray.Drop | src/Kris/LaravelFormBuilder/Form.php:210 | `array_slice($a, n)` keeps the keys from position n on with their entries |
| PhpArray.Union | src/Kris/LaravelFormBuilder/Form.php:216 | `+` keeps every left entry and appends the right keys the left lacks, in their order |
| PhpArray.IndexOf | src/Kris/LaravelFormBuilder/Form.php:207 | `array_search` over the keys: none exactly when the key is absent, else the first position holding it |
| PhpArray.Values | src/Kris/LaravelFormBuilder/Form.php:780 | the entries in key order |
| PhpArray.FilterOutAt | src/Kris/LaravelFormBuilder/Form.php:291 | removing one key of a duplicate-free order closes the gap |
| PhpArray.Splice | src/Kris/LaravelFormBuilder/Form.php:209-216 | cut at n, assign k, re-unite: k keeps its slot if it was in the prefix, otherwise it is inserted at n and any old slot in the suffix disappears |
| PhpValues.Get | src/Kris/LaravelFormBuilder/Form.php:857 | `array_get` with one key: the entry of an array that has it, else the default |
| PhpValues.Decimal | src/Kris/LaravelFormBuilder/Form.php:823 | the decimal digits of a natural: they read back (`DecimalValue`) as that natural, with a leading zero only for 0 |
| PhpValues.ToPhpString | src/Kris/LaravelFormBuilder/Form.php:823 | string conversion keeps a string, writes an integer in decimal with a leading `-` when negative, writes true as "1" and false and null as "", and keeps truthiness for non-arrays |
| FormSemantics.Initial | src/Kris/LaravelFormBuilder/Form.php:16-100 | a new form has an empty registry, is not rebuilding and is not validated |
| FormSemantics.SetupFieldOptions | src/Kris/LaravelFormBuilder/Form.php:833-844 | without a truthy form name the options are unchanged; with one, `real_name` is the raw name and a non-null label is present, a caller's label is kept, and no option other than these two changes or appears |
| FormSemantics.AddField | src/Kris/LaravelFormBuilder/Form.php:184-193 | a refused duplicate leaves the state unchanged and names the real name; on success the field is stored under its real name; keeps the registry invariant |
| FormSemantics.Add | src/Kris/LaravelFormBuilder/Form.php:161-176 | a call that throws leaves the key sequence and field map unchanged; name, rebuild flag and validation state never change; keeps the registry invariant |
| FormSemantics.Spliced | src/Kris/LaravelFormBuilder/Form.php:205-244 | when the inner add throws, the registry is the prefix before the cut |
| FormSemantics.AddBefore | src/Kris/LaravelFormBuilder/Form.php:205-219 | keeps the registry invariant |
| FormSemantics.AddAfter | src/Kris/LaravelFormBuilder/Form.php:230-244 | keeps the registry invariant |
| FormSemantics.Remove | src/Kris/LaravelFormBuilder/Form.php:288-296 | keeps the registry invariant |
| FormSemantics.GetField | src/Kris/LaravelFormBuilder/Form.php:379-388 | succeeds exactly when the name is registered, with its field; otherwise the unknown-field error |
| FormSemantics.Modify | src/Kris/LaravelFormBuilder/Form.php:307-318 | keeps the registry invariant |
| FormSemantics.AddFields | src/Kris/LaravelFormBuilder/Form.php:275-277 | keeps the registry invariant and the rebuild flag |
| FormSemantics.Compose | src/Kris/LaravelFormBuilder/Form.php:253-280 | keeps the registry invariant |
| FormSemantics.Replay | src/Kris/LaravelFormBuilder/Form.php:122-128 | keeps the registry invariant, the name, the rebuild flag and the validation state |
| FormSemantics.PlainCalls | src/Kris/LaravelFormBuilder/Form.php:123-125 | one `add(name, type, options)` call per entry, in registry order, without modify |
| FormSemantics.BuildForm | src/Kris/LaravelFormBuilder/Form.php:107-109 | keeps the registry invariant |
| FormSemantics.Rebuild | src/Kris/LaravelFormBuilder/Form.php:116-131 | keeps the registry invariant; a rebuild that does not throw clears `rebuilding` |
| FormSemantics.SetName | src/Kris/LaravelFormBuilder/Form.php:528-535 | keeps the registry invariant |
| FormSemantics.SetupNamedModel | src/Kris/LaravelFormBuilder/Form.php:849-862 | changes nothing but the model; a truthy model of a truthy-named form becomes `[name => model]` exactly when its entry under the name is falsy, and is otherwise left alone; either way its entry under the name is then truthy |
| FormSemantics.Pull | src/Kris/LaravelFormBuilder/Form.php:462-467 | pulls exactly when the option is present and not null, returning its value and removing it; otherwise nothing changes |
| FormSemantics.AddData | src/Kris/LaravelFormBuilder/Form.php:702-709 | the data gets every new key, the new values win, other entries stay, nothing else changes |
| FormSemantics.CheckIfNamedForm | src/Kris/LaravelFormBuilder/Form.php:820-825 | leaves no truthy `name` option, only removes options, and leaves fields and rebuild flag alone |
| FormSemantics.PullModel | src/Kris/LaravelFormBuilder/Form.php:447 | a non-null `model` option is removed and its value goes through `setModel`: the model becomes the value, or the value wrapped under a truthy form name; a null or absent option changes nothing; no other property changes |
| FormSemantics.PullData | src/Kris/LaravelFormBuilder/Form.php:448 | a non-null `data` option is removed; an array is merged into the data with its entries winning; it fails exactly when `data` is a non-null non-array; a null or absent option changes nothing |
| FormSemantics.PullErrorsEnabled | src/Kris/LaravelFormBuilder/Form.php:449 | a non-null `errors_enabled` option is removed and the errors flag becomes its truthiness; a null or absent option changes nothing; no other property changes |
| FormSemantics.PullClientValidation | src/Kris/LaravelFormBuilder/Form.php:450 | a non-null `client_validation` option is removed and the client-validation flag becomes its truthiness; a null or absent option changes nothing; no other property changes |
| FormSemantics.SetFormOptions | src/Kris/LaravelFormBuilder/Form.php:444-454 | never touches the registry or the rebuild flag |
| FormSemantics.Exclude | src/Kris/LaravelFormBuilder/Form.php:902-907 | the old list followed by the new names; nothing else changes |
| FormSemantics.GetRules | src/Kris/LaravelFormBuilder/Form.php:969-974 | keys are the field rules' plus the override's; an override entry wins; other field rules stay |
| FormSemantics.IsValid | src/Kris/LaravelFormBuilder/Form.php:981-988 | afterwards the form is validated and the answer is the negated cached verdict; an already validated form is unchanged; otherwise it validates |
| FormSemantics.GetErrors | src/Kris/LaravelFormBuilder/Form.php:995-1004 | throws exactly when the form was never validated, with the not-validated error |
| FormSemantics.FieldNameInjective | src/Kris/LaravelFormBuilder/Form.php:916-923 | distinct raw names give distinct field names |
| FormSemantics.FieldNameNamed | src/Kris/LaravelFormBuilder/Form.php:918-919 | in a named form the field name is the form name, `[`, the raw name, `]` |
| FormSemantics.FieldNameUnnamed | src/Kris/LaravelFormBuilder/Form.php:922 | with a null form name the field name is the raw name |
| FormSemantics.AddedKeyIsName | src/Kris/LaravelFormBuilder/Form.php:141-150 | with a null or truthy form name, and no caller `real_name`, a field is filed under its raw name |
| FormSemantics.AddedKeyEmptyFormName | src/Kris/LaravelFormBuilder/Form.php:833-844 | a form named "" files field n under `[n]` |
| FormSemantics.AddRejectsBlankName | src/Kris/LaravelFormBuilder/Form.php:163-167 | a blank name throws and nothing changes |
| FormSemantics.ZeroIsBlankName | src/Kris/LaravelFormBuilder/Form.php:163 | "", "0" and whitespace are blank names, "email" is not |
| FormSemantics.AddRejectsDuplicate | src/Kris/LaravelFormBuilder/Form.php:184-188 | outside modify/rebuild mode a registered real name throws the duplicate error; only the file flag may have changed |
| FormSemantics.AddRejectsUnknownType | src/Kris/LaravelFormBuilder/Form.php:806-815 | an unknown type throws and nothing changes |
| FormSemantics.AddAppendsFresh | src/Kris/LaravelFormBuilder/Form.php:184-192 | a fresh real name is appended after all existing keys, with only that entry and the file flag new |
| FormSemantics.AddModifyReplacesInPlace | src/Kris/LaravelFormBuilder/Form.php:184-192 | with modify, a registered real name keeps its slot and only its entry changes |
| FormSemantics.ModifyReplacesInPlace | src/Kris/LaravelFormBuilder/Form.php:307-317 | `modify` merges old and new options and replaces the field in its slot; other entries unchanged |
| FormSemantics.AddStores | src/Kris/LaravelFormBuilder/Form.php:161-193 | an add that gets past the name and type checks and is not refused stores the built field under its real name, with only the file flag besides |
| FormSemantics.AddFileSetsFilesOption | src/Kris/LaravelFormBuilder/Form.php:810-812 | a 'file' field that reaches the type lookup sets `files` to true, even if it is then refused |
| FormSemantics.AddBeforeInserts | src/Kris/LaravelFormBuilder/Form.php:205-219 | anchor present, name new: the key goes right before the anchor, all other keys keep their order, the map grows by exactly that entry |
| FormSemantics.AddAfterInserts | src/Kris/LaravelFormBuilder/Form.php:230-244 | anchor present, name new: the key goes right after the anchor, all else as for addBefore |
| FormSemantics.AddBeforeIsAddAfterPrevious | src/Kris/LaravelFormBuilder/Form.php:205-244 | addBefore an entry equals addAfter the entry before it, for every argument |
| FormSemantics.AddBeforeMissingAnchor | src/Kris/LaravelFormBuilder/Form.php:207-210 | a missing anchor puts the new key first |
| FormSemantics.AddAfterMissingAnchor | src/Kris/LaravelFormBuilder/Form.php:232-235 | a missing anchor puts the new key second |
| FormSemantics.AddBeforeMovesLaterField | src/Kris/LaravelFormBuilder/Form.php:209-216 | a name registered at or after the anchor moves to just before the anchor without an error |
| FormSemantics.AddBeforeDuplicateLosesSuffix | src/Kris/LaravelFormBuilder/Form.php:212-216 | a duplicate before the anchor throws and leaves only the keys before the anchor |
| FormSemantics.AddBeforeFailureTruncates | src/Kris/LaravelFormBuilder/Form.php:212-216 | whatever makes the inner add throw, the keys left are those before the anchor |
| FormSemantics.RemoveDeletes | src/Kris/LaravelFormBuilder/Form.php:288-296 | removing a registered name: it is no longer registered, the other keys keep their order, nothing else changes |
| FormSemantics.RemoveAbsentFails | src/Kris/LaravelFormBuilder/Form.php:288-296 | remove and getField of an unregistered name throw and change nothing |
| FormSemantics.ComposeAppends | src/Kris/LaravelFormBuilder/Form.php:275-277 | fields with distinct new names are appended in order, nothing throws, only the registry changes |
| FormSemantics.ComposeStores | src/Kris/LaravelFormBuilder/Form.php:275-277 | each such field is stored under its own real name |
| FormSemantics.ComposeKeepsEarlier | src/Kris/LaravelFormBuilder/Form.php:275-277 | an entry none of the composed fields names keeps its field |
| FormSemantics.ComposeStopsAtDuplicate | src/Kris/LaravelFormBuilder/Form.php:275-277 | when field j names a registered field and the fields before it are new and distinct, those fields are appended and stay, and field j throws the duplicate error |
| FormSemantics.ComposeRejectsOtherSources | src/Kris/LaravelFormBuilder/Form.php:269-273 | a source that is neither a form nor a child form throws and changes nothing |
| FormSemantics.RebuildingSkipsAbsent | src/Kris/LaravelFormBuilder/Form.php:169-171 | while rebuilding, add of an unregistered name is a no-op |
| FormSemantics.ReAddKeepsKeys | src/Kris/LaravelFormBuilder/Form.php:169-192 | in rebuild mode, one add that files under its own name, or names nothing registered, keeps the key sequence and key set |
| FormSemantics.ReplayKeepsKeys | src/Kris/LaravelFormBuilder/Form.php:169-171 | in rebuild mode, calls that keep their keys leave key order and key set unchanged whatever the outcome; with no blank name and no unknown type none throws |
| FormSemantics.PlainCallsKeepKeys | src/Kris/LaravelFormBuilder/Form.php:123-125 | with a null or truthy form name every re-add of the plain form files under its own key |
| FormSemantics.RebuildPlainKeepsKeys | src/Kris/LaravelFormBuilder/Form.php:116-131 | a plain form rebuilds without error, with the same key sequence and `rebuilding` false |
| FormSemantics.RebuildCustomAddsNothing | src/Kris/LaravelFormBuilder/Form.php:127-128 | a subclass whose `buildForm` only calls `add`, none with a string `real_name` option, in a form whose name is null or truthy: its rebuild never adds a key, whether or not it throws |
| FormSemantics.ReAddRenames | src/Kris/LaravelFormBuilder/Form.php:169-192 | in a truthy-named form in rebuild mode, re-adding a registered name passes, keeps the keys, and rebuilds that entry under the current form name |
| FormSemantics.ReplayRenames | src/Kris/LaravelFormBuilder/Form.php:122-128 | replaying re-adds of registered names passes and keeps the keys; each entry is rebuilt under the current name or is untouched and named by no call |
| FormSemantics.RebuildPlainRenames | src/Kris/LaravelFormBuilder/Form.php:116-131 | a plain form with a truthy name rebuilds without error, with the same keys, and every field's name is `getFieldName` of its key under the current form name |
| FormSemantics.SetNameRenames | src/Kris/LaravelFormBuilder/Form.php:528-535 | `setName(p)` with a truthy p on a plain form: same keys, and every field is named `p[key]` |
| FormSemantics.RebuildEmptyNameAddsKey | src/Kris/LaravelFormBuilder/Form.php:116-131 | a plain form named "" with field k ends with keys k and `[k]` |
| FormSemantics.SetupNamedModelIdempotent | src/Kris/LaravelFormBuilder/Form.php:849-862 | applying it twice equals applying it once |
| FormSemantics.SetupNamedModelNoop | src/Kris/LaravelFormBuilder/Form.php:851-853 | a falsy model or form name leaves everything unchanged |
| FormSemantics.SetupNamedModelWraps | src/Kris/LaravelFormBuilder/Form.php:855-860 | model `[name => x]` of form `user` becomes `[user => [name => x]]` and stays so |
| FormSemantics.PullModelStep | src/Kris/LaravelFormBuilder/Form.php:447 | the model option goes through `setModel`; the other properties and the later options stay |
| FormSemantics.PullDataStep | src/Kris/LaravelFormBuilder/Form.php:448 | an array `data` option is merged into the data, a non-array one throws; the other properties and the later options stay |
| FormSemantics.PullFlagsAndNameSteps | src/Kris/LaravelFormBuilder/Form.php:449-451 | the two flags take their options' truthiness and a truthy `name` option names the form; model, data, exclusions and validation state stay |
| FormSemantics.SetFormOptionsRoutes | src/Kris/LaravelFormBuilder/Form.php:444-454 | each merged option reaches its setter: model through `setModel` under the old name, an array `data` merged into the data (a non-array throws after the model was set), the flags set to the options' truthiness, a truthy `name` taken as the form name |
| FormSemantics.SetFormOptionsPulls | src/Kris/LaravelFormBuilder/Form.php:444-454 | a successful call leaves none of model, data, errors_enabled, client_validation non-null and no truthy name option |
| FormSemantics.CheckIfNamedFormTakesName | src/Kris/LaravelFormBuilder/Form.php:820-825 | a truthy string `name` option becomes the form name and leaves the options; no rebuild |
| FormSemantics.DataAndOptionRoundTrip | src/Kris/LaravelFormBuilder/Form.php:418-436 | what setData/setFormOption store, getData/getFormOption return |
| FormSemantics.MissingGivesDefault | src/Kris/LaravelFormBuilder/Form.php:685-692 | a missing data entry or option yields the default |
| FormSemantics.ErrorsNeedValidation | src/Kris/LaravelFormBuilder/Form.php:995-1004 | getErrors throws exactly before validation and passes after isValid |
| FormSemantics.IsValidCaches | src/Kris/LaravelFormBuilder/Form.php:981-988 | a second isValid reuses the first verdict |
| FormSemantics.UnrenderedMembers | src/Kris/LaravelFormBuilder/Form.php:776-788 | the selection holds exactly the fields whose rendered flag is clear |
| FormSemantics.UnrenderedConcat | src/Kris/LaravelFormBuilder/Form.php:776-788 | the selection distributes over concatenation, so it keeps registry order |
| FormSemantics.NothingLeftAfterAllRendered | src/Kris/LaravelFormBuilder/Form.php:776-788 | once all are rendered nothing is left |
| FormSemantics.PrefixThroughFirstMatch | src/Kris/LaravelFormBuilder/Form.php:356-371 | the selection is the list through the first field with that real name |
| FormSemantics.PrefixThroughNoMatch | src/Kris/LaravelFormBuilder/Form.php:356-371 | with no such field the selection is the whole list |
| Forms.Form.constructor | src/Kris/LaravelFormBuilder/Form.php:16-100 | the new object has the default state and the registry invariant |
| Forms.Form.Has | src/Kris/LaravelFormBuilder/Form.php:396-399 | true exactly when the key is registered |
| Forms.Form.GetField | src/Kris/LaravelFormBuilder/Form.php:379-388 | the registered field, or the unknown-field error |
| Forms.Form.GetFieldName | src/Kris/LaravelFormBuilder/Form.php:916-923 | the namespaced field name of `FieldName` |
| Forms.Form.SetupFieldOptions | src/Kris/LaravelFormBuilder/Form.php:833-844 | the options of `FormSemantics.SetupFieldOptions` |
| Forms.Form.GetFieldType | src/Kris/LaravelFormBuilder/Form.php:806-815 | reports whether the type is known; if it is, sets the file flag for 'file'; otherwise changes nothing |
| Forms.Form.MakeField | src/Kris/LaravelFormBuilder/Form.php:141-150 | the constructed field and the file flag, or the unknown-type error with nothing changed |
| Forms.Form.PreventDuplicate | src/Kris/LaravelFormBuilder/Form.php:795-800 | throws the duplicate error exactly when the name is registered |
| Forms.Form.AddField | src/Kris/LaravelFormBuilder/Form.php:184-193 | new state and outcome of `FormSemantics.AddField`; keeps `Valid()` |
| Forms.Form.Add | src/Kris/LaravelFormBuilder/Form.php:161-176 | new state and outcome of `FormSemantics.Add`; keeps `Valid()` |
| Forms.Form.AddBefore | src/Kris/LaravelFormBuilder/Form.php:205-219 | new state and outcome of `FormSemantics.AddBefore`; keeps `Valid()` |
| Forms.Form.AddAfter | src/Kris/LaravelFormBuilder/Form.php:230-244 | new state and outcome of `FormSemantics.AddAfter`; keeps `Valid()` |
| Forms.Form.Splice | src/Kris/LaravelFormBuilder/Form.php:208-216 | truncate, add, re-unite as `FormSemantics.Spliced` |
| Forms.Form.Compose | src/Kris/LaravelFormBuilder/Form.php:253-280 | copies the source's field list (taken before the loop, so composing a form into itself works on a snapshot) as `FormSemantics.Compose` |
| Forms.Form.Remove | src/Kris/LaravelFormBuilder/Form.php:288-296 | new state and outcome of `FormSemantics.Remove` |
| Forms.Form.Modify | src/Kris/LaravelFormBuilder/Form.php:307-318 | new state and outcome of `FormSemantics.Modify` |
| Forms.Form.Replay | src/Kris/LaravelFormBuilder/Form.php:122-128 | runs the add calls in order, stopping at the first that throws, as `FormSemantics.Replay` |
| Forms.Form.BuildForm | src/Kris/LaravelFormBuilder/Form.php:107-109 | nothing for the plain form, the subclass's calls otherwise |
| Forms.Form.RebuildForm | src/Kris/LaravelFormBuilder/Form.php:116-131 | new state and outcome of `FormSemantics.Rebuild`, about which `RebuildPlainKeepsKeys` and `RebuildPlainRenames` are proved |
| Forms.Form.SetName | src/Kris/LaravelFormBuilder/Form.php:528-535 | sets the name and rebuilds, as `FormSemantics.SetName`; `SetNameRenames` proves the fields are then named under the new name |
| Forms.Form.SetupNamedModel | src/Kris/LaravelFormBuilder/Form.php:849-862 | new state of `FormSemantics.SetupNamedModel` |
| Forms.Form.SetModel | src/Kris/LaravelFormBuilder/Form.php:553-560 | sets the model, then sets up the named model |
| Forms.Form.GetFormOption | src/Kris/LaravelFormBuilder/Form.php:418-421 | the option or the default |
| Forms.Form.SetFormOption | src/Kris/LaravelFormBuilder/Form.php:431-436 | stores the option |
| Forms.Form.PullOption | src/Kris/LaravelFormBuilder/Form.php:462-467 | the pull of `FormSemantics.Pull` |
| Forms.Form.SetErrorsEnabled | src/Kris/LaravelFormBuilder/Form.php:635-640 | the flag becomes the truthiness of the value; nothing else changes |
| Forms.Form.SetClientValidationEnabled | src/Kris/LaravelFormBuilder/Form.php:658-663 | the flag becomes the truthiness of the value; nothing else changes |
| Forms.Form.CheckIfNamedForm | src/Kris/LaravelFormBuilder/Form.php:820-825 | new state of `FormSemantics.CheckIfNamedForm` |
| Forms.Form.PullModel | src/Kris/LaravelFormBuilder/Form.php:447 | new state of `FormSemantics.PullModel` |
| Forms.Form.PullData | src/Kris/LaravelFormBuilder/Form.php:448 | new state and outcome of `FormSemantics.PullData` |
| Forms.Form.PullErrorsEnabled | src/Kris/LaravelFormBuilder/Form.php:449 | new state of `FormSemantics.PullErrorsEnabled` |
| Forms.Form.PullClientValidation | src/Kris/LaravelFormBuilder/Form.php:450 | new state of `FormSemantics.PullClientValidation` |
| Forms.Form.SetFormOptions | src/Kris/LaravelFormBuilder/Form.php:444-454 | new state and outcome of `FormSemantics.SetFormOptions` |
| Forms.Form.SetData | src/Kris/LaravelFormBuilder/Form.php:673-676 | stores the entry |
| Forms.Form.GetData | src/Kris/LaravelFormBuilder/Form.php:685-692 | all data for a null name, else the entry or the default |
| Forms.Form.AddData | src/Kris/LaravelFormBuilder/Form.php:702-709 | the loop of setData calls ends in the state of `FormSemantics.AddData` |
| Forms.Form.Exclude | src/Kris/LaravelFormBuilder/Form.php:902-907 | new state of `FormSemantics.Exclude` |
| Forms.Form.GetRules | src/Kris/LaravelFormBuilder/Form.php:969-974 | the rules of `FormSemantics.GetRules` |
| Forms.Form.Validate | src/Kris/LaravelFormBuilder/Form.php:952-961 | caches the verdict |
| Forms.Form.IsValid | src/Kris/LaravelFormBuilder/Form.php:981-988 | new state and answer of `FormSemantics.IsValid` |
| Forms.Form.GetErrors | src/Kris/LaravelFormBuilder/Form.php:995-1004 | the outcome of `FormSemantics.GetErrors` |
| Forms.Form.GetUnrenderedFields | src/Kris/LaravelFormBuilder/Form.php:776-788 | the accumulator loop returns `Unrendered` of the fields in registry order |
| Forms.Form.Render | src/Kris/LaravelFormBuilder/Form.php:744-759 | render's effect on the form: it sets up the named model |
| Forms.Form.RenderForm | src/Kris/LaravelFormBuilder/Form.php:329-332 | hands all fields, in order, to the view |
| Forms.Form.RenderRest | src/Kris/LaravelFormBuilder/Form.php:341-346 | hands the unrendered fields to the view |
| Forms.Form.RenderUntil | src/Kris/LaravelFormBuilder/Form.php:356-371 | the counter loop hands the unrendered fields through the first with that real name (all if none) to the view |

## Left out

- View rendering: the template, the merged render options and the HTML are not modelled. The render methods return the list of fields they hand to the view.
- The validator factory, the `Request` and the message bag. `validate` and `isValid` take the validator's verdict as a parameter, and `getErrors` returns only whether it throws. `validate`'s returned validator, rules and attribute names are not modelled.
- FormHelper internals: `mergeOptions`, `mergeFieldsRules`, `formatLabel` and the field type lookup are parameter functions, and `convertModelToArray` is the identity. `addCustomField`, `getConfig` and `getRequest` are not modelled.
- `FormField` and its subclasses are not part of this model. Fields are records, so `new $fieldType(...)` is a record constructor. `disableFields`, `enableFields`, `isRendered` and field rendering are out too, and the model never sets a rendered flag itself.
- The string branch of `compose`, which calls `formBuilder->create`, because the form builder is a factory outside this class. The `$options['class']` entry it builds is unused by the other branches and is left out with it.
- `get_class` and a subclass's own `buildForm` code: the `kind` constant stands in for them. A subclass's `buildForm` is modelled as a list of `add` calls only. `compose`, `addBefore` and `addAfter` inside it are not modelled. So rebuild containment is proved only for that case. A `compose` in `buildForm` goes through `addField`, which has no rebuild guard, and could re-add a field removed after building.
- Default arguments (`$type = 'text'`, `$options = []`, `$modify = false` on `add`, `addBefore`, `addAfter` and `compose`): every call in the model passes all of its arguments.
- `__get`, plus the trivial accessors and setters `getFormOptions`, `getMethod`, `setMethod`, `getUrl`, `setUrl`, `getName`, `getModel`, `getFields`, `setFormHelper`, `getFormHelper`, `haveErrorsEnabled`, `clientValidationEnabled`, `setRequest`, `setFormBuilder`, `getFormBuilder` and `setValidator`. Each only reads or assigns one property.
- Dot notation in `array_get`/`array_pull`: keys are looked up and removed as single keys.
- PHP arrays inside values (options, data, models) have no key order. Integer keys, and the renumbering `array_slice` applies to them, are not modelled: field names are strings.
- Loose `==`: `renderUntil`, `getFieldType` and the `array_search` anchor lookup of `addBefore`/`addAfter` compare strings exactly. PHP compares numeric strings by value there, so `"010"` would find an anchor `"1e1"`.
- Floats and objects as values. A non-string form `name` option becomes a name through string conversion (`ToPhpString`).
- Aliasing: field objects shared between a composed form and its source are copied as values.
- FormSemantics.AddBefore, FormSemantics.AddAfter, FormSemantics.Remove, FormSemantics.Modify, FormSemantics.Compose, FormSemantics.Rebuild, FormSemantics.SetName: their own contracts state only the registry invariant. Their placement, error, containment and renaming properties are the lemmas named above.
