# jquery-form data logic in Dafny

This project models the data logic of two versions of a jQuery/Bootstrap form
builder and proves properties of that model.

- `$.fn.form` in `jquery.form.js`:
  - Nested schema keys are flattened into control ids joined with `-`.
  - Field values are read by id from nested data (`getFieldValue`).
  - String values are HTML-escaped before they reach a template.
  - `set` copies values into the existing controls.
  - `toJSON` rebuilds the nested object from the serialized `(name, value)`
    pairs. Along the way it coerces strings that parse to objects or booleans.
  - `validate` collects the required, empty and visible leaves. It then runs
    the callback or marks the errors, and always returns `false`.
  - `throwErrors` flattens a nested error object into one mark per message.
- `$.makeForm` in `make_form.js`:
  - Control names are keys joined with `.`. Inputs are emitted only for leaves
    the `condition` admits, with `''` standing in for missing data.
  - `addControls` ends with exactly one submit button.
  - `toJSON` has the same rebuild, without coercion. `multiple` controls
    gather their values, and it can return the serialisation instead.
  - `validate` notes a failing required field and stops that level at it.
  - `setup` keeps a setting unless its option is truthy.

Files:

- `wrappers.dfy`: `Option` and `Result`.
- `json.dfy`:
  - JSON values (an object is an ordered association list of its keys in
    insertion order) and JavaScript truthiness;
  - property reads `v[k]`;
  - `split`/`join` on one character, with their round trips.
- `nested.dfy`: the rebuild loop shared by both `toJSON`s.
  - `Assign` is a recursive specification of one pair's walk.
  - `AssignPath` is the imperative cursor loop, proved equal to it.
  - `Build` and `Rebuild` are the fold over all pairs.
  - `BuildLookup` is the read-back theorem.
- `schema.dfy`:
  - the schema tree (`Group` or `Leaf`);
  - the id walk `Leaves`;
  - the reference list of leaf key paths `LeafPaths`.
- `escape.dfy`: the six-character entity escaper and its inverse.
- `jquery_form.dfy`: `$.fn.form`. The returned form object is the class
  `JqueryForm.Form`, whose methods update its controls.
- `make_form.dfy`: `$.makeForm`.
  - The shared closure variables `template`/`lang` are the class
    `MakeForm.Settings`.
  - The returned form is the class `MakeForm.Form`.

The DOM is replaced by explicit inputs:

- `serializeArray()` is a sequence of `(name, value)` pairs.
- "this control is `multiple` or a checkbox" is a predicate on names.
- `JSON.parse`/`JSON.stringify` are function parameters.
- Evaluating a `show_if` expression is a predicate on the expression and the
  form data.
- Functions passed as arguments are told apart by a numeric tag.

## Model

| member | source | states |
|---|---|---|
| JsonValue.Split | jquery.form.js:142 | `split` yields at least one part and no part contains the separator. A string without the separator splits into itself. |
| JsonValue.JoinSplit | jquery.form.js:308-311 | Joining the parts of a split gives back the string. |
| JsonValue.SplitJoin | jquery.form.js:142 | Splitting the join of separator-free parts gives back the parts. |
| JsonValue.SplitTail | jquery.form.js:310-311 | For an id of several parts, the id is its first part, a dash and the joined rest, and that rest is strictly shorter (the recursion terminates). |
| HtmlEscape.Entity | jquery.form.js:70-77 | Each special character's entity starts with `&` and ends with `;`. |
| HtmlEscape.Escape | jquery.form.js:69-78 | The escaped text is never shorter than the input and contains none of the raw characters `< > " ' /`. |
| HtmlEscape.UnescapeStep | jquery.form.js:69-78 | Decoding the escape of one character followed by any text gives that character followed by the decoding of the text. |
| HtmlEscape.UnescapeEscape | jquery.form.js:69-78 | Decoding an escaped string gives back the string, so escaping is injective and loses nothing. |
| HtmlEscape.EscapePlain | jquery.form.js:69-78 | A string with none of `& < > " ' /` is left unchanged. |
| FormSchema.Leaves | jquery.form.js:53-62 | The walk yields only leaves. Groups give no control of their own. |
| FormSchema.LeavesAppend | jquery.form.js:55 | Walking a concatenation of entries walks each part in order. |
| FormSchema.LeafIds | jquery.form.js:57-62 | For plain keys, every walked leaf's id is its whole key path from the root joined with the separator. The leaves come in the document order of `LeafPaths`. A top-level leaf's id is its key. |
| FormSchema.HeadId | jquery.form.js:57 | `parent ? parent + sep + field : field` is the join of the parent's key path extended by the field. |
| NestedJson.Assign | jquery.form.js:154-183 | One pair's walk succeeds with an object or fails. |
| NestedJson.AssignOkIff | jquery.form.js:154-183 | The walk succeeds exactly when every value met strictly inside the path is missing, falsy (and replaced by `{}`) or an object, and the last step of a multiple control does not meet an object with a truthy `push` key. |
| NestedJson.PushOkIff | jquery.form.js:169-177 | Only the last step can fail on `push`, and only for a multiple control whose slot is an object with a truthy `push` key: otherwise the outcome is that of a plain assignment. |
| NestedJson.WalkOkIff | jquery.form.js:154-165 | A plain assignment succeeds exactly when every value met strictly inside the path is missing, falsy (and replaced by `{}`) or an object. |
| NestedJson.PushKeyFails | jquery.form.js:169-173 | The pairs `t-push=1` then `t=x`, with `t` multiple, make the rebuild throw: the walk for `t-push` leaves `{push: "1"}` at `t`, and `.push` of it is not callable. |
| NestedJson.AssignAt | jquery.form.js:169-183 | Afterwards the path holds the value. For a multiple control it holds the array already there with the value pushed, or a one-element array. |
| NestedJson.AssignPrefixes | jquery.form.js:158-164 | Afterwards every proper prefix of the path holds an object. |
| NestedJson.AssignFrame | jquery.form.js:154-183 | A path that is neither a prefix nor an extension of the assigned one reads the same before and after. |
| NestedJson.CursorFails | jquery.form.js:160-164 | A truthy non-object met on the way aborts the walk with an error naming that value. |
| NestedJson.EnsureStep | jquery.form.js:160-162 | Writing `{}` in place of a falsy value at the cursor does not change the result of the walk. |
| NestedJson.CreateStep | jquery.form.js:160-164 | Writing `{}` at a falsy cursor keeps the objects along the path and makes the cursor an object, without changing the result. |
| NestedJson.AssignLast | jquery.form.js:169-183 | Once the path runs through objects, the walk is the single write of the new leaf at the end, unless a multiple control's slot is an object with a truthy `push` key, which throws. |
| NestedJson.SetAtAt | jquery.form.js:161 | A write along a path of objects is read back at that path, and the prefixes stay objects. |
| NestedJson.AssignPath | jquery.form.js:142-183 | The imperative cursor loop computes exactly `Assign`. |
| NestedJson.Rebuild | jquery.form.js:137-187 | The loop over the serialized pairs computes exactly `Build`. |
| NestedJson.Build | jquery.form.js:138-185 | A rebuild that succeeds yields an object. |
| NestedJson.BuildErrSticks | jquery.form.js:140-185 | Once a pair's walk fails, the later pairs do not change the outcome. |
| NestedJson.ValuesOf | jquery.form.js:169-183 | A name's gathered values are empty exactly when no pair gives that name. |
| NestedJson.BuildLookup | jquery.form.js:142-183 | If no name's path is a prefix of another's, the rebuild succeeds. Each name's path then holds all its values in input order for a multiple control, or its last value otherwise. Every proper prefix holds an object. |
| NestedJson.LastPairWins | jquery.form.js:180-183 | The last pair that names a control is the last of its gathered values. |
| JqueryForm.ResolveCallback | jquery.form.js:19-29 | A truthy callback is kept. Otherwise a function passed as data is used, and otherwise one passed as schema when data is falsy too. When data is a truthy non-function the falsy callback is kept. Only a function replaces the callback. |
| JqueryForm.GetFieldValue | jquery.form.js:306-315 | The result is never `null`. It is defined only when the data is truthy. |
| JqueryForm.GetFieldValueCons | jquery.form.js:310-311 | `getFieldValue("a-rest", d)` is `getFieldValue("rest", d["a"])` for truthy `d`, and `undefined` otherwise. |
| JqueryForm.GetFieldValueOne | jquery.form.js:312-313 | A single key reads `d[key]`, `null` read as `undefined`, and `undefined` for falsy data. |
| JqueryForm.GetFieldValueAt | jquery.form.js:306-315 | Along a path of objects, reading the dash-joined id gives what the path holds, `null` read as `undefined`. |
| JqueryForm.Coerce | jquery.form.js:148-150 | A value becomes what it parses to exactly when that is an object, an array, `null` or a boolean. Numeric and unparseable strings stay strings. |
| JqueryForm.CoercedValues | jquery.form.js:146-150 | The values the rebuild gathers for a name are the strings given for it, in order, each coerced. |
| JqueryForm.ReadBack | jquery.form.js:135-188 | If no name is a dash-prefix of another, `getFieldValue(name, toJSON())` returns that name's last coerced value, or the array of its values for a multiple control. |
| JqueryForm.ToJSON | jquery.form.js:135-188 | `toJSON` is the rebuild of the coerced serialized pairs along their dash-split names. |
| JqueryForm.ThrowErrors | jquery.form.js:278-296 | `throwErrors` with its loop `ThrowFrom`, one key `ThrowKey` and one value `ThrowValue`, as recursive functions. They have no ensures of their own. What they compute is stated by ThrowErrorsLocate (every mark locates its message), ThrowErrorsComplete (every message is marked) and ThrowFlat (one mark per message, in order). |
| JqueryForm.ThrowErrorsLocate | jquery.form.js:278-296 | For an error object of plain keys, every mark names an id that reads, in the error object, an array or string whose element is the mark's message. |
| JqueryForm.ThrowFromLocates | jquery.form.js:280-293 | The marks of the keys from the `i`-th on all locate their messages. |
| JqueryForm.ThrowKeyLocates | jquery.form.js:282-291 | One key's marks locate their messages: the elements of an array value, or what a nested object yields. |
| JqueryForm.ThrowFromHas | jquery.form.js:280-293 | The loop from the `i`-th key on includes the marks of every later key, and does not throw where the whole loop does not. |
| JqueryForm.ThrowErrorsComplete | jquery.form.js:278-296 | Nothing is missed. For every array of messages reached along non-empty keys through objects, each message is marked on the id that joins the path with `-`. |
| JqueryForm.ThrowFlat | jquery.form.js:278-296 | For an error object whose every key holds an array, the marks are exactly one per message, key after key and message after message, each on its key with its message as tooltip. |
| JqueryForm.ThrowFlatLength | jquery.form.js:280-293 | The marks from the `i`-th key on number the messages of those keys. |
| JqueryForm.ThrowFlatAt | jquery.form.js:280-293 | Message `j` of key `k` is marked at its offset among the marks from key `i` on. |
| JqueryForm.KeyAtReads | jquery.form.js:280-283 | Each key `for (i in errors)` visits reads, as `errors[i]`, the entry the loop marks: an object's own value, an array's element, or a string's character. |
| JqueryForm.NatToStringIndex | jquery.form.js:280-281 | The decimal key of an index is a canonical array index that reads back as the same index. |
| JqueryForm.ThrowComplete | jquery.form.js:280-293 | The same below an id prefix (`_context`): the marks carry the prefix joined with the path. |
| JqueryForm.ThrowKeyComplete | jquery.form.js:282-291 | The key that starts the path marks each element of an array reached through it, or recurses into the nested object. |
| JqueryForm.EscapeValue | jquery.form.js:66-78 | A value reaching a template is present exactly when the field has one, is a string exactly when the field's is, and as a string is never shorter and holds none of `< > " ' /`. Other values pass untouched. |
| JqueryForm.EscapeValueDecodes | jquery.form.js:69-78 | Decoding an escaped field value gives back the value. |
| JqueryForm.TemplateFor | jquery.form.js:82 | The type's template when the form has one, the text template exactly when it does not. With a text template registered, the result is always a registered template. |
| JqueryForm.RenderedDatasets | jquery.form.js:53-83 | For plain keys, the `i`-th dataset belongs to the `i`-th leaf of the schema: its id is the leaf's key path joined with `-`, the browser reads back the data's value at that id, and with a text template registered its template is registered. |
| JqueryForm.RenderedControls | jquery.form.js:53-62 | For plain keys, the `i`-th control belongs to the `i`-th leaf of the schema, is named by its key path joined with `-` and holds what `getFieldValue` reads at that name. |
| JqueryForm.ConditionsOf | jquery.form.js:91-97 | At most one visibility condition per leaf. |
| JqueryForm.ConditionsMembers | jquery.form.js:91-97 | A condition is recorded exactly for each leaf with a non-empty `show_if`. |
| JqueryForm.ErrorsAmong | jquery.form.js:215-228 | At most one error per leaf. |
| JqueryForm.ErrorsMembers | jquery.form.js:215-228 | An id is collected exactly when its leaf is required, its value is falsy and its `show_if`, if any, holds. |
| JqueryForm.NoErrorsNoBlocks | jquery.form.js:233-235 | With no error collected, no leaf of the schema blocks submission. |
| JqueryForm.LeavesOfEntry | jquery.form.js:57-62 | A group entry walks its values under its own id. A leaf entry is itself. |
| JqueryForm.CheckValide | jquery.form.js:204-231 | The loop appends exactly the blocking leaves of the walk, in order. |
| JqueryForm.CheckEntry | jquery.form.js:206-228 | One entry appends the blocking leaves it contains. |
| JqueryForm.Reverse | jquery.form.js:240 | `reverse` puts element `i` at position `n-1-i`. |
| JqueryForm.ErrorMarks | jquery.form.js:239-241 | The errors are marked last first, with no tooltip. |
| JqueryForm.Form.constructor | jquery.form.js:348-350 | `$.fn.form` settles the callback and renders the schema with the data. |
| JqueryForm.Form.Render | jquery.form.js:45-104 | The old controls and conditions are dropped, and one dataset and control per leaf and one condition per `show_if` leaf are built. The callback is unchanged. |
| JqueryForm.Form.MakeControls | jquery.form.js:53-101 | The walk appends the datasets, conditions and controls of the leaves under the parent, in order. |
| JqueryForm.Form.MakeControl | jquery.form.js:55-98 | One entry appends those of its leaves. |
| JqueryForm.Form.Set | jquery.form.js:113-127 | Every control keeps its name. A control whose id reads `undefined` keeps its value, and every other control takes the value read. |
| JqueryForm.Form.Validate | jquery.form.js:196-245 | It always returns `false`. With errors it marks them last first. Otherwise it runs the argument callback when that is a function and the form's own otherwise (throwing if that is not callable), on the rebuilt data, in which no leaf blocks. |
| MakeForm.Settings.constructor | make_form.js:10 | `template` and `lang` start undefined. |
| MakeForm.Settings.Setup | make_form.js:22-32 | `template`/`lang` take the option's value when it is truthy and keep their previous value otherwise. |
| MakeForm.MakeControlsAppend | make_form.js:49 | Walking a concatenation of entries walks each part in order. |
| MakeForm.MakeControls | make_form.js:47-73 | `makeControls` and its `$.each` callback `EntryControls`, as recursive functions. They have no ensures of their own. What they produce is stated by MakeControlsPaths (one input per admitted leaf, in document order, against the independent reference) and by WalkStep (how the rendering loop of `AddControls` follows it). |
| MakeForm.MakeControlsPaths | make_form.js:47-73 | For plain keys, the walk emits one input per admitted leaf, in document order. Each input is named by its key path joined with `.`. It is given the data at that path, or `''` when its group's data is missing or the value is `null`, and shows the data when truthy. |
| MakeForm.EntryPaths | make_form.js:49-71 | The same for one entry. |
| MakeForm.GroupEntryPaths | make_form.js:51-53 | A group passes `dataJSON[field]`, or `null` when there is no data, to the walk of its values under its own name. |
| MakeForm.LeafEntryPaths | make_form.js:55-67 | A leaf yields its input exactly when no condition is given or the condition holds for it. |
| MakeForm.LeafInput | make_form.js:57-63 | A leaf's name, `.val` value and shown value agree with the reference reading of its one-step path. |
| MakeForm.ValueShift | make_form.js:53 | Reading below a group key is reading in the data the group passes down. For missing data, that data is `null` and nothing below it reads. |
| MakeForm.EmittedShift | make_form.js:53 | The reference inputs of the paths under a key are those below the group's data with the prefix extended by the key. |
| MakeForm.RenderedPrefix | make_form.js:60-67 | The number of inputs rendered is at most the number of inputs. |
| MakeForm.FirstThrow | make_form.js:60-67 | Every input before that count renders, and the input at the count throws (a title that is undefined or `null`, or no template). |
| MakeForm.RenderedAppend | make_form.js:49-71 | Rendering a concatenation stops in the first part, or goes through it into the second. |
| MakeForm.WithoutSubmitInputs | make_form.js:75 | Removing the submit buttons leaves only inputs. |
| MakeForm.WithoutSubmitMembers | make_form.js:75 | An element survives the removal exactly when it is an input of the form. |
| MakeForm.WithoutSubmitNone | make_form.js:75 | Where there is no submit button, nothing is removed. |
| MakeForm.OneSubmit | make_form.js:75-79 | After the removal and the append, the last control is the one submit button and all others are inputs. |
| MakeForm.WalkStep | make_form.js:49-71 | After one more entry, the controls either grow by that entry's inputs or stop at the first input of the whole walk that throws. |
| MakeForm.ToJSON | make_form.js:90-141 | It rebuilds the serialized pairs along their `.`-split names. It returns the object, or `stringify` of the same object when `toString` is set. A failing walk is an error. |
| MakeForm.ValuesAreGiven | make_form.js:97-135 | The values gathered for a name are exactly the strings given for it, in order. |
| MakeForm.ReadBack | make_form.js:97-137 | If no name's path is a prefix of another's, each name's path holds the array of all its strings for a `multiple` control, or its last string otherwise. Every inner step is an object. |
| MakeForm.CheckLevel | make_form.js:190-212 | `checkValide` and its `$.each` callback `CheckRule`, as recursive functions. They have no ensures of their own. What they decide is stated by LevelMissing (nothing noted exactly when no required leaf is falsy) and StopsAtFailure (the scan of a level ends at its first falsy required leaf). |
| MakeForm.LevelMissing | make_form.js:190-212 | A scan that does not throw notes nothing new exactly when no required leaf at any depth is falsy. Otherwise it notes the id of one that is. |
| MakeForm.RuleMissing | make_form.js:192-208 | One rule either notes nothing and does not stop, with no missing leaf inside, or notes a missing leaf inside it. |
| MakeForm.StopsAtFailure | make_form.js:200-205 | After a required leaf with a falsy value, the rest of its level is never examined. |
| MakeForm.CheckValide | make_form.js:190-212 | The early-exit loop computes the level scan. |
| MakeForm.CheckEach | make_form.js:192-210 | The `$.each` callback computes the rule scan. |
| MakeForm.Validate | make_form.js:179-222 | The answer is `true` exactly when no required leaf is falsy in the rebuilt data. The marked element is one such leaf. Failures to rebuild or to read `formData[field]` are errors. |
| MakeForm.Form.constructor | make_form.js:12-14 | The form holds the selection's controls and the shared settings. |
| MakeForm.Form.AddControls | make_form.js:43-82 | Inputs are appended until the first one that throws. Then every submit button is removed and one is appended, which needs `template`. On success, the submit button is the last control and the only one. |
| MakeForm.Form.Walk | make_form.js:47-73 | The loop appends the walk's inputs up to the first that throws, and answers whether none threw. |
| MakeForm.Form.WalkEntry | make_form.js:49-71 | One entry appends its inputs up to the first that throws. |

## Left out

- DOM work is not modelled: element creation and removal, `find`, `focus`,
  CSS classes, `closest` and showing or hiding rows. Controls are values in a
  sequence. `$form.find("#" + id)`, which locates a marked control, is
  represented by the id.
- Underscore/Bootstrap templates, the wrapper template and tooltips are
  foreign library calls. A rendered leaf records the template it would use and
  its dataset. A template in `make_form.js` is a tag.
- `updateVisiblityState` is DOM only. `getVisiblityCondition` evaluates
  JavaScript through `new Function`, so it is the predicate parameter
  `visible`.
- `setTimeout`, `trigger("change")` and the `on`/`off` event bindings are
  event-loop plumbing. The marks are modelled as computed at once.
- `beforeSubmit`, `error` and `clear` in `make_form.js` only bind events or
  touch the DOM. The `text`/`elem` mark is the `marked` result.
- `example.js` is not part of this model: it only fetches a template and
  calls `setup`.
- `JSON.parse` and `JSON.stringify` are the function parameters `parse` and
  `stringify`. Only the coercion rule on the parsed value's type is modelled.
- Key order: an object is kept in insertion order. JavaScript lists
  canonical array-index keys (such as `"0"`, `"12"`) first, in ascending
  order, and only then the other keys in insertion order. The model does not
  reorder them, so for objects with index-like keys it can differ from
  JavaScript in the order `JSON.stringify` writes keys and in the order
  `throwErrors` visits them (and so the order of its marks).
- JqueryForm.TemplateFor: a form without a `text` template, rendering a leaf
  whose type has no template, calls `undefined` in JavaScript and throws a
  TypeError. The model does not model that error: it records `"text"` as the
  template.
- Numbers are unbounded integers. Floating point and `NaN` are not modelled.
- Prototype members are not modelled. `v[k]` sees only own entries, array and
  string indices, and `length`.
- NestedJson.Assign: a cursor that is an array gets a named property in
  JavaScript. The model reports `ArrayOnPath` instead. The `push` call of a
  multiple control's slot is tested on the object's own `push` key only:
  `Array.prototype.push` is what arrays use, and a truthy primitive has no
  `push`. A truthy primitive
  cursor throws a TypeError in strict mode, and the model reports that error
  at the step that meets it.
- JqueryForm.DataOf: a function passed as data is read as no data. Its own
  properties are not modelled.
- JqueryForm.ThrowErrors: an error entry that is an object with a `length`
  key is treated as an object to recurse into, not as an array-like.
  Marks made before a `null` entry, which makes the whole call throw, are not
  kept.
- JqueryForm.Form.Render: the value given to a control is the value read at
  its id. The escaped form goes to the template, and `EscapeValueDecodes`
  shows the browser reads back the same value.
- JqueryForm.Form.Set: `.val(value)` of an array or object value is recorded
  as that value; jQuery's own conversion of it is not modelled.
- The `obj`/`parent`/`field` cursor of both `toJSON`s is represented by its
  path from the root object.
- MakeForm.Settings.Setup: calling `setup` without an argument throws in
  JavaScript and is not modelled.
- MakeForm.Form.AddControls: an input is recorded with the argument passed to
  `.val`. When the data has no entry for the field that argument is
  `undefined` (`None`), and jQuery then sets the element's value to `""`.
  That conversion is not modelled.
- MakeForm.Form.AddControls: the displayed `title[lang]` is not modelled.
  Only the rule that reading it throws for an undefined or `null` title is.
- MakeForm.Form.AddControls: the condition's `this`, which is the leaf schema
  extended with its key, is passed as the pair (key, leaf).
- MakeForm.Validate: the escaped selector `prefix\.field` of the marked
  element is represented by the id joined with `.`.
