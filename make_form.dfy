/**
 * The older `$.makeForm` plugin: controls named by their keys joined with
 * ".", a `toJSON` that rebuilds the nested object without coercing values,
 * and a validator that notes the first failing required field of a level.
 */
module MakeForm {
  import opened Wrappers
  import opened JsonValue
  import opened NestedJson
  import opened FormSchema

  const Dot := '.'

  /** Why a JavaScript operation of the plugin throws. */
  datatype Failure =
    | TypeError                  // a property read on `undefined`/`null`, or `template` called while unset
    | RebuildFailed(e: PathError) // `toJSON` failed

  // ---------------------------------------------------------------------
  // setup
  // ---------------------------------------------------------------------

  /** The `options` object of `setup`; a template is a function, told apart by a tag. */
  datatype Options = Options(template: Option<nat>, lang: Option<string>)

  /** The variables `template` and `lang` the plugin's closure shares between all forms. */
  class Settings {
    var template: Option<nat>
    var lang: Option<string>

    constructor ()
      ensures template.None? && lang.None?
    {
      template := None;
      lang := None;
    }

    /** `setup`: each setting takes the option's value when that is truthy and keeps its own otherwise. */
    method Setup(options: Options)
      modifies this
      ensures template == (if options.template.Some? then options.template else old(template))
      ensures lang == (if options.lang.Some? && options.lang.value != "" then options.lang else old(lang))
    {
      if options.template.Some? {
        template := options.template;
      }
      if options.lang.Some? && options.lang.value != "" {
        lang := options.lang;
      }
    }
  }

  // ---------------------------------------------------------------------
  // addControls: the name walk
  // ---------------------------------------------------------------------

  /** The `condition` callback, called with the leaf's key and schema. */
  type Condition = (string, Field) -> bool

  /** No condition, or one that holds for the leaf. */
  predicate Admits(condition: Option<Condition>, key: string, leaf: Field)
  {
    condition.None? || condition.value(key, leaf)
  }

  /**
   * A control of the form: an input with its key, its name, the value it is
   * given with `.val`, the value its template shows and its schema; or a
   * submit button.
   */
  datatype Control =
    | Input(key: string, name: string, value: Option<Json>, shown: Json, leaf: Field)
    | Submit

  /** What a group passes to its own walk: `dataJSON ? dataJSON[field] : null`. */
  function GroupData(data: Option<Json>, key: string): Option<Json>
  {
    if TruthyOpt(data) then Prop(data.value, key) else Some(JNull)
  }

  /** The input made for the leaf `key` from its group's data. */
  function InputOf(data: Option<Json>, key: string, name: string, leaf: Field): Control
  {
    var v := if TruthyOpt(data) then Prop(data.value, key) else None;
    Input(key, name,
          if TruthyOpt(data) && v != Some(JNull) then v else Some(JStr("")),
          if TruthyOpt(v) then v.value else JStr(""),
          leaf)
  }

  /** `makeControls`: the inputs of the walk, in document order, each leaf admitted by the condition. */
  function MakeControls(fields: seq<Entry>, data: Option<Json>, parent: string, condition: Option<Condition>)
    : seq<Control>
    decreases fields, 1
  {
    if fields == [] then []
    else EntryControls(fields[0], data, parent, condition) + MakeControls(fields[1..], data, parent, condition)
  }

  /** The `$.each` callback of `makeControls`: a group's walk, or the input of an admitted leaf. */
  function EntryControls(e: Entry, data: Option<Json>, parent: string, condition: Option<Condition>)
    : seq<Control>
    decreases e, 0
  {
    var name := Id(parent, e.key, Dot);
    match e.field
    case Group(vs) => MakeControls(vs, GroupData(data, e.key), name, condition)
    case Leaf(_, _, _, _) =>
      if Admits(condition, e.key, e.field) then [InputOf(data, e.key, name, e.field)] else []
  }

  /** The walk over a concatenation is the concatenation of the walks. */
  lemma {:induction false} MakeControlsAppend(a: seq<Entry>, b: seq<Entry>, data: Option<Json>, parent: string,
                                              condition: Option<Condition>)
    ensures MakeControls(a + b, data, parent, condition) ==
      MakeControls(a, data, parent, condition) + MakeControls(b, data, parent, condition)
    decreases |a|
  {
    if a == [] {
      assert a + b == b;
    } else {
      var h := EntryControls(a[0], data, parent, condition);
      assert (a + b)[0] == a[0];
      assert (a + b)[1..] == a[1..] + b;
      assert MakeControls(a + b, data, parent, condition) == h + MakeControls(a[1..] + b, data, parent, condition);
      MakeControlsAppend(a[1..], b, data, parent, condition);
      AppendAssoc(h, MakeControls(a[1..], data, parent, condition), MakeControls(b, data, parent, condition));
    }
  }

  /** The value at `p` below `d`, reading each step only from a truthy value, as the walk does. */
  function ValueAt(d: Option<Json>, p: Path): Option<Json>
    decreases |p|
  {
    if p == [] then d
    else if TruthyOpt(d) then ValueAt(Prop(d.value, p[0]), p[1..])
    else None
  }

  /**
   * Reference view of one input: the leaf at path `p` below `data` is named
   * by the whole path joined with ".", is given the data at `p` (or "" when
   * its group's data is missing or the value is `null`), and shows the data
   * at `p` when that is truthy.
   */
  function InputAt(data: Option<Json>, prefix: Path, p: Path, leaf: Field): Control
    requires p != []
  {
    var group := ValueAt(data, p[..|p| - 1]);
    var v := ValueAt(data, p);
    Input(p[|p| - 1], Join(prefix + p, Dot),
          if !TruthyOpt(group) || v == Some(JNull) then Some(JStr("")) else v,
          if TruthyOpt(v) then v.value else JStr(""),
          leaf)
  }

  /** The input for one leaf path, when the condition admits the leaf. */
  function EmittedOne(p: Path, leaf: Field, data: Option<Json>, prefix: Path, condition: Option<Condition>)
    : seq<Control>
  {
    if p != [] && Admits(condition, p[|p| - 1], leaf) then [InputAt(data, prefix, p, leaf)] else []
  }

  /** The inputs for the leaf paths `ps`, keeping the leaves the condition admits. */
  function Emitted(ps: seq<(Path, Field)>, data: Option<Json>, prefix: Path, condition: Option<Condition>)
    : seq<Control>
    decreases |ps|
  {
    if ps == [] then []
    else EmittedOne(ps[0].0, ps[0].1, data, prefix, condition) + Emitted(ps[1..], data, prefix, condition)
  }

  lemma {:induction false} EmittedAppend(a: seq<(Path, Field)>, b: seq<(Path, Field)>, data: Option<Json>,
                                         prefix: Path, condition: Option<Condition>)
    ensures Emitted(a + b, data, prefix, condition) == Emitted(a, data, prefix, condition) + Emitted(b, data, prefix, condition)
    decreases |a|
  {
    if a == [] {
      assert a + b == b;
    } else {
      var h := EmittedOne(a[0].0, a[0].1, data, prefix, condition);
      assert (a + b)[0] == a[0];
      assert (a + b)[1..] == a[1..] + b;
      assert Emitted(a + b, data, prefix, condition) == h + Emitted(a[1..] + b, data, prefix, condition);
      EmittedAppend(a[1..], b, data, prefix, condition);
      AppendAssoc(h, Emitted(a[1..], data, prefix, condition), Emitted(b, data, prefix, condition));
    }
  }

  /** Reading through key `g` is reading from the data a group passes down. */
  lemma ValueShift(data: Option<Json>, g: string, q: Path)
    ensures TruthyOpt(data) ==> ValueAt(data, [g] + q) == ValueAt(GroupData(data, g), q)
    ensures !TruthyOpt(data) ==> ValueAt(data, [g] + q) == None && !TruthyOpt(ValueAt(GroupData(data, g), q))
    ensures !TruthyOpt(data) && q != [] ==> ValueAt(GroupData(data, g), q) == None
  {
    assert ([g] + q)[1..] == q;
  }

  lemma InputShift(data: Option<Json>, prefix: Path, g: string, p: Path, leaf: Field)
    requires p != []
    ensures InputAt(data, prefix, [g] + p, leaf) == InputAt(GroupData(data, g), prefix + [g], p, leaf)
  {
    var gp := [g] + p;
    assert gp[..|gp| - 1] == [g] + p[..|p| - 1];
    assert gp[|gp| - 1] == p[|p| - 1];
    assert prefix + gp == prefix + [g] + p;
    ValueShift(data, g, p);
    ValueShift(data, g, p[..|p| - 1]);
  }

  lemma {:induction false} EmittedShift(ps: seq<(Path, Field)>, data: Option<Json>, prefix: Path, g: string,
                                        condition: Option<Condition>)
    requires forall i :: 0 <= i < |ps| ==> |ps[i].0| >= 1
    ensures Emitted(Under(g, ps), data, prefix, condition) == Emitted(ps, GroupData(data, g), prefix + [g], condition)
    decreases |ps|
  {
    if ps != [] {
      var u := Under(g, ps);
      var p := ps[0].0;
      assert u[0] == ([g] + p, ps[0].1);
      assert u[1..] == Under(g, ps[1..]);
      assert ([g] + p)[|[g] + p| - 1] == p[|p| - 1];
      InputShift(data, prefix, g, p, ps[0].1);
      EmittedShift(ps[1..], data, prefix, g, condition);
    }
  }

  /**
   * The walk agrees with the reference view: the inputs are the leaves the
   * condition admits, in document order, each named by its key path joined
   * with "." and given the data found along that path.
   */
  lemma {:induction false} MakeControlsPaths(fields: seq<Entry>, data: Option<Json>, prefix: Path,
                                             condition: Option<Condition>)
    requires PlainKeys(fields, Dot)
    requires forall i :: 0 <= i < |prefix| ==> prefix[i] != ""
    ensures MakeControls(fields, data, Join(prefix, Dot), condition) == Emitted(LeafPaths(fields), data, prefix, condition)
    decreases fields, 1
  {
    if fields != [] {
      assert PlainKeys(fields[1..], Dot) by {
        forall i | 0 <= i < |fields[1..]| ensures fields[1..][i] == fields[i + 1] { }
      }
      EntryPaths(fields[0], data, prefix, condition);
      MakeControlsPaths(fields[1..], data, prefix, condition);
      EmittedAppend(EntryLeafPaths(fields[0]), LeafPaths(fields[1..]), data, prefix, condition);
    }
  }

  /** `MakeControlsPaths` for one entry of the schema. */
  lemma {:induction false} EntryPaths(e: Entry, data: Option<Json>, prefix: Path, condition: Option<Condition>)
    requires e.key != "" && Dot !in e.key && (e.field.Group? ==> PlainKeys(e.field.values, Dot))
    requires forall i :: 0 <= i < |prefix| ==> prefix[i] != ""
    ensures EntryControls(e, data, Join(prefix, Dot), condition) == Emitted(EntryLeafPaths(e), data, prefix, condition)
    decreases e, 0
  {
    var parent := Join(prefix, Dot);
    var name := Id(parent, e.key, Dot);
    HeadId(prefix, parent, e.key, Dot);
    match e.field {
      case Group(vs) =>
        var inner := prefix + [e.key];
        assert forall i :: 0 <= i < |inner| ==> inner[i] != "" by {
          forall i | 0 <= i < |inner| ensures inner[i] != "" {
            if i < |prefix| { assert inner[i] == prefix[i]; }
          }
        }
        MakeControlsPaths(vs, GroupData(data, e.key), inner, condition);
        GroupEntryPaths(e, data, prefix, condition);
      case Leaf(_, _, _, _) =>
        LeafEntryPaths(e, data, prefix, condition, name);
    }
  }

  lemma GroupEntryPaths(e: Entry, data: Option<Json>, prefix: Path, condition: Option<Condition>)
    requires e.field.Group?
    requires Id(Join(prefix, Dot), e.key, Dot) == Join(prefix + [e.key], Dot)
    requires MakeControls(e.field.values, GroupData(data, e.key), Join(prefix + [e.key], Dot), condition) ==
      Emitted(LeafPaths(e.field.values), GroupData(data, e.key), prefix + [e.key], condition)
    ensures EntryControls(e, data, Join(prefix, Dot), condition) == Emitted(EntryLeafPaths(e), data, prefix, condition)
  {
    var vs := e.field.values;
    var below := LeafPaths(vs);
    var parent := Join(prefix, Dot);
    assert EntryControls(e, data, parent, condition) == MakeControls(vs, GroupData(data, e.key), Id(parent, e.key, Dot), condition);
    EmittedShift(below, data, prefix, e.key, condition);
  }

  lemma LeafPaths1(e: Entry)
    requires e.field.Leaf?
    ensures EntryLeafPaths(e) == [([e.key], e.field)]
  {
    assert [e.key] + [] == [e.key];
    assert Under(e.key, [([], e.field)]) == [([e.key], e.field)];
  }

  lemma LeafEntryPaths(e: Entry, data: Option<Json>, prefix: Path, condition: Option<Condition>, name: string)
    requires e.field.Leaf? && name == Join(prefix + [e.key], Dot) && name == Id(Join(prefix, Dot), e.key, Dot)
    ensures EntryControls(e, data, Join(prefix, Dot), condition) == Emitted(EntryLeafPaths(e), data, prefix, condition)
  {
    LeafPaths1(e);
    LeafInput(e.key, e.field, data, prefix, name);
    var p := [e.key];
    assert p[|p| - 1] == e.key;
    assert EntryControls(e, data, Join(prefix, Dot), condition) ==
      if Admits(condition, e.key, e.field) then [InputOf(data, e.key, name, e.field)] else [];
    assert Emitted([(p, e.field)], data, prefix, condition) == EmittedOne(p, e.field, data, prefix, condition) + [] by {
      assert [(p, e.field)][1..] == [];
    }
  }

  /** A leaf's input, seen from its one-step path. */
  lemma LeafInput(key: string, leaf: Field, data: Option<Json>, prefix: Path, name: string)
    requires name == Join(prefix + [key], Dot)
    ensures InputAt(data, prefix, [key], leaf) == InputOf(data, key, name, leaf)
  {
    assert [key][1..] == [] && [key][..0] == [];
    assert ValueAt(data, [key]) == if TruthyOpt(data) then Prop(data.value, key) else None;
  }

  // ---------------------------------------------------------------------
  // addControls: rendering and the submit button
  // ---------------------------------------------------------------------

  /**
   * Rendering an input does not throw: `data.title[lang]` needs a title that
   * is neither undefined nor null, and `template` must have been set up.
   */
  predicate Renders(c: Control, template: Option<nat>)
  {
    template.Some? && c.Input? && c.leaf.Leaf? && c.leaf.title.Some? && !c.leaf.title.value.JNull?
  }

  /** How many inputs render before the first one that throws. */
  function RenderedPrefix(cs: seq<Control>, template: Option<nat>): (k: nat)
    ensures k <= |cs|
  {
    if cs == [] || !Renders(cs[0], template) then 0
    else 1 + RenderedPrefix(cs[1..], template)
  }

  /** `RenderedPrefix` is the index of the first input that throws, or the length when none does. */
  lemma {:induction false} FirstThrow(cs: seq<Control>, template: Option<nat>)
    ensures var k := RenderedPrefix(cs, template);
      && (forall j :: 0 <= j < k ==> Renders(cs[j], template))
      && (k < |cs| ==> !Renders(cs[k], template))
  {
    if cs != [] && Renders(cs[0], template) {
      FirstThrow(cs[1..], template);
      assert forall j :: 1 <= j < |cs| ==> cs[j] == cs[1..][j - 1];
    }
  }

  lemma {:induction false} RenderedAppend(a: seq<Control>, b: seq<Control>, template: Option<nat>)
    ensures RenderedPrefix(a + b, template) ==
      if RenderedPrefix(a, template) < |a| then RenderedPrefix(a, template) else |a| + RenderedPrefix(b, template)
    decreases |a|
  {
    if a == [] {
      assert a + b == b;
    } else {
      assert (a + b)[0] == a[0];
      assert (a + b)[1..] == a[1..] + b;
      if Renders(a[0], template) {
        RenderedAppend(a[1..], b, template);
      }
    }
  }

  /** `find('[type="submit"]').remove()`: the inputs, in order, without the submit buttons. */
  function WithoutSubmit(cs: seq<Control>): seq<Control>
  {
    if cs == [] then []
    else if cs[0].Input? then [cs[0]] + WithoutSubmit(cs[1..])
    else WithoutSubmit(cs[1..])
  }

  predicate AllInputs(cs: seq<Control>)
  {
    forall i :: 0 <= i < |cs| ==> cs[i].Input?
  }

  /** Removing the submit buttons leaves only inputs. */
  lemma {:induction false} WithoutSubmitInputs(cs: seq<Control>)
    ensures AllInputs(WithoutSubmit(cs))
  {
    if cs != [] {
      WithoutSubmitInputs(cs[1..]);
      var rest := WithoutSubmit(cs[1..]);
      if cs[0].Input? {
        var r := [cs[0]] + rest;
        assert WithoutSubmit(cs) == r;
        forall i | 0 <= i < |r| ensures r[i].Input? {
          if i > 0 { assert r[i] == rest[i - 1]; }
        }
      }
    }
  }

  /** Removing the submit buttons keeps every input and nothing else. */
  lemma {:induction false} WithoutSubmitMembers(cs: seq<Control>)
    ensures forall c :: c in WithoutSubmit(cs) <==> c in cs && c.Input?
  {
    if cs != [] {
      WithoutSubmitMembers(cs[1..]);
      assert forall c :: c in cs <==> c == cs[0] || c in cs[1..];
    }
  }

  /** Where there is no submit button, nothing is removed. */
  lemma {:induction false} WithoutSubmitNone(cs: seq<Control>)
    requires AllInputs(cs)
    ensures WithoutSubmit(cs) == cs
  {
    if cs != [] {
      assert forall i :: 0 <= i < |cs[1..]| ==> cs[1..][i] == cs[i + 1];
      WithoutSubmitNone(cs[1..]);
    }
  }

  /** After the removal, the appended button is the only submit button and the last control. */
  lemma OneSubmit(cs: seq<Control>)
    ensures var r := WithoutSubmit(cs) + [Submit];
      r[|r| - 1] == Submit && forall i :: 0 <= i < |r| - 1 ==> r[i].Input?
  {
    WithoutSubmitInputs(cs);
    var w := WithoutSubmit(cs);
    assert forall i :: 0 <= i < |w| ==> (w + [Submit])[i] == w[i];
  }

  /** One more entry of the walk, when everything so far rendered. */
  lemma StepRendered(done: seq<Control>, now: seq<Control>, rest: seq<Control>, template: Option<nat>)
    requires RenderedPrefix(done, template) == |done|
    ensures var k := RenderedPrefix(now, template);
      && (k == |now| ==> RenderedPrefix(done + now, template) == |done + now|)
      && (k < |now| ==> RenderedPrefix(done + now + rest, template) == |done| + k
                        && (done + now + rest)[..|done| + k] == done + now[..k])
  {
    RenderedAppend(done, now, template);
    RenderedAppend(done + now, rest, template);
  }

  lemma MakeControlsGrow(fields: seq<Entry>, i: nat, data: Option<Json>, parent: string, condition: Option<Condition>)
    requires i < |fields|
    ensures MakeControls(fields[..i + 1], data, parent, condition) ==
      MakeControls(fields[..i], data, parent, condition) + EntryControls(fields[i], data, parent, condition)
    ensures MakeControls(fields, data, parent, condition) ==
      MakeControls(fields[..i + 1], data, parent, condition) + MakeControls(fields[i + 1..], data, parent, condition)
  {
    assert fields[..i + 1] == fields[..i] + [fields[i]];
    MakeControlsAppend(fields[..i], [fields[i]], data, parent, condition);
    assert [fields[i]][1..] == [];
    assert MakeControls([fields[i]], data, parent, condition) == EntryControls(fields[i], data, parent, condition) + [];
    assert fields == fields[..i + 1] + fields[i + 1..];
    MakeControlsAppend(fields[..i + 1], fields[i + 1..], data, parent, condition);
  }

  // ---------------------------------------------------------------------
  // toJSON
  // ---------------------------------------------------------------------

  /** What `toJSON` returns: the object, or its serialisation when `toString` is truthy. */
  datatype Output = Object(obj: Json) | Text(text: string)

  /** The serialized pairs, each value kept as the string the control holds. */
  function Strings(pairs: seq<(string, string)>): (r: seq<(string, Json)>)
    ensures |r| == |pairs|
    ensures forall i :: 0 <= i < |r| ==> r[i] == (pairs[i].0, JStr(pairs[i].1))
  {
    seq(|pairs|, i requires 0 <= i < |pairs| => (pairs[i].0, JStr(pairs[i].1)))
  }

  /**
   * `toJSON`: each serialized pair walked into one object along its name
   * split on "."; `multiple` says whether the control of that name is
   * `multiple`. `stringify` stands for `JSON.stringify`.
   */
  method ToJSON(pairs: seq<(string, string)>, multiple: string -> bool, toString: bool, stringify: Json -> string)
    returns (r: Result<Output, PathError>)
    ensures var b := Build(Strings(pairs), Dot, multiple);
      && (b.Err? ==> r == Err(b.error))
      && (b.Ok? ==> r == Ok(if toString then Text(stringify(b.value)) else Object(b.value)))
  {
    var formJSON := Rebuild(Strings(pairs), Dot, multiple);
    if formJSON.Err? {
      return Err(formJSON.error);
    }
    r := Ok(if toString then Text(stringify(formJSON.value)) else Object(formJSON.value));
  }

  function JStrs(vs: seq<string>): (r: seq<Json>)
    ensures |r| == |vs|
    ensures forall j :: 0 <= j < |vs| ==> r[j] == JStr(vs[j])
  {
    seq(|vs|, j requires 0 <= j < |vs| => JStr(vs[j]))
  }

  /**
   * What the rebuilt object holds at `name`'s path: the array of every string
   * given for it when the control is `multiple`, the last one otherwise.
   */
  function Stored(pairs: seq<(string, string)>, name: string, multiple: bool): Option<Json>
  {
    var vs := Given(pairs, name);
    if vs == [] then None
    else if multiple then Some(JArr(JStrs(vs)))
    else Some(JStr(vs[|vs| - 1]))
  }

  lemma {:induction false} ValuesAreGiven(pairs: seq<(string, string)>, name: string)
    ensures ValuesOf(Strings(pairs), name) == JStrs(Given(pairs, name))
    decreases |pairs|
  {
    if pairs != [] {
      var init := pairs[..|pairs| - 1];
      var sp := Strings(pairs);
      assert sp[..|sp| - 1] == Strings(init);
      ValuesAreGiven(init, name);
      var g := Given(init, name);
      var tail := if pairs[|pairs| - 1].0 == name then [pairs[|pairs| - 1].1] else [];
      assert JStrs(g + tail) == JStrs(g) + JStrs(tail);
    }
  }

  /**
   * Reading back a rebuilt object: when no name's path is a proper prefix of
   * another's, each name's path holds exactly the strings given for it (no
   * value is coerced), and every value strictly inside a path is an object.
   */
  lemma ReadBack(pairs: seq<(string, string)>, multiple: string -> bool)
    requires PrefixFree(Strings(pairs), Dot)
    ensures Build(Strings(pairs), Dot, multiple).Ok?
    ensures forall i :: 0 <= i < |pairs| ==>
      At(Build(Strings(pairs), Dot, multiple).value, Split(pairs[i].0, Dot)) == Stored(pairs, pairs[i].0, multiple(pairs[i].0))
    ensures forall i, k :: 0 <= i < |pairs| && 0 <= k < |Split(pairs[i].0, Dot)| ==>
      IsObjAt(Build(Strings(pairs), Dot, multiple).value, Split(pairs[i].0, Dot)[..k])
  {
    var sp := Strings(pairs);
    BuildLookup(sp, Dot, multiple);
    forall i | 0 <= i < |pairs|
      ensures Expected(sp, pairs[i].0, multiple(pairs[i].0)) == Stored(pairs, pairs[i].0, multiple(pairs[i].0))
    {
      ValuesAreGiven(pairs, pairs[i].0);
    }
    forall i, k | 0 <= i < |pairs| && 0 <= k < |Split(pairs[i].0, Dot)|
      ensures IsObjAt(Build(sp, Dot, multiple).value, Split(pairs[i].0, Dot)[..k])
    {
      assert sp[i].0 == pairs[i].0;
    }
  }

  // ---------------------------------------------------------------------
  // validate
  // ---------------------------------------------------------------------

  /** `formData[field]` does not throw: the value is neither undefined nor null. */
  predicate Readable(d: Option<Json>)
  {
    d.Some? && !d.value.JNull?
  }

  /** Where a rule leaves the scan: the element noted so far, and whether its level stops. */
  datatype Scan = Scan(elem: Option<string>, stop: bool)

  /**
   * `checkValide`: the rules of one level in order, until one asks to stop;
   * the result is the element noted last (`elem` when none is).
   */
  function CheckLevel(d: Option<Json>, rules: seq<Entry>, prefix: string, elem: Option<string>)
    : Result<Option<string>, Failure>
    decreases rules, 1
  {
    if rules == [] then Ok(elem)
    else match CheckRule(d, rules[0], prefix, elem)
      case Err(x) => Err(x)
      case Ok(scan) => if scan.stop then Ok(scan.elem) else CheckLevel(d, rules[1..], prefix, scan.elem)
  }

  /**
   * The `$.each` callback of `checkValide`: a group checks its own level
   * below `formData[field]`; a required leaf whose value is falsy is noted
   * and stops its level (`return false`).
   */
  function CheckRule(d: Option<Json>, e: Entry, prefix: string, elem: Option<string>): Result<Scan, Failure>
    decreases e, 0
  {
    var id := Id(prefix, e.key, Dot);
    match e.field
    case Group(vs) =>
      if !Readable(d) then Err(TypeError)
      else (match CheckLevel(Prop(d.value, e.key), vs, id, elem)
            case Err(x) => Err(x)
            case Ok(el) => Ok(Scan(el, false)))
    case Leaf(_, _, required, _) =>
      if !required then Ok(Scan(elem, false))
      else if !Readable(d) then Err(TypeError)
      else if !TruthyOpt(Prop(d.value, e.key)) then Ok(Scan(Some(id), true))
      else Ok(Scan(elem, false))
  }

  /** `formData[field]` where that can be read, undefined otherwise. */
  function Child(d: Option<Json>, key: string): Option<Json>
  {
    if Readable(d) then Prop(d.value, key) else None
  }

  /** Reference: the id of every required leaf, at any depth, whose value is falsy. */
  function MissingIds(d: Option<Json>, rules: seq<Entry>, prefix: string): seq<string>
    decreases rules, 1
  {
    if rules == [] then [] else MissingIn(d, rules[0], prefix) + MissingIds(d, rules[1..], prefix)
  }

  /** `MissingIds` of one rule: those of a group's level, or the leaf itself when it is required and falsy. */
  function MissingIn(d: Option<Json>, e: Entry, prefix: string): seq<string>
    decreases e, 0
  {
    var id := Id(prefix, e.key, Dot);
    match e.field
    case Group(vs) => MissingIds(Child(d, e.key), vs, id)
    case Leaf(_, _, required, _) => if required && !TruthyOpt(Child(d, e.key)) then [id] else []
  }

  /**
   * What a scan that does not throw notes: nothing new exactly when no
   * required leaf is missing, and otherwise the id of a missing one.
   */
  lemma {:induction false} LevelMissing(d: Option<Json>, rules: seq<Entry>, prefix: string, elem: Option<string>)
    ensures CheckLevel(d, rules, prefix, elem).Ok? ==>
      var e := CheckLevel(d, rules, prefix, elem).value;
      (e == elem && MissingIds(d, rules, prefix) == []) || (e.Some? && e.value in MissingIds(d, rules, prefix))
    decreases rules, 1
  {
    if rules != [] {
      var r := rules[0];
      RuleMissing(d, r, prefix, elem);
      var c := CheckRule(d, r, prefix, elem);
      if c.Ok? && !c.value.stop {
        LevelMissing(d, rules[1..], prefix, c.value.elem);
      }
    }
  }

  lemma {:induction false} RuleMissing(d: Option<Json>, r: Entry, prefix: string, elem: Option<string>)
    ensures CheckRule(d, r, prefix, elem).Ok? ==>
      var s := CheckRule(d, r, prefix, elem).value;
      || (s.elem == elem && MissingIn(d, r, prefix) == [] && !s.stop)
      || (s.elem.Some? && s.elem.value in MissingIn(d, r, prefix))
    decreases r, 0
  {
    match r.field {
      case Group(vs) =>
        if Readable(d) {
          LevelMissing(Prop(d.value, r.key), vs, Id(prefix, r.key, Dot), elem);
        }
      case Leaf(_, _, _, _) =>
    }
  }

  /** A required leaf with a falsy value stops its level: the rules after it are never looked at. */
  lemma {:induction false} StopsAtFailure(d: Option<Json>, a: seq<Entry>, b: seq<Entry>, prefix: string,
                                          elem: Option<string>)
    requires a != [] && Readable(d)
    requires var last := a[|a| - 1];
      last.field.Leaf? && last.field.required && !TruthyOpt(Prop(d.value, last.key))
    ensures CheckLevel(d, a + b, prefix, elem) == CheckLevel(d, a, prefix, elem)
    decreases |a|
  {
    assert (a + b)[0] == a[0];
    assert (a + b)[1..] == a[1..] + b;
    if |a| > 1 {
      assert a[1..][|a[1..]| - 1] == a[|a| - 1];
      var c := CheckRule(d, a[0], prefix, elem);
      if c.Ok? && !c.value.stop {
        StopsAtFailure(d, a[1..], b, prefix, c.value.elem);
      }
    }
  }

  /** `checkValide`: the `$.each` loop, which `return false` in the callback ends early. */
  method CheckValide(d: Option<Json>, rules: seq<Entry>, prefix: string, elem: Option<string>)
    returns (r: Result<Option<string>, Failure>)
    ensures r == CheckLevel(d, rules, prefix, elem)
    decreases rules, 1
  {
    var cur := elem;
    var i := 0;
    while i < |rules|
      invariant 0 <= i <= |rules|
      invariant CheckLevel(d, rules[i..], prefix, cur) == CheckLevel(d, rules, prefix, elem)
    {
      assert rules[i..][0] == rules[i] && rules[i..][1..] == rules[i + 1..];
      var scan := CheckEach(d, rules[i], prefix, cur);
      if scan.Err? {
        return Err(scan.error);
      }
      if scan.value.stop {
        return Ok(scan.value.elem);
      }
      cur := scan.value.elem;
      i := i + 1;
    }
    assert rules[|rules|..] == [];
    r := Ok(cur);
  }

  /** The `$.each` callback of `checkValide`. */
  method CheckEach(d: Option<Json>, e: Entry, prefix: string, elem: Option<string>) returns (r: Result<Scan, Failure>)
    ensures r == CheckRule(d, e, prefix, elem)
    decreases e, 0
  {
    var id := Id(prefix, e.key, Dot);
    match e.field {
      case Group(vs) =>
        if !Readable(d) {
          return Err(TypeError);
        }
        var sub := CheckValide(Prop(d.value, e.key), vs, id, elem);
        if sub.Err? {
          return Err(sub.error);
        }
        r := Ok(Scan(sub.value, false));
      case Leaf(_, _, required, _) =>
        r := Ok(Scan(elem, false));
        if required {
          if !Readable(d) {
            return Err(TypeError);
          }
          if !TruthyOpt(Prop(d.value, e.key)) {
            r := Ok(Scan(Some(id), true));
          }
        }
    }
  }

  /**
   * `validate`: rebuild the form data, scan the rules, and mark the element
   * noted last. The answer is `true` exactly when no required leaf is missing.
   */
  method Validate(rules: seq<Entry>, pairs: seq<(string, string)>, multiple: string -> bool)
    returns (r: Result<bool, Failure>, marked: Option<string>)
    ensures var b := Build(Strings(pairs), Dot, multiple);
      && (b.Err? ==> r == Err(RebuildFailed(b.error)) && marked.None?)
      && (b.Ok? ==>
            var c := CheckLevel(Some(b.value), rules, "", None);
            && (c.Err? ==> r == Err(c.error) && marked.None?)
            && (c.Ok? ==> r == Ok(c.value.None?) && marked == c.value))
    ensures r.Ok? ==> (r.value <==> MissingIds(Some(Build(Strings(pairs), Dot, multiple).value), rules, "") == [])
    ensures marked.Some? ==> marked.value in MissingIds(Some(Build(Strings(pairs), Dot, multiple).value), rules, "")
  {
    marked := None;
    var formData := ToJSON(pairs, multiple, false, (o: Json) => "");
    if formData.Err? {
      return Err(RebuildFailed(formData.error)), None;
    }
    var data := formData.value.obj;
    var scan := CheckValide(Some(data), rules, "", None);
    if scan.Err? {
      return Err(scan.error), None;
    }
    LevelMissing(Some(data), rules, "", None);
    marked := scan.value;
    r := Ok(marked.None?);
  }

  /** One entry of the walk's loop: the controls either grow by the entry's inputs or stop at the first that throws. */
  lemma WalkStep(c0: seq<Control>, fields: seq<Entry>, i: nat, data: Option<Json>, parent: string,
                 condition: Option<Condition>, t: Option<nat>, c1: seq<Control>)
    requires i < |fields|
    requires var done := MakeControls(fields[..i], data, parent, condition);
      var now := EntryControls(fields[i], data, parent, condition);
      RenderedPrefix(done, t) == |done| && c1 == c0 + done + now[..RenderedPrefix(now, t)]
    ensures var now := EntryControls(fields[i], data, parent, condition);
      var next := MakeControls(fields[..i + 1], data, parent, condition);
      RenderedPrefix(now, t) == |now| ==> RenderedPrefix(next, t) == |next| && c1 == c0 + next
    ensures var now := EntryControls(fields[i], data, parent, condition);
      var all := MakeControls(fields, data, parent, condition);
      RenderedPrefix(now, t) < |now| ==> RenderedPrefix(all, t) < |all| && c1 == c0 + all[..RenderedPrefix(all, t)]
  {
    var done := MakeControls(fields[..i], data, parent, condition);
    var now := EntryControls(fields[i], data, parent, condition);
    var rest := MakeControls(fields[i + 1..], data, parent, condition);
    var k := RenderedPrefix(now, t);
    MakeControlsGrow(fields, i, data, parent, condition);
    StepRendered(done, now, rest, t);
    if k == |now| {
      assert now[..k] == now;
      AppendAssoc(c0, done, now);
    } else {
      AppendAssoc(c0, done, now[..k]);
    }
  }

  /** The object `$.makeForm(selector)` returns: the controls of the selected element and the shared settings. */
  class Form {
    var controls: seq<Control>
    const settings: Settings

    constructor (settings: Settings, controls: seq<Control>)
      ensures this.settings == settings && this.controls == controls
    {
      this.settings := settings;
      this.controls := controls;
    }

    /**
     * `addControls`: append an input for every admitted leaf until one
     * throws; then replace every submit button by a single new one. When
     * nothing throws, the submit button is the last control and the only one.
     */
    method AddControls(fields: seq<Entry>, data: Option<Json>, condition: Option<Condition>)
      returns (r: Result<(), Failure>)
      modifies this`controls
      ensures var ins := MakeControls(fields, data, "", condition);
        var k := RenderedPrefix(ins, settings.template);
        && (k < |ins| ==> r == Err(TypeError) && controls == old(controls) + ins[..k])
        && (k == |ins| && settings.template.None? ==> r == Err(TypeError) && controls == WithoutSubmit(old(controls) + ins))
        && (k == |ins| && settings.template.Some? ==> r == Ok(()) && controls == WithoutSubmit(old(controls) + ins) + [Submit])
      ensures r.Ok? ==> (controls[|controls| - 1] == Submit && forall i :: 0 <= i < |controls| - 1 ==> controls[i].Input?)
    {
      ghost var ins := MakeControls(fields, data, "", condition);
      var ok := Walk(fields, data, "", condition);
      assert ok ==> ins[..|ins|] == ins;
      if !ok {
        return Err(TypeError);
      }
      OneSubmit(controls);
      controls := WithoutSubmit(controls);
      if settings.template.None? {
        return Err(TypeError);
      }
      controls := controls + [Submit];
      r := Ok(());
    }

    /** `makeControls`: append the inputs of the walk; `false` when rendering one throws. */
    method Walk(fields: seq<Entry>, data: Option<Json>, parent: string, condition: Option<Condition>)
      returns (ok: bool)
      modifies this`controls
      ensures var ins := MakeControls(fields, data, parent, condition);
        var k := RenderedPrefix(ins, settings.template);
        ok == (k == |ins|) && controls == old(controls) + ins[..k]
      decreases fields, 1
    {
      ghost var t := settings.template;
      var i := 0;
      while i < |fields|
        invariant 0 <= i <= |fields|
        invariant var ins := MakeControls(fields[..i], data, parent, condition);
          RenderedPrefix(ins, t) == |ins| && controls == old(controls) + ins
      {
        var more := WalkEntry(fields[i], data, parent, condition);
        WalkStep(old(controls), fields, i, data, parent, condition, t, controls);
        if !more {
          return false;
        }
        i := i + 1;
      }
      ghost var all := MakeControls(fields, data, parent, condition);
      assert fields[..|fields|] == fields;
      assert all[..|all|] == all;
      ok := true;
    }

    /** The `$.each` callback of `makeControls`: walk a group, or render an admitted leaf. */
    method WalkEntry(e: Entry, data: Option<Json>, parent: string, condition: Option<Condition>)
      returns (ok: bool)
      modifies this`controls
      ensures var ins := EntryControls(e, data, parent, condition);
        var k := RenderedPrefix(ins, settings.template);
        ok == (k == |ins|) && controls == old(controls) + ins[..k]
      decreases e, 0
    {
      var name := Id(parent, e.key, Dot);
      match e.field {
        case Group(vs) =>
          ok := Walk(vs, GroupData(data, e.key), name, condition);
        case Leaf(_, title, _, _) =>
          ok := true;
          if Admits(condition, e.key, e.field) {
            var input := InputOf(data, e.key, name, e.field);
            assert [input][1..] == [];
            if title.None? || title.value.JNull? || settings.template.None? {
              return false;
            }
            controls := controls + [input];
          }
      }
    }
  }
}
