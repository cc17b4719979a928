/**
 * The data logic of the jQuery/Bootstrap form builder `$.fn.form`: ids are
 * the schema keys joined with "-", field values are read from a nested data
 * object by id, the form's controls are rebuilt into such an object, and
 * validation marks the required controls that are empty and visible.
 */
module JqueryForm {
  import opened Wrappers
  import opened JsonValue
  import opened NestedJson
  import opened FormSchema
  import opened HtmlEscape

  /** The separator of ids and of the names the controls carry. */
  const Dash := '-'

  // ---------------------------------------------------------------------
  // The arguments of `$.fn.form(schema, data, callback)`
  // ---------------------------------------------------------------------

  /** An argument as the caller passes it: absent, a function (told apart by a tag), or a plain value. */
  datatype Arg<T> = Undefined | Fn(tag: nat) | Val(v: T)

  predicate ArgTruthy(a: Arg<Json>)
  {
    a.Fn? || (a.Val? && Truthy(a.v))
  }

  /**
   * The callback the form ends up with: a falsy callback gives way to a
   * function passed as data, and then, when data is falsy too, to a
   * function passed as schema.
   */
  function ResolveCallback(schema: Arg<seq<Entry>>, data: Arg<Json>, callback: Arg<Json>): (r: Arg<Json>)
    ensures r == callback || r == data || (schema.Fn? && r == Fn(schema.tag))
    ensures ArgTruthy(callback) ==> r == callback
    ensures r != callback ==> r.Fn? && !ArgTruthy(callback)
    ensures !ArgTruthy(callback) && data.Fn? ==> r == data
    ensures !ArgTruthy(callback) && !ArgTruthy(data) && schema.Fn? ==> r == Fn(schema.tag)
    ensures !ArgTruthy(callback) && ArgTruthy(data) && !data.Fn? ==> r == callback
  {
    var cb := if !ArgTruthy(callback) && data.Fn? then data else callback;
    if !ArgTruthy(data) && !ArgTruthy(cb) && schema.Fn? then Fn(schema.tag) else cb
  }

  /** The schema the form renders: a function or nothing has no fields to walk. */
  function SchemaOf(schema: Arg<seq<Entry>>): seq<Entry>
  {
    if schema.Val? then schema.v else []
  }

  /** The data the form renders from: a function passed as data is read as no data. */
  function DataOf(data: Arg<Json>): Option<Json>
  {
    if data.Val? then Some(data.v) else None
  }

  // ---------------------------------------------------------------------
  // getFieldValue
  // ---------------------------------------------------------------------

  /** `undefined` in place of `null`. */
  function Defined(x: Option<Json>): Option<Json>
  {
    if x == Some(JNull) then None else x
  }

  /**
   * The value at a dash-separated id: the first part is looked up in the
   * data and the rest of the id in what it holds; missing data at any level
   * and a `null` leaf give `undefined`.
   */
  function GetFieldValue(field: string, data: Option<Json>): (r: Option<Json>)
    ensures r != Some(JNull)
    ensures r.Some? ==> TruthyOpt(data)
    decreases |field|
  {
    var path := Split(field, Dash);
    if |path| > 1 then
      SplitTail(field, Dash);
      if TruthyOpt(data) then GetFieldValue(Join(path[1..], Dash), Prop(data.value, path[0])) else None
    else
      if TruthyOpt(data) && Prop(data.value, field) != Some(JNull) then Prop(data.value, field) else None
  }

  /** Reading `a-rest` is reading `rest` in what `a` holds. */
  lemma GetFieldValueCons(a: string, rest: string, data: Option<Json>)
    requires Dash !in a
    ensures GetFieldValue(a + [Dash] + rest, data) ==
      if TruthyOpt(data) then GetFieldValue(rest, Prop(data.value, a)) else None
  {
    var field := a + [Dash] + rest;
    SplitPrefix(a, rest, Dash);
    var path := Split(field, Dash);
    assert path[1..] == Split(rest, Dash);
    JoinSplit(rest, Dash);
  }

  /** A single key reads the key itself. */
  lemma GetFieldValueOne(a: string, data: Option<Json>)
    requires Dash !in a
    ensures GetFieldValue(a, data) ==
      if TruthyOpt(data) then Defined(Prop(data.value, a)) else None
  {
  }

  /**
   * Along a path whose every proper prefix holds an object, reading the
   * joined id gives what the path holds, `null` read as `undefined`.
   */
  lemma {:induction false} GetFieldValueAt(o: Json, p: Path)
    requires o.JObj? && p != [] && NoSep(p, Dash)
    requires forall k :: 0 <= k < |p| ==> IsObjAt(o, p[..k])
    ensures GetFieldValue(Join(p, Dash), Some(o)) == Defined(At(o, p))
    decreases |p|
  {
    assert Dash !in p[0];
    if |p| == 1 {
      GetFieldValueOne(p[0], Some(o));
      AtOne(o, p[0]);
    } else {
      GetFieldValueCons(p[0], Join(p[1..], Dash), Some(o));
      assert p[..1] == [p[0]];
      AtOne(o, p[0]);
      var c := Get(o.fields, p[0]).value;
      AtCons(o, p[0], c, p[1..]);
      assert [p[0]] + p[1..] == p;
      forall k | 0 <= k < |p[1..]|
        ensures IsObjAt(c, p[1..][..k])
      {
        AtStep(o, p, c, k);
      }
      assert NoSep(p[1..], Dash) by {
        forall i | 0 <= i < |p[1..]| ensures Dash !in p[1..][i] { assert p[1..][i] == p[i + 1]; }
      }
      GetFieldValueAt(c, p[1..]);
    }
  }

  // ---------------------------------------------------------------------
  // toJSON
  // ---------------------------------------------------------------------

  /** `typeof v` is "object" (an object, an array or null) or "boolean". */
  predicate ObjectOrBoolean(v: Json)
  {
    v.JObj? || v.JArr? || v.JNull? || v.JBool?
  }

  /**
   * A control's value after coercion: what `parse` (the JSON parser, `None`
   * when it throws) makes of it when that is an object or a boolean, the
   * string itself otherwise.
   */
  function Coerce(value: string, parse: string -> Option<Json>): (r: Json)
    ensures r.JStr? ==> r == JStr(value) || parse(value) == Some(r)
    ensures r != JStr(value) ==> parse(value) == Some(r) && ObjectOrBoolean(r)
    ensures (forall n :: parse(value) != Some(JNum(n))) || r == JStr(value)
    ensures parse(value).None? ==> r == JStr(value)
    ensures parse(value).Some? && ObjectOrBoolean(parse(value).value) ==> r == parse(value).value
  {
    match parse(value)
    case Some(v) => if ObjectOrBoolean(v) then v else JStr(value)
    case None => JStr(value)
  }

  /** The serialized pairs with their values coerced. */
  function Coerced(pairs: seq<(string, string)>, parse: string -> Option<Json>): (r: seq<(string, Json)>)
    ensures |r| == |pairs|
    ensures forall i :: 0 <= i < |r| ==> r[i] == (pairs[i].0, Coerce(pairs[i].1, parse))
  {
    seq(|pairs|, i requires 0 <= i < |pairs| => (pairs[i].0, Coerce(pairs[i].1, parse)))
  }

  /** The values the rebuild gathers for a name are the strings given for it, each coerced, in order. */
  lemma {:induction false} CoercedValues(pairs: seq<(string, string)>, parse: string -> Option<Json>, name: string)
    ensures var vs := ValuesOf(Coerced(pairs, parse), name); var g := Given(pairs, name);
      |vs| == |g| && forall j :: 0 <= j < |g| ==> vs[j] == Coerce(g[j], parse)
    decreases |pairs|
  {
    if pairs != [] {
      var init := pairs[..|pairs| - 1];
      var cs := Coerced(pairs, parse);
      assert cs[..|cs| - 1] == Coerced(init, parse);
      CoercedValues(init, parse, name);
    }
  }

  /**
   * Reading back a rebuilt object: when no name's path is a proper prefix of
   * another's, every name reads its expected value (the last one, or the
   * array of all of them for a multi-valued control), and every dash-prefix
   * of a name holds an object.
   */
  lemma ReadBack(pairs: seq<(string, Json)>, multi: string -> bool)
    requires PrefixFree(pairs, Dash)
    ensures Build(pairs, Dash, multi).Ok?
    ensures forall i :: 0 <= i < |pairs| ==>
      GetFieldValue(pairs[i].0, Some(Build(pairs, Dash, multi).value)) == Defined(Expected(pairs, pairs[i].0, multi(pairs[i].0)))
    ensures forall i, k :: 0 <= i < |pairs| && 0 <= k < |Split(pairs[i].0, Dash)| ==>
      IsObjAt(Build(pairs, Dash, multi).value, Split(pairs[i].0, Dash)[..k])
  {
    BuildLookup(pairs, Dash, multi);
    var o := Build(pairs, Dash, multi).value;
    forall i | 0 <= i < |pairs|
      ensures GetFieldValue(pairs[i].0, Some(o)) == Defined(Expected(pairs, pairs[i].0, multi(pairs[i].0)))
    {
      JoinSplit(pairs[i].0, Dash);
      GetFieldValueAt(o, Split(pairs[i].0, Dash));
    }
  }

  /**
   * `toJSON`: each serialized pair, coerced, walked into one object; `multi`
   * says whether the control of that name is `multiple` or a checkbox.
   */
  method ToJSON(pairs: seq<(string, string)>, multi: string -> bool, parse: string -> Option<Json>)
    returns (r: Result<Json, PathError>)
    ensures r == Build(Coerced(pairs, parse), Dash, multi)
  {
    r := Rebuild(Coerced(pairs, parse), Dash, multi);
  }

  // ---------------------------------------------------------------------
  // throwErrors
  // ---------------------------------------------------------------------

  /** Why a JavaScript operation throws. */
  datatype JsError =
    | RebuildFailed(e: PathError)  // `toJSON` failed
    | NullLength                   // `errors[i].length` on a `null` error entry
    | NotCallable                  // the callback to run is not a function

  /** One `throwError` call: the control marked and, for a string message, its tooltip. */
  datatype Mark = Mark(id: string, tooltip: Option<string>)

  function Tooltip(text: Json): Option<string>
  {
    if text.JStr? then Some(text.s) else None
  }

  /** The number of keys `for (i in errors)` visits: object keys, array or string indices. */
  function KeyCount(e: Json): nat
  {
    match e
    case JObj(fs) => |fs|
    case JArr(xs) => |xs|
    case JStr(s) => |s|
    case _ => 0
  }

  /** The `i`-th key `for (i in errors)` visits. */
  function KeyAt(e: Json, i: nat): string
    requires i < KeyCount(e)
  {
    if e.JObj? then e.fields[i].0 else NatToString(i)
  }

  function DigitChar(d: nat): char
    requires d < 10
  {
    "0123456789"[d]
  }

  /** The decimal form of an index. */
  function NatToString(n: nat): string
    decreases n
  {
    if n < 10 then [DigitChar(n)] else NatToString(n / 10) + [DigitChar(n % 10)]
  }

  /** The decimal form of an index is a canonical array index that reads back as the index. */
  lemma {:induction false} NatToStringIndex(n: nat)
    ensures ArrayIndex(NatToString(n)) == Some(n)
  {
    NatToStringDigits(n);
  }

  lemma {:induction false} NatToStringDigits(n: nat)
    ensures var s := NatToString(n);
      && s != [] && (forall i :: 0 <= i < |s| ==> IsDigit(s[i]))
      && (n > 0 ==> s[0] != '0') && DecimalValue(s) == n
    decreases n
  {
    var s := NatToString(n);
    if n < 10 {
      DigitValue(n);
      assert s[..0] == [];
    } else {
      NatToStringDigits(n / 10);
      DigitValue(n % 10);
      assert s[..|s| - 1] == NatToString(n / 10);
    }
  }

  lemma DigitValue(d: nat)
    requires d < 10
    ensures IsDigit(DigitChar(d)) && DigitChar(d) as int - '0' as int == d
  {
    if d == 0 {} else if d == 1 {} else if d == 2 {} else if d == 3 {} else if d == 4 {}
    else if d == 5 {} else if d == 6 {} else if d == 7 {} else if d == 8 {} else {}
  }

  /**
   * Each key `for (i in errors)` visits reads, as `errors[i]`, the entry the
   * loop then marks: an object's own value (keys are unique), an array's
   * element, a string's one-character string.
   */
  lemma KeyAtReads(e: Json, i: nat)
    requires i < KeyCount(e) && (e.JObj? ==> UniqueKeys(e.fields))
    ensures e.JObj? ==> Prop(e, KeyAt(e, i)) == Some(e.fields[i].1)
    ensures e.JArr? ==> Prop(e, KeyAt(e, i)) == Some(e.items[i])
    ensures e.JStr? ==> Prop(e, KeyAt(e, i)) == Some(JStr([e.s[i]]))
  {
    if e.JObj? {
      GetUnique(e.fields, i);
    } else {
      NatToStringIndex(i);
      NatToStringDigits(i);
    }
  }

  /** The marks for the error object `errors` under the id prefix `context`. */
  function ThrowErrors(errors: Json, context: string): Result<seq<Mark>, JsError>
    decreases errors, 2, 0
  {
    ThrowFrom(errors, 0, context)
  }

  function ThrowFrom(e: Json, i: nat, context: string): Result<seq<Mark>, JsError>
    requires i <= KeyCount(e)
    decreases e, 1, KeyCount(e) - i
  {
    if i == KeyCount(e) then Ok([])
    else
      match ThrowKey(e, i, context)
      case Err(x) => Err(x)
      case Ok(m) =>
        match ThrowFrom(e, i + 1, context)
        case Err(x) => Err(x)
        case Ok(ms) => Ok(m + ms)
  }

  /** One key of the loop: an array or string value marks its id once per element, anything else recurses. */
  function ThrowKey(e: Json, i: nat, context: string): Result<seq<Mark>, JsError>
    requires i < KeyCount(e)
    decreases e, 0, 0
  {
    var id := Id(context, KeyAt(e, i), Dash);
    match e
    case JStr(s) => Ok([Mark(id, Some([s[i]]))])
    case JArr(xs) => ThrowValue(xs[i], id)
    case JObj(fs) => ThrowValue(fs[i].1, id)
  }

  function ThrowValue(x: Json, id: string): Result<seq<Mark>, JsError>
    decreases x, 3, 0
  {
    match x
    case JNull => Err(NullLength)
    case JArr(ms) => Ok(seq(|ms|, j requires 0 <= j < |ms| => Mark(id, Tooltip(ms[j]))))
    case JStr(t) => Ok(seq(|t|, j requires 0 <= j < |t| => Mark(id, Some([t[j]]))))
    case _ => ThrowErrors(x, id)
  }

  /** Every object on the way down has unique keys that are non-empty and free of dashes. */
  predicate PlainErrors(e: Json)
    decreases e
  {
    e.JObj? ==>
      UniqueKeys(e.fields) &&
      forall i :: 0 <= i < |e.fields| ==>
        e.fields[i].0 != "" && Dash !in e.fields[i].0 && PlainErrors(e.fields[i].1)
  }

  /**
   * A mark points at its messages: its id reads, in the error object, the
   * array (or string) one of whose elements is the mark's message.
   */
  predicate Locates(root: Json, m: Mark)
  {
    match GetFieldValue(m.id, Some(root))
    case Some(JArr(ms)) => exists j :: 0 <= j < |ms| && m.tooltip == Tooltip(ms[j])
    case Some(JStr(t)) => exists j :: 0 <= j < |t| && m.tooltip == Some([t[j]])
    case _ => false
  }

  /** The object `x` sits at path `p` of `root`, and the path is one of plain keys through objects. */
  predicate Below(root: Json, p: Path, x: Json)
  {
    && root.JObj? && NoSep(p, Dash)
    && (forall i :: 0 <= i < |p| ==> p[i] != "")
    && At(root, p) == Some(x)
    && (forall k :: 0 <= k < |p| ==> IsObjAt(root, p[..k]))
  }

  /**
   * Flattening an error object: every mark it produces names a control
   * whose id reads, in the error object, the array or string holding the
   * mark's message.
   */
  lemma ThrowErrorsLocate(errors: Json, marks: seq<Mark>)
    requires errors.JObj? && PlainErrors(errors)
    requires ThrowErrors(errors, "") == Ok(marks)
    ensures forall m :: m in marks ==> Locates(errors, m)
  {
    ThrowFromLocates(errors, [], errors, 0);
  }

  lemma {:induction false} ThrowFromLocates(root: Json, p: Path, x: Json, i: nat)
    requires Below(root, p, x) && x.JObj? && PlainErrors(x) && i <= |x.fields|
    requires ThrowFrom(x, i, Join(p, Dash)).Ok?
    ensures forall m :: m in ThrowFrom(x, i, Join(p, Dash)).value ==> Locates(root, m)
    decreases x, |x.fields| - i
  {
    if i < |x.fields| {
      ThrowKeyLocates(root, p, x, i);
      ThrowFromLocates(root, p, x, i + 1);
    }
  }

  lemma {:induction false} ThrowKeyLocates(root: Json, p: Path, x: Json, i: nat)
    requires Below(root, p, x) && x.JObj? && PlainErrors(x) && i < |x.fields|
    requires ThrowKey(x, i, Join(p, Dash)).Ok?
    ensures forall m :: m in ThrowKey(x, i, Join(p, Dash)).value ==> Locates(root, m)
    decreases x, 0
  {
    var (k, v) := x.fields[i];
    var q := p + [k];
    HeadId(p, Join(p, Dash), k, Dash);
    GetUnique(x.fields, i);
    AtSnoc(root, p, k);
    assert Below(root, q, v) by {
      forall j | 0 <= j < |q| ensures q[j] != "" && Dash !in q[j] {
        if j < |p| { assert q[j] == p[j]; }
      }
      forall j | 0 <= j < |q| ensures IsObjAt(root, q[..j]) {
        assert q[..j] == p[..j] || j == |p|;
        if j == |p| { assert q[..j] == p; }
      }
    }
    GetFieldValueAt(root, q);
    assert ThrowKey(x, i, Join(p, Dash)) == ThrowValue(v, Join(q, Dash));
    match v
    case JArr(ms) =>
      forall m | m in ThrowKey(x, i, Join(p, Dash)).value ensures Locates(root, m) {
        var j :| 0 <= j < |ms| && m == Mark(Join(q, Dash), Tooltip(ms[j]));
      }
    case JStr(t) =>
      forall m | m in ThrowKey(x, i, Join(p, Dash)).value ensures Locates(root, m) {
        var j :| 0 <= j < |t| && m == Mark(Join(q, Dash), Some([t[j]]));
      }
    case JObj(_) =>
      assert ThrowValue(v, Join(q, Dash)) == ThrowFrom(v, 0, Join(q, Dash));
      ThrowFromLocates(root, q, v, 0);
    case JNum(_) =>
      assert ThrowFrom(v, 0, Join(q, Dash)) == Ok([]);
    case JBool(_) =>
      assert ThrowValue(v, Join(q, Dash)) == ThrowErrors(v, Join(q, Dash));
      assert ThrowFrom(v, 0, Join(q, Dash)) == Ok([]);
  }

  /** The loop from the `i`-th key on includes the marks of every later key. */
  lemma {:induction false} ThrowFromHas(e: Json, i: nat, idx: nat, context: string)
    requires i <= idx < KeyCount(e) && ThrowFrom(e, i, context).Ok?
    ensures ThrowKey(e, idx, context).Ok?
    ensures forall m :: m in ThrowKey(e, idx, context).value ==> m in ThrowFrom(e, i, context).value
    decreases idx - i
  {
    if i < idx {
      ThrowFromHas(e, i + 1, idx, context);
    }
  }

  /**
   * Flattening an error object misses nothing: for every array of messages
   * reached along a path of non-empty keys through objects, each message is
   * marked on the control whose id is that path joined with "-".
   */
  lemma ThrowErrorsComplete(errors: Json, p: Path, ms: seq<Json>)
    requires errors.JObj? && p != [] && (forall i :: 0 <= i < |p| ==> p[i] != "")
    requires forall k :: 0 <= k < |p| ==> IsObjAt(errors, p[..k])
    requires At(errors, p) == Some(JArr(ms))
    requires ThrowErrors(errors, "").Ok?
    ensures forall j :: 0 <= j < |ms| ==> Mark(Join(p, Dash), Tooltip(ms[j])) in ThrowErrors(errors, "").value
  {
    ThrowComplete(errors, [], p, ms);
    assert [] + p == p;
  }

  lemma {:induction false} ThrowComplete(x: Json, c: Path, p: Path, ms: seq<Json>)
    requires x.JObj? && p != []
    requires (forall i :: 0 <= i < |c| ==> c[i] != "") && (forall i :: 0 <= i < |p| ==> p[i] != "")
    requires forall k :: 0 <= k < |p| ==> IsObjAt(x, p[..k])
    requires At(x, p) == Some(JArr(ms))
    requires ThrowFrom(x, 0, Join(c, Dash)).Ok?
    ensures forall j :: 0 <= j < |ms| ==> Mark(Join(c + p, Dash), Tooltip(ms[j])) in ThrowFrom(x, 0, Join(c, Dash)).value
    decreases |p|, 1
  {
    var k := p[0];
    assert p[..1] == [k];
    AtOne(x, k);
    var v := Get(x.fields, k).value;
    var idx :| 0 <= idx < |x.fields| && x.fields[idx] == (k, v);
    ThrowFromHas(x, 0, idx, Join(c, Dash));
    AtCons(x, k, v, p[1..]);
    assert [k] + p[1..] == p;
    forall i | 0 <= i < |p| - 1
      ensures IsObjAt(v, p[1..][..i])
    {
      AtStep(x, p, v, i);
    }
    ThrowKeyComplete(x, idx, c, p, ms);
  }

  /** `ThrowComplete` for the key that starts the path. */
  lemma {:induction false} ThrowKeyComplete(x: Json, idx: nat, c: Path, p: Path, ms: seq<Json>)
    requires x.JObj? && p != [] && idx < |x.fields| && x.fields[idx].0 == p[0]
    requires (forall i :: 0 <= i < |c| ==> c[i] != "") && (forall i :: 0 <= i < |p| ==> p[i] != "")
    requires forall k :: 0 <= k < |p| - 1 ==> IsObjAt(x.fields[idx].1, p[1..][..k])
    requires At(x.fields[idx].1, p[1..]) == Some(JArr(ms))
    requires ThrowKey(x, idx, Join(c, Dash)).Ok?
    ensures forall j :: 0 <= j < |ms| ==> Mark(Join(c + p, Dash), Tooltip(ms[j])) in ThrowKey(x, idx, Join(c, Dash)).value
    decreases |p|, 0
  {
    var k := p[0];
    var v := x.fields[idx].1;
    HeadId(c, Join(c, Dash), k, Dash);
    var id := Join(c + [k], Dash);
    assert ThrowKey(x, idx, Join(c, Dash)) == ThrowValue(v, id);
    if |p| == 1 {
      assert p[1..] == [] && p == [k];
      assert v == JArr(ms);
      var marks := ThrowValue(v, id).value;
      forall j | 0 <= j < |ms|
        ensures Mark(Join(c + p, Dash), Tooltip(ms[j])) in marks
      {
        assert marks[j] == Mark(id, Tooltip(ms[j]));
      }
    } else {
      assert p[1..][..0] == [];
      assert v.JObj?;
      assert ThrowValue(v, id) == ThrowFrom(v, 0, id);
      ThrowComplete(v, c + [k], p[1..], ms);
      assert c + [k] + p[1..] == c + p;
    }
  }

  /** An error object of the usual shape: every key holds an array of messages. */
  predicate FlatErrors(fs: seq<(string, Json)>)
  {
    forall i :: 0 <= i < |fs| ==> fs[i].1.JArr?
  }

  /** `ms` holds `m` at position `pos`. */
  predicate MarkedAt(ms: seq<Mark>, pos: int, m: Mark)
  {
    0 <= pos < |ms| && ms[pos] == m
  }

  /** Where the marks of key `i` of a flat error object start: the messages of the keys before it. */
  function Offset(fs: seq<(string, Json)>, i: nat): nat
    requires i <= |fs| && FlatErrors(fs)
  {
    if i == 0 then 0 else Offset(fs, i - 1) + |fs[i - 1].1.items|
  }

  lemma {:induction false} OffsetGrows(fs: seq<(string, Json)>, i: nat, k: nat)
    requires i <= k <= |fs| && FlatErrors(fs)
    ensures Offset(fs, i) <= Offset(fs, k)
    decreases k - i
  {
    if i < k {
      OffsetGrows(fs, i, k - 1);
    }
  }

  /**
   * The marks of a flat error object, in order: one per message, key after
   * key, each naming its key and carrying its message, and nothing else.
   */
  lemma ThrowFlat(fs: seq<(string, Json)>)
    requires FlatErrors(fs)
    ensures ThrowErrors(JObj(fs), "").Ok?
    ensures var ms := ThrowErrors(JObj(fs), "").value;
      && |ms| == Offset(fs, |fs|)
      && forall i, j :: 0 <= i < |fs| && 0 <= j < |fs[i].1.items| ==>
           MarkedAt(ms, Offset(fs, i) + j, Mark(fs[i].0, Tooltip(fs[i].1.items[j])))
  {
    ThrowFlatLength(fs, 0);
    forall i, j | 0 <= i < |fs| && 0 <= j < |fs[i].1.items|
      ensures MarkedAt(ThrowErrors(JObj(fs), "").value, Offset(fs, i) + j, Mark(fs[i].0, Tooltip(fs[i].1.items[j])))
    {
      ThrowFlatAt(fs, 0, i, j);
    }
  }

  /** The marks from key `i` on number the messages from key `i` on. */
  lemma {:induction false} ThrowFlatLength(fs: seq<(string, Json)>, i: nat)
    requires i <= |fs| && FlatErrors(fs)
    ensures ThrowFrom(JObj(fs), i, "").Ok?
    ensures |ThrowFrom(JObj(fs), i, "").value| == Offset(fs, |fs|) - Offset(fs, i)
    decreases |fs| - i
  {
    OffsetGrows(fs, i, |fs|);
    if i < |fs| {
      var e := JObj(fs);
      var items := fs[i].1.items;
      assert ThrowKey(e, i, "") == Ok(seq(|items|, j requires 0 <= j < |items| => Mark(fs[i].0, Tooltip(items[j]))));
      ThrowFlatLength(fs, i + 1);
    }
  }

  /** Message `j` of key `k` is marked at its offset among the marks from key `i` on. */
  lemma {:induction false} ThrowFlatAt(fs: seq<(string, Json)>, i: nat, k: nat, j: nat)
    requires i <= k < |fs| && FlatErrors(fs) && j < |fs[k].1.items|
    ensures ThrowFrom(JObj(fs), i, "").Ok?
    ensures MarkedAt(ThrowFrom(JObj(fs), i, "").value, Offset(fs, k) - Offset(fs, i) + j, Mark(fs[k].0, Tooltip(fs[k].1.items[j])))
    decreases k - i
  {
    var e := JObj(fs);
    var items := fs[i].1.items;
    var head := seq(|items|, j requires 0 <= j < |items| => Mark(fs[i].0, Tooltip(items[j])));
    assert ThrowKey(e, i, "") == Ok(head);
    ThrowFlatLength(fs, i + 1);
    var rest := ThrowFrom(e, i + 1, "").value;
    assert ThrowFrom(e, i, "").value == head + rest;
    if k > i {
      ThrowFlatAt(fs, i + 1, k, j);
      OffsetGrows(fs, i + 1, k);
      assert Offset(fs, i + 1) == Offset(fs, i) + |items|;
      var pos := Offset(fs, k) - Offset(fs, i + 1) + j;
      assert (head + rest)[|head| + pos] == rest[pos];
    }
  }

  // ---------------------------------------------------------------------
  // render
  // ---------------------------------------------------------------------

  /** String values are HTML-escaped before they reach a template; any other value passes as it is. */
  function EscapeValue(v: Option<Json>): (r: Option<Json>)
    ensures r.Some? <==> v.Some?
    ensures r.Some? ==> (r.value.JStr? <==> v.value.JStr?)
    ensures r.Some? && r.value.JStr? ==> |r.value.s| >= |v.value.s| && forall i :: 0 <= i < |r.value.s| ==> r.value.s[i] !in "<>\"'/"
    ensures !(v.Some? && v.value.JStr?) ==> r == v
  {
    match v
    case Some(JStr(s)) => Some(JStr(Escape(s)))
    case _ => v
  }

  /** What a browser reads back from an escaped value written into the page. */
  function Decoded(v: Option<Json>): Option<Json>
  {
    match v
    case Some(JStr(s)) => Some(JStr(Unescape(s)))
    case _ => v
  }

  /** Escaping a field value loses nothing: reading it back gives the value itself. */
  lemma EscapeValueDecodes(v: Option<Json>)
    ensures Decoded(EscapeValue(v)) == v
  {
    if v.Some? && v.value.JStr? {
      UnescapeEscape(v.value.s);
    }
  }

  /** What a leaf's template receives: its id, its schema, its escaped value and the template used. */
  datatype Dataset = Dataset(id: string, field: Field, value: Option<Json>, template: string)

  /** A `show_if` expression and the id of the control whose row it shows or hides. */
  datatype Condition = Condition(showIf: string, id: string)

  /** A rendered control: its name (its id) and its current value. */
  datatype Control = Control(name: string, value: Option<Json>)

  /** The template registered for a type, or the text template. */
  function TemplateFor(kind: string, templates: set<string>): (r: string)
    ensures r in templates || r == "text"
    ensures "text" in templates ==> r in templates
    ensures kind in templates ==> r == kind
    ensures kind !in templates ==> r == "text"
  {
    if kind in templates then kind else "text"
  }

  function DatasetOf(l: LeafRef, data: Option<Json>, templates: set<string>): Dataset
  {
    var kind := if l.leaf.Leaf? then l.leaf.kind else "";
    Dataset(l.id, l.leaf, EscapeValue(GetFieldValue(l.id, data)), TemplateFor(kind, templates))
  }

  function Datasets(ls: seq<LeafRef>, data: Option<Json>, templates: set<string>): (r: seq<Dataset>)
    ensures |r| == |ls|
    ensures forall i :: 0 <= i < |ls| ==> r[i] == DatasetOf(ls[i], data, templates)
  {
    seq(|ls|, i requires 0 <= i < |ls| => DatasetOf(ls[i], data, templates))
  }

  function ControlsOf(ls: seq<LeafRef>, data: Option<Json>): (r: seq<Control>)
    ensures |r| == |ls|
    ensures forall i :: 0 <= i < |ls| ==> r[i] == Control(ls[i].id, GetFieldValue(ls[i].id, data))
  {
    seq(|ls|, i requires 0 <= i < |ls| => Control(ls[i].id, GetFieldValue(ls[i].id, data)))
  }

  /** The visibility conditions of the leaves that have a `show_if`, in walk order. */
  function ConditionsOf(ls: seq<LeafRef>): (r: seq<Condition>)
    ensures |r| <= |ls|
    decreases |ls|
  {
    if ls == [] then []
    else
      var init := ls[..|ls| - 1];
      var l := ls[|ls| - 1];
      assert forall i :: 0 <= i < |init| ==> init[i] == ls[i];
      ConditionsOf(init) + (if l.leaf.Leaf? && l.leaf.showIf != "" then [Condition(l.leaf.showIf, l.id)] else [])
  }

  /** A condition is recorded exactly for each leaf that has a `show_if`. */
  lemma {:induction false} ConditionsMembers(ls: seq<LeafRef>)
    ensures forall c :: c in ConditionsOf(ls) <==>
      exists i :: 0 <= i < |ls| && ls[i].leaf.Leaf? && ls[i].leaf.showIf != "" && c == Condition(ls[i].leaf.showIf, ls[i].id)
    decreases |ls|
  {
    if ls != [] {
      var init := ls[..|ls| - 1];
      ConditionsMembers(init);
      assert forall i :: 0 <= i < |init| ==> init[i] == ls[i];
    }
  }

  lemma {:induction false} ConditionsAppend(a: seq<LeafRef>, b: seq<LeafRef>)
    ensures ConditionsOf(a + b) == ConditionsOf(a) + ConditionsOf(b)
    decreases |b|
  {
    if b == [] {
      assert a + b == a;
    } else {
      var b' := b[..|b| - 1];
      assert (a + b)[..|a + b| - 1] == a + b';
      assert (a + b)[|a + b| - 1] == b[|b| - 1];
      ConditionsAppend(a, b');
    }
  }

  /** The walk's output over a list that grows by one schema entry. */
  lemma WalkGrows(s: seq<Entry>, i: nat, parent: string, data: Option<Json>, templates: set<string>)
    requires i < |s|
    ensures var ls := Leaves(s[..i], parent, Dash); var more := Leaves([s[i]], parent, Dash);
      && Leaves(s[..i + 1], parent, Dash) == ls + more
      && Datasets(ls + more, data, templates) == Datasets(ls, data, templates) + Datasets(more, data, templates)
      && ControlsOf(ls + more, data) == ControlsOf(ls, data) + ControlsOf(more, data)
      && ConditionsOf(ls + more) == ConditionsOf(ls) + ConditionsOf(more)
  {
    assert s[..i + 1] == s[..i] + [s[i]];
    LeavesAppend(s[..i], [s[i]], parent, Dash);
    var ls := Leaves(s[..i], parent, Dash);
    var more := Leaves([s[i]], parent, Dash);
    ConditionsAppend(ls, more);
    DatasetsAppend(ls, more, data, templates);
    ControlsAppend(ls, more, data);
  }

  lemma ControlsAppend(a: seq<LeafRef>, b: seq<LeafRef>, data: Option<Json>)
    ensures ControlsOf(a + b, data) == ControlsOf(a, data) + ControlsOf(b, data)
  {
  }

  lemma DatasetsAppend(a: seq<LeafRef>, b: seq<LeafRef>, data: Option<Json>, templates: set<string>)
    ensures Datasets(a + b, data, templates) == Datasets(a, data, templates) + Datasets(b, data, templates)
  {
  }

  /**
   * Rendering a schema whose keys are plain: the `i`-th dataset belongs to
   * the `i`-th leaf of the reference view, its id is that leaf's key path
   * joined with "-", the browser reads back the data's value at that id, and
   * its template is one the form has whenever the text template is registered.
   */
  lemma RenderedDatasets(schema: seq<Entry>, data: Option<Json>, templates: set<string>)
    requires PlainKeys(schema, Dash)
    ensures var ds := Datasets(Leaves(schema, "", Dash), data, templates); var ps := LeafPaths(schema);
      |ds| == |ps| &&
      forall i :: 0 <= i < |ps| ==>
        && ds[i].id == Join(ps[i].0, Dash) && ds[i].field == ps[i].1
        && Decoded(ds[i].value) == GetFieldValue(Join(ps[i].0, Dash), data)
        && ("text" in templates ==> ds[i].template in templates)
  {
    LeafIds(schema, [], "", Dash);
    var ls := Leaves(schema, "", Dash);
    var ps := LeafPaths(schema);
    forall i | 0 <= i < |ps|
      ensures Decoded(EscapeValue(GetFieldValue(ls[i].id, data))) == GetFieldValue(ls[i].id, data)
      ensures ls[i].id == Join(ps[i].0, Dash)
    {
      assert [] + ps[i].0 == ps[i].0;
      EscapeValueDecodes(GetFieldValue(ls[i].id, data));
    }
  }

  /**
   * Rendering a schema whose keys are plain: the `i`-th control belongs to
   * the `i`-th leaf of the reference view, is named by its key path joined
   * with "-" and holds what `getFieldValue` reads at that name.
   */
  lemma RenderedControls(schema: seq<Entry>, data: Option<Json>)
    requires PlainKeys(schema, Dash)
    ensures var cs := ControlsOf(Leaves(schema, "", Dash), data); var ps := LeafPaths(schema);
      |cs| == |ps| &&
      forall i :: 0 <= i < |ps| ==>
        cs[i].name == Join(ps[i].0, Dash) && cs[i].value == GetFieldValue(Join(ps[i].0, Dash), data)
  {
    LeafIds(schema, [], "", Dash);
    var ps := LeafPaths(schema);
    assert forall i :: 0 <= i < |ps| ==> [] + ps[i].0 == ps[i].0;
  }

  // ---------------------------------------------------------------------
  // validate
  // ---------------------------------------------------------------------

  /** A leaf that blocks submission: required, its value falsy, and its `show_if` (if any) holding. */
  predicate Blocks(l: LeafRef, data: Json, visible: (string, Json) -> bool)
  {
    l.leaf.Leaf? && l.leaf.required && !TruthyOpt(GetFieldValue(l.id, Some(data))) &&
    (l.leaf.showIf == "" || visible(l.leaf.showIf, data))
  }

  /** The ids of the blocking leaves among `ls`, in order. */
  function ErrorsAmong(ls: seq<LeafRef>, data: Json, visible: (string, Json) -> bool): (r: seq<string>)
    ensures |r| <= |ls|
    decreases |ls|
  {
    if ls == [] then []
    else
      var init := ls[..|ls| - 1];
      var l := ls[|ls| - 1];
      assert forall i :: 0 <= i < |init| ==> init[i] == ls[i];
      ErrorsAmong(init, data, visible) + (if Blocks(l, data, visible) then [l.id] else [])
  }

  /** An id is collected exactly when some leaf with that id blocks. */
  lemma {:induction false} ErrorsMembers(ls: seq<LeafRef>, data: Json, visible: (string, Json) -> bool)
    ensures forall x :: x in ErrorsAmong(ls, data, visible) <==>
      exists i :: 0 <= i < |ls| && ls[i].id == x && Blocks(ls[i], data, visible)
    decreases |ls|
  {
    if ls != [] {
      var init := ls[..|ls| - 1];
      ErrorsMembers(init, data, visible);
      assert forall i :: 0 <= i < |init| ==> init[i] == ls[i];
    }
  }

  /** With nothing collected, no leaf blocks. */
  lemma NoErrorsNoBlocks(ls: seq<LeafRef>, data: Json, visible: (string, Json) -> bool)
    requires ErrorsAmong(ls, data, visible) == []
    ensures forall l :: l in ls ==> !Blocks(l, data, visible)
  {
    ErrorsMembers(ls, data, visible);
    forall l | l in ls ensures !Blocks(l, data, visible) {
      var i :| 0 <= i < |ls| && ls[i] == l;
      assert l.id !in ErrorsAmong(ls, data, visible);
    }
  }

  lemma {:induction false} ErrorsAppend(a: seq<LeafRef>, b: seq<LeafRef>, data: Json, visible: (string, Json) -> bool)
    ensures ErrorsAmong(a + b, data, visible) == ErrorsAmong(a, data, visible) + ErrorsAmong(b, data, visible)
    decreases |b|
  {
    if b == [] {
      assert a + b == a;
    } else {
      var b' := b[..|b| - 1];
      assert (a + b)[..|a + b| - 1] == a + b';
      assert (a + b)[|a + b| - 1] == b[|b| - 1];
      ErrorsAppend(a, b', data, visible);
    }
  }

  /** The collected errors over a schema list that grows by one entry. */
  lemma ErrorsGrow(s: seq<Entry>, i: nat, parent: string, data: Json, visible: (string, Json) -> bool)
    requires i < |s|
    ensures ErrorsAmong(Leaves(s[..i + 1], parent, Dash), data, visible) ==
      ErrorsAmong(Leaves(s[..i], parent, Dash), data, visible) + ErrorsAmong(Leaves([s[i]], parent, Dash), data, visible)
  {
    assert s[..i + 1] == s[..i] + [s[i]];
    LeavesAppend(s[..i], [s[i]], parent, Dash);
    ErrorsAppend(Leaves(s[..i], parent, Dash), Leaves([s[i]], parent, Dash), data, visible);
  }

  /** The leaves of a single schema entry: those of its group, or the entry itself. */
  lemma LeavesOfEntry(e: Entry, parent: string)
    ensures var id := Id(parent, e.key, Dash);
      Leaves([e], parent, Dash) ==
        match e.field
        case Group(vs) => Leaves(vs, id, Dash)
        case Leaf(_, _, _, _) => [LeafRef(id, e.key, e.field)]
  {
    assert [e][1..] == [];
  }

  /**
   * `checkValide`: walks the schema like `render` and pushes the id of every
   * blocking leaf, so it pushes exactly the blocking leaves of the walk, in order.
   */
  method CheckValide(s: seq<Entry>, parent: string, data: Json, visible: (string, Json) -> bool, errors: seq<string>)
    returns (errors': seq<string>)
    ensures errors' == errors + ErrorsAmong(Leaves(s, parent, Dash), data, visible)
    decreases s, 1
  {
    errors' := errors;
    var i := 0;
    while i < |s|
      invariant 0 <= i <= |s|
      invariant errors' == errors + ErrorsAmong(Leaves(s[..i], parent, Dash), data, visible)
    {
      ghost var done := ErrorsAmong(Leaves(s[..i], parent, Dash), data, visible);
      ghost var now := ErrorsAmong(Leaves([s[i]], parent, Dash), data, visible);
      ErrorsGrow(s, i, parent, data, visible);
      errors' := CheckEntry(s[i], parent, data, visible, errors');
      AppendAssoc(errors, done, now);
      i := i + 1;
    }
    assert s[..|s|] == s;
  }

  /** The `$.each` callback of `checkValide`: recurse into a group, or push a blocking leaf. */
  method CheckEntry(e: Entry, parent: string, data: Json, visible: (string, Json) -> bool, errors: seq<string>)
    returns (errors': seq<string>)
    ensures errors' == errors + ErrorsAmong(Leaves([e], parent, Dash), data, visible)
    decreases e, 0
  {
    var id := Id(parent, e.key, Dash);
    var value := GetFieldValue(id, Some(data));
    LeavesOfEntry(e, parent);
    match e.field {
      case Group(vs) =>
        errors' := CheckValide(vs, id, data, visible, errors);
      case Leaf(_, _, required, showIf) =>
        var l := LeafRef(id, e.key, e.field);
        assert ErrorsAmong([l], data, visible) == if Blocks(l, data, visible) then [id] else [];
        errors' := errors;
        if required && !TruthyOpt(value) && (showIf == "" || visible(showIf, data)) {
          errors' := errors' + [id];
        }
    }
  }

  /** `errors.reverse()`. */
  function Reverse<T>(s: seq<T>): (r: seq<T>)
    ensures |r| == |s|
    ensures forall i :: 0 <= i < |s| ==> r[i] == s[|s| - 1 - i]
  {
    if s == [] then [] else Reverse(s[1..]) + [s[0]]
  }

  /** What a `validate` call ends with: the callback run on the form data, or error marks. */
  datatype Outcome = Called(tag: nat, data: Json) | Marked(marks: seq<Mark>)

  /** The marks for the collected errors: last error first, without tooltips (the text is the loop index). */
  function ErrorMarks(errors: seq<string>): (r: seq<Mark>)
    ensures |r| == |errors|
    ensures forall i :: 0 <= i < |r| ==> r[i] == Mark(errors[|errors| - 1 - i], None)
  {
    var rev := Reverse(errors);
    seq(|rev|, i requires 0 <= i < |rev| => Mark(rev[i], None))
  }

  // ---------------------------------------------------------------------
  // The form object
  // ---------------------------------------------------------------------

  /** The object `$.fn.form` returns: its schema, its callback and what `render` produced. */
  class Form {
    var schema: seq<Entry>
    var callback: Arg<Json>
    var datasets: seq<Dataset>
    var conditions: seq<Condition>
    var controls: seq<Control>
    /** The template types the form knows. */
    const templates: set<string>

    /** `$.fn.form(schema, data, callback)`: settle the callback, then render the schema with the data. */
    constructor (schemaArg: Arg<seq<Entry>>, dataArg: Arg<Json>, callbackArg: Arg<Json>, templates: set<string>)
      ensures this.templates == templates
      ensures callback == ResolveCallback(schemaArg, dataArg, callbackArg)
      ensures schema == SchemaOf(schemaArg)
      ensures var ls := Leaves(schema, "", Dash);
        && datasets == Datasets(ls, DataOf(dataArg), templates)
        && conditions == ConditionsOf(ls)
        && controls == ControlsOf(ls, DataOf(dataArg))
    {
      this.templates := templates;
      callback := ResolveCallback(schemaArg, dataArg, callbackArg);
      schema := [];
      datasets := [];
      conditions := [];
      controls := [];
      new;
      Render(SchemaOf(schemaArg), DataOf(dataArg));
    }

    /** `render`: forget the old controls and conditions and build one control per leaf of the schema. */
    method Render(s: seq<Entry>, data: Option<Json>)
      modifies this
      ensures schema == s && callback == old(callback)
      ensures var ls := Leaves(s, "", Dash);
        && datasets == Datasets(ls, data, templates)
        && conditions == ConditionsOf(ls)
        && controls == ControlsOf(ls, data)
    {
      schema := s;
      datasets := [];
      conditions := [];
      controls := [];
      MakeControls(s, "", data);
    }

    /** `makeControls`: one dataset and control per leaf, and a condition for each leaf with a `show_if`. */
    method MakeControls(s: seq<Entry>, parent: string, data: Option<Json>)
      modifies this`datasets, this`conditions, this`controls
      ensures var ls := Leaves(s, parent, Dash);
        && datasets == old(datasets) + Datasets(ls, data, templates)
        && conditions == old(conditions) + ConditionsOf(ls)
        && controls == old(controls) + ControlsOf(ls, data)
      decreases s, 1
    {
      var i := 0;
      while i < |s|
        invariant 0 <= i <= |s|
        invariant var ls := Leaves(s[..i], parent, Dash);
          && datasets == old(datasets) + Datasets(ls, data, templates)
          && conditions == old(conditions) + ConditionsOf(ls)
          && controls == old(controls) + ControlsOf(ls, data)
      {
        ghost var ls := Leaves(s[..i], parent, Dash);
        ghost var more := Leaves([s[i]], parent, Dash);
        WalkGrows(s, i, parent, data, templates);
        MakeControl(s[i], parent, data);
        AppendAssoc(old(datasets), Datasets(ls, data, templates), Datasets(more, data, templates));
        AppendAssoc(old(conditions), ConditionsOf(ls), ConditionsOf(more));
        AppendAssoc(old(controls), ControlsOf(ls, data), ControlsOf(more, data));
        i := i + 1;
      }
      assert s[..|s|] == s;
    }

    /** The `$.each` callback of `makeControls`: recurse into a group, or render a leaf. */
    method MakeControl(e: Entry, parent: string, data: Option<Json>)
      modifies this`datasets, this`conditions, this`controls
      ensures var ls := Leaves([e], parent, Dash);
        && datasets == old(datasets) + Datasets(ls, data, templates)
        && conditions == old(conditions) + ConditionsOf(ls)
        && controls == old(controls) + ControlsOf(ls, data)
      decreases e, 0
    {
      var id := Id(parent, e.key, Dash);
      LeavesOfEntry(e, parent);
      match e.field {
        case Group(vs) =>
          MakeControls(vs, id, data);
        case Leaf(kind, _, _, showIf) =>
          var l := LeafRef(id, e.key, e.field);
          assert ConditionsOf([l]) == if showIf != "" then [Condition(showIf, id)] else [];
          datasets := datasets + [DatasetOf(l, data, templates)];
          if showIf != "" {
            conditions := conditions + [Condition(showIf, id)];
          }
          controls := controls + [Control(id, GetFieldValue(id, data))];
      }
    }

    /** `set`: every control whose name reads a value in `data` takes it; the others keep theirs. */
    method Set(data: Option<Json>)
      modifies this`controls
      ensures |controls| == |old(controls)|
      ensures forall i :: 0 <= i < |controls| ==>
        && controls[i].name == old(controls[i].name)
        && (GetFieldValue(controls[i].name, data).None? ==> controls[i].value == old(controls[i].value))
        && (GetFieldValue(controls[i].name, data).Some? ==> controls[i].value == GetFieldValue(controls[i].name, data))
    {
      var i := 0;
      while i < |controls|
        invariant 0 <= i <= |controls| && |controls| == |old(controls)|
        invariant forall j :: i <= j < |controls| ==> controls[j] == old(controls[j])
        invariant forall j :: 0 <= j < i ==>
          && controls[j].name == old(controls[j].name)
          && (GetFieldValue(controls[j].name, data).None? ==> controls[j].value == old(controls[j].value))
          && (GetFieldValue(controls[j].name, data).Some? ==> controls[j].value == GetFieldValue(controls[j].name, data))
      {
        var value := GetFieldValue(controls[i].name, data);
        if value.Some? {
          controls := controls[i := controls[i].(value := value)];
        }
        i := i + 1;
      }
    }

    /**
     * `validate`: rebuild the data, collect the blocking leaves, then run the
     * callback (the argument when it is a function, the form's own otherwise)
     * when there are none, or mark them, last first. The result is always `false`.
     */
    method Validate(selfCallback: Arg<Json>, pairs: seq<(string, string)>, multi: string -> bool,
                    parse: string -> Option<Json>, visible: (string, Json) -> bool)
      returns (ret: bool, outcome: Result<Outcome, JsError>)
      ensures !ret
      ensures var data := Build(Coerced(pairs, parse), Dash, multi);
        && (data.Err? ==> outcome == Err(RebuildFailed(data.error)))
        && (data.Ok? ==>
              var errors := ErrorsAmong(Leaves(schema, "", Dash), data.value, visible);
              var run := if selfCallback.Fn? then selfCallback else callback;
              && (errors != [] ==> outcome == Ok(Marked(ErrorMarks(errors))))
              && (errors == [] && run.Fn? ==> outcome == Ok(Called(run.tag, data.value)))
              && (errors == [] && !run.Fn? ==> outcome == Err(NotCallable)))
      ensures outcome.Ok? && outcome.value.Called? ==>
        forall l :: l in Leaves(schema, "", Dash) ==> !Blocks(l, outcome.value.data, visible)
    {
      ret := false;
      var data := ToJSON(pairs, multi, parse);
      if data.Err? {
        return false, Err(RebuildFailed(data.error));
      }
      ghost var ls := Leaves(schema, "", Dash);
      var errors := CheckValide(schema, "", data.value, visible, []);
      assert errors == ErrorsAmong(ls, data.value, visible);
      var run := if selfCallback.Fn? then selfCallback else callback;
      if errors != [] {
        outcome := Ok(Marked(ErrorMarks(errors)));
      } else if run.Fn? {
        NoErrorsNoBlocks(ls, data.value, visible);
        outcome := Ok(Called(run.tag, data.value));
      } else {
        outcome := Err(NotCallable);
      }
    }
  }
}
