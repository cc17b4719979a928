/**
 * The nested-object rebuild shared by both `toJSON` implementations: a name
 * split into a path, a cursor walked down from the root object creating
 * `{}` wherever the current value is falsy, then the last step assigned
 * (or, for a multi-valued control, pushed onto an array).
 */
module NestedJson {
  import opened Wrappers
  import opened JsonValue

  /** Why a walk cannot continue (JavaScript would assign into a non-object). */
  datatype PathError =
    | PrimitiveOnPath  // a truthy string, number or boolean: a TypeError in strict mode
    | ArrayOnPath      // an array: JavaScript would add a named property to it
    | PushNotCallable  // a multi-valued control meets an object with a truthy `push` key: calling it is a TypeError

  predicate IsPrefix(p: Path, q: Path)
  {
    |p| <= |q| && q[..|p|] == p
  }

  /** Neither path is a prefix of the other. */
  predicate Diverge(p: Path, q: Path)
  {
    !IsPrefix(p, q) && !IsPrefix(q, p)
  }

  /** The value reached from `o` by following `p` through objects only. */
  function At(o: Json, p: Path): Option<Json>
    decreases |p|
  {
    if p == [] then Some(o)
    else if !o.JObj? then None
    else match Get(o.fields, p[0])
      case None => None
      case Some(c) => At(c, p[1..])
  }

  predicate IsObjAt(o: Json, p: Path)
  {
    At(o, p).Some? && At(o, p).value.JObj?
  }

  /** A value a walk can step into: nothing, something falsy (replaced by `{}`), or an object. */
  predicate Passable(x: Option<Json>)
  {
    !TruthyOpt(x) || x.value.JObj?
  }

  /** The cursor after `if (!obj[k]) { obj[k] = {}; }`. */
  function Normalize(x: Option<Json>): Json
  {
    if TruthyOpt(x) then x.value else JObj([])
  }

  /** What the last step stores: the value, or the current array with the value pushed. */
  function NewLeaf(x: Json, v: Json, multi: bool): Json
  {
    if !multi then v
    else if x.JArr? then JArr(x.items + [v])
    else JArr([v])
  }

  /** The last step of a multi-valued control calls `x.push`, which a JSON value can only hold as data. */
  predicate PushFails(x: Json, multi: bool)
  {
    multi && x.JObj? && TruthyOpt(Get(x.fields, "push"))
  }

  function CursorError(x: Json): PathError
  {
    if x.JArr? then ArrayOnPath else PrimitiveOnPath
  }

  /** One `(name, value)` pair stored into the object `o` along the path `p`. */
  function Assign(o: Json, p: Path, v: Json, multi: bool): (r: Result<Json, PathError>)
    requires p != []
    ensures r.Ok? ==> r.value.JObj?
    decreases |p|, 1
  {
    if !o.JObj? then Err(CursorError(o))
    else Lift(o.fields, p[0], Descend(Normalize(Get(o.fields, p[0])), p, v, multi))
  }

  /** What the cursor `child` at `p[0]` becomes: the new leaf, or the rest of the walk below it. */
  function Descend(child: Json, p: Path, v: Json, multi: bool): Result<Json, PathError>
    requires p != []
    decreases |p|, 0
  {
    if |p| > 1 then Assign(child, p[1..], v, multi)
    else if PushFails(child, multi) then Err(PushNotCallable)
    else Ok(NewLeaf(child, v, multi))
  }

  /** Store a successful result at key `k`. */
  function Lift(fs: seq<(string, Json)>, k: string, c: Result<Json, PathError>): (r: Result<Json, PathError>)
    ensures r.Ok? ==> r.value.JObj?
  {
    match c
    case Ok(c) => Ok(JObj(Set(fs, k, c)))
    case Err(e) => Err(e)
  }

  /** Every pair of `pairs`, in order, stored into an initially empty object. */
  function Build(pairs: seq<(string, Json)>, sep: char, multi: string -> bool): (r: Result<Json, PathError>)
    ensures r.Ok? ==> r.value.JObj?
  {
    if pairs == [] then Ok(JObj([]))
    else
      match Build(pairs[..|pairs| - 1], sep, multi)
      case Err(e) => Err(e)
      case Ok(o) =>
        var last := pairs[|pairs| - 1];
        Assign(o, Split(last.0, sep), last.1, multi(last.0))
  }

  // ---------------------------------------------------------------------
  // Paths
  // ---------------------------------------------------------------------

  lemma AtCons(o: Json, k: string, c: Json, q: Path)
    requires o.JObj? && Get(o.fields, k) == Some(c)
    ensures At(o, [k] + q) == At(c, q)
  {
    assert ([k] + q)[1..] == q;
  }

  lemma AtOne(o: Json, k: string)
    ensures At(o, [k]) == if o.JObj? then Get(o.fields, k) else None
  {
    assert [k][1..] == [];
  }

  /** A prefix of `p` seen from the child at `p[0]`. */
  lemma AtStep(o: Json, p: Path, c: Json, i: nat)
    requires p != [] && o.JObj? && Get(o.fields, p[0]) == Some(c) && i < |p|
    ensures At(o, p[..i + 1]) == At(c, p[1..][..i])
  {
    assert p[..i + 1] == [p[0]] + p[1..][..i];
    AtCons(o, p[0], c, p[1..][..i]);
  }

  /** Following a path one key further. */
  lemma {:induction false} AtSnoc(o: Json, p: Path, k: string)
    ensures At(o, p + [k]) == if IsObjAt(o, p) then Get(At(o, p).value.fields, k) else None
    decreases |p|
  {
    if p == [] {
      assert [] + [k] == [k];
      assert [k][1..] == [];
    } else if o.JObj? && Get(o.fields, p[0]).Some? {
      var c := Get(o.fields, p[0]).value;
      assert (p + [k])[1..] == p[1..] + [k];
      AtSnoc(c, p[1..], k);
    }
  }

  /** Two paths with the same first key compare like their tails. */
  lemma ConsPrefix(p: Path, q: Path)
    requires p != [] && q != [] && p[0] == q[0]
    ensures |p| == 1 ==> IsPrefix(p, q)
    ensures IsPrefix(p[1..], q[1..]) ==> IsPrefix(p, q)
  {
    assert |p| == 1 ==> q[..1] == p;
    if IsPrefix(p[1..], q[1..]) {
      assert q[..|p|] == [q[0]] + q[1..][..|p| - 1];
    }
  }

  lemma PrefixTrans(a: Path, b: Path, c: Path)
    ensures IsPrefix(a, b) && IsPrefix(b, c) ==> IsPrefix(a, c)
  {
    if IsPrefix(a, b) && IsPrefix(b, c) {
      assert c[..|a|] == c[..|b|][..|a|];
    }
  }

  // ---------------------------------------------------------------------
  // What one assignment does
  // ---------------------------------------------------------------------

  /**
   * The assignment succeeds exactly when every value strictly inside the path
   * can be stepped into and the last step is not a call of a data `push`.
   */
  lemma AssignOkIff(o: Json, p: Path, v: Json, multi: bool)
    requires o.JObj? && p != []
    ensures Assign(o, p, v, multi).Ok? <==>
      (forall k :: 1 <= k < |p| ==> Passable(At(o, p[..k]))) && !PushFails(Normalize(At(o, p)), multi)
  {
    WalkOkIff(o, p, v);
    PushOkIff(o, p, v, multi);
  }

  /** Only the last step can fail on a `push`: the rest of the outcome is that of a plain assignment. */
  lemma {:induction false} PushOkIff(o: Json, p: Path, v: Json, multi: bool)
    requires o.JObj? && p != []
    ensures Assign(o, p, v, multi).Ok? <==> Assign(o, p, v, false).Ok? && !PushFails(Normalize(At(o, p)), multi)
    decreases |p|
  {
    var g := Get(o.fields, p[0]);
    var child := Normalize(g);
    if |p| == 1 {
      assert p == [p[0]] + [];
      if g.Some? {
        AtCons(o, p[0], g.value, []);
      }
    } else if child.JObj? {
      assert Assign(o, p, v, multi).Ok? == Assign(child, p[1..], v, multi).Ok?;
      assert Assign(o, p, v, false).Ok? == Assign(child, p[1..], v, false).Ok?;
      PushOkIff(child, p[1..], v, multi);
      NormalizeThrough(o, p);
    } else {
      assert Assign(child, p[1..], v, multi).Err? && Assign(child, p[1..], v, false).Err?;
      assert Assign(o, p, v, multi).Err? && Assign(o, p, v, false).Err?;
    }
  }

  /** A plain assignment succeeds exactly when every value strictly inside the path can be stepped into. */
  lemma {:induction false} WalkOkIff(o: Json, p: Path, v: Json)
    requires o.JObj? && p != []
    ensures Assign(o, p, v, false).Ok? <==> forall k :: 1 <= k < |p| ==> Passable(At(o, p[..k]))
    decreases |p|
  {
    if |p| > 1 {
      var g := Get(o.fields, p[0]);
      var child := Normalize(g);
      assert p[..1] == [p[0]];
      if g.Some? {
        AtCons(o, p[0], g.value, []);
      }
      assert At(o, p[..1]) == g by {
        if g.None? {
          assert At(o, [p[0]]) == None;
        }
      }
      if child.JObj? {
        WalkOkIff(child, p[1..], v);
        if TruthyOpt(g) {
          forall k | 1 <= k < |p| - 1
            ensures At(o, p[..k + 1]) == At(child, p[1..][..k])
          {
            AtStep(o, p, child, k);
          }
          forall k | 1 <= k < |p|
            ensures Passable(At(o, p[..k])) <==> (k == 1 || Passable(At(child, p[1..][..k - 1])))
          {
            if k > 1 {
              AtStep(o, p, child, k - 1);
            }
          }
        } else {
          forall k | 2 <= k < |p|
            ensures At(o, p[..k]) == None
          {
            assert p[..k] == [p[0]] + p[1..k];
            if g.Some? {
              AtCons(o, p[0], g.value, p[1..k]);
            }
          }
          forall k | 1 <= k < |p| - 1
            ensures At(child, p[1..][..k]) == None
          {
          }
        }
      } else {
        assert Descend(child, p, v, false) == Assign(child, p[1..], v, false);
        assert !Passable(At(o, p[..1]));
      }
    }
  }

  /** After the assignment the path holds the new value (or the array with the value pushed). */
  lemma {:induction false} AssignAt(o: Json, p: Path, v: Json, multi: bool)
    requires p != [] && Assign(o, p, v, multi).Ok?
    ensures At(Assign(o, p, v, multi).value, p) == Some(NewLeaf(Normalize(At(o, p)), v, multi))
    decreases |p|
  {
    var r := Assign(o, p, v, multi).value;
    var g := Get(o.fields, p[0]);
    var child := Normalize(g);
    if |p| == 1 {
      GetSetSame(o.fields, p[0], NewLeaf(child, v, multi));
      AtCons(r, p[0], NewLeaf(child, v, multi), []);
      assert p == [p[0]] + [];
      if g.Some? {
        AtCons(o, p[0], g.value, []);
      }
    } else {
      assert Assign(o, p, v, multi) == Lift(o.fields, p[0], Descend(child, p, v, multi));
      assert Descend(child, p, v, multi) == Assign(child, p[1..], v, multi);
      var c := Assign(child, p[1..], v, multi).value;
      GetSetSame(o.fields, p[0], c);
      assert p == [p[0]] + p[1..];
      AtCons(r, p[0], c, p[1..]);
      AssignAt(child, p[1..], v, multi);
      NormalizeThrough(o, p);
    }
  }

  /** Below its first step, a path reads the same from the normalized child as from the object. */
  lemma NormalizeThrough(o: Json, p: Path)
    requires o.JObj? && |p| > 1
    ensures Normalize(At(Normalize(Get(o.fields, p[0])), p[1..])) == Normalize(At(o, p))
  {
    var g := Get(o.fields, p[0]);
    assert p == [p[0]] + p[1..];
    if g.Some? {
      AtCons(o, p[0], g.value, p[1..]);
    }
  }

  /** After the assignment every value strictly inside the path is an object. */
  lemma {:induction false} AssignPrefixes(o: Json, p: Path, v: Json, multi: bool)
    requires p != [] && Assign(o, p, v, multi).Ok?
    ensures forall k :: 0 <= k < |p| ==> IsObjAt(Assign(o, p, v, multi).value, p[..k])
    decreases |p|
  {
    if |p| == 1 {
      assert p[..0] == [];
    } else {
      var child := Normalize(Get(o.fields, p[0]));
      assert Assign(o, p, v, multi) == Lift(o.fields, p[0], Assign(child, p[1..], v, multi));
      var c := Assign(child, p[1..], v, multi).value;
      GetSetSame(o.fields, p[0], c);
      AssignPrefixes(child, p[1..], v, multi);
      PrefixesLift(Assign(o, p, v, multi).value, p, c);
    }
  }

  /** An object whose child at `p[0]` has objects along `p[1..]` has objects along `p`. */
  lemma PrefixesLift(r: Json, p: Path, c: Json)
    requires |p| > 1 && r.JObj? && Get(r.fields, p[0]) == Some(c)
    requires forall k :: 0 <= k < |p| - 1 ==> IsObjAt(c, p[1..][..k])
    ensures forall k :: 0 <= k < |p| ==> IsObjAt(r, p[..k])
  {
    forall k | 0 <= k < |p|
      ensures IsObjAt(r, p[..k])
    {
      if k == 0 {
        assert p[..0] == [];
      } else {
        AtStep(r, p, c, k - 1);
      }
    }
  }

  /** Paths that neither contain nor extend the assigned path keep their values. */
  lemma {:induction false} AssignFrame(o: Json, p: Path, v: Json, multi: bool, q: Path)
    requires p != [] && Assign(o, p, v, multi).Ok? && Diverge(p, q)
    ensures At(Assign(o, p, v, multi).value, q) == At(o, q)
    decreases |p|
  {
    var r := Assign(o, p, v, multi).value;
    var g := Get(o.fields, p[0]);
    var child := Normalize(g);
    assert IsPrefix([], p) by { assert p[..0] == []; }
    var leaf := if |p| == 1 then NewLeaf(child, v, multi) else Assign(child, p[1..], v, multi).value;
    assert r == JObj(Set(o.fields, p[0], leaf));
    assert q == [q[0]] + q[1..];
    if q[0] != p[0] {
      GetSetOther(o.fields, p[0], leaf, q[0]);
      var h := Get(o.fields, q[0]);
      if h.Some? {
        AtCons(r, q[0], h.value, q[1..]);
        AtCons(o, q[0], h.value, q[1..]);
      }
    } else {
      ConsPrefix(p, q);
      ConsPrefix(q, p);
      GetSetSame(o.fields, p[0], leaf);
      AtCons(r, p[0], leaf, q[1..]);
      AssignFrame(child, p[1..], v, multi, q[1..]);
      if TruthyOpt(g) {
        AtCons(o, q[0], g.value, q[1..]);
      } else if g.Some? {
        AtCons(o, q[0], g.value, q[1..]);
      }
    }
  }

  // ---------------------------------------------------------------------
  // The cursor walk, step by step
  // ---------------------------------------------------------------------

  /** `o` with the value at the end of `p` replaced by `v`, walking existing objects. */
  function SetAt(o: Json, p: Path, v: Json): (r: Json)
    requires p != []
    ensures o.JObj? ==> r.JObj?
    decreases |p|
  {
    if !o.JObj? then o
    else
      var c := match Get(o.fields, p[0]) case Some(c) => c case None => JObj([]);
      JObj(Set(o.fields, p[0], if |p| == 1 then v else SetAt(c, p[1..], v)))
  }

  /** Writing through a path of objects stores the value and keeps the path's objects. */
  lemma {:induction false} SetAtAt(o: Json, p: Path, v: Json)
    requires p != [] && forall i :: 0 <= i < |p| ==> IsObjAt(o, p[..i])
    ensures At(SetAt(o, p, v), p) == Some(v)
    ensures forall i :: 0 <= i < |p| ==> IsObjAt(SetAt(o, p, v), p[..i])
    decreases |p|
  {
    assert p[..0] == [];
    var r := SetAt(o, p, v);
    if |p| == 1 {
      GetSetSame(o.fields, p[0], v);
      assert p == [p[0]] + [];
      AtCons(r, p[0], v, []);
    } else {
      assert p[..1] == [p[0]];
      AtOne(o, p[0]);
      assert IsObjAt(o, p[..1]);
      var c := Get(o.fields, p[0]).value;
      forall i | 0 <= i < |p| - 1
        ensures IsObjAt(c, p[1..][..i])
      {
        AtStep(o, p, c, i);
      }
      SetAtAt(c, p[1..], v);
      var c' := SetAt(c, p[1..], v);
      assert r == JObj(Set(o.fields, p[0], c'));
      GetSetSame(o.fields, p[0], c');
      SetAtLift(r, p, v, c');
    }
  }

  /** The outer step of `SetAtAt`: the new child holds the value and the path's objects. */
  lemma SetAtLift(r: Json, p: Path, v: Json, c': Json)
    requires |p| > 1 && r.JObj? && Get(r.fields, p[0]) == Some(c')
    requires At(c', p[1..]) == Some(v) && forall i :: 0 <= i < |p| - 1 ==> IsObjAt(c', p[1..][..i])
    ensures At(r, p) == Some(v)
    ensures forall i :: 0 <= i < |p| ==> IsObjAt(r, p[..i])
  {
    assert p == [p[0]] + p[1..];
    AtCons(r, p[0], c', p[1..]);
    forall i | 0 <= i < |p|
      ensures IsObjAt(r, p[..i])
    {
      if i > 0 {
        AtStep(r, p, c', i - 1);
      } else {
        assert p[..0] == [];
      }
    }
  }

  /** Creating `{}` where the walk met a falsy value does not change the assignment's outcome. */
  lemma {:induction false} EnsureStep(o: Json, p: Path, j: nat, v: Json, multi: bool)
    requires o.JObj? && j < |p|
    requires forall i :: 0 <= i <= j ==> IsObjAt(o, p[..i])
    requires !TruthyOpt(At(o, p[..j + 1]))
    ensures Assign(SetAt(o, p[..j + 1], JObj([])), p, v, multi) == Assign(o, p, v, multi)
    decreases j
  {
    var g := Get(o.fields, p[0]);
    if j == 0 {
      assert p[..1] == [p[0]];
      AtOne(o, p[0]);
      EnsureHere(o, p, v, multi);
    } else {
      assert p[..1] == [p[0]];
      AtOne(o, p[0]);
      assert IsObjAt(o, p[..1]);
      var gc := g.value;
      forall i | 0 <= i <= j - 1
        ensures IsObjAt(gc, p[1..][..i])
      {
        AtStep(o, p, gc, i);
      }
      AtStep(o, p, gc, j);
      EnsureStep(gc, p[1..], j - 1, v, multi);
      EnsureBelow(o, p, j, v, multi);
    }
  }

  /** Overwriting the first key with a truthy value that describes the same walk changes nothing. */
  lemma AssignAfterSet(fs: seq<(string, Json)>, p: Path, c': Json, v: Json, multi: bool)
    requires p != [] && Truthy(c')
    requires Descend(c', p, v, multi) == Descend(Normalize(Get(fs, p[0])), p, v, multi)
    ensures Assign(JObj(Set(fs, p[0], c')), p, v, multi) == Assign(JObj(fs), p, v, multi)
  {
    GetSetSame(fs, p[0], c');
    var d := Descend(c', p, v, multi);
    if d.Ok? {
      SetSet(fs, p[0], c', d.value);
    }
  }

  /** The first step of `EnsureStep`: `{}` written at the first key. */
  lemma EnsureHere(o: Json, p: Path, v: Json, multi: bool)
    requires o.JObj? && p != [] && !TruthyOpt(Get(o.fields, p[0]))
    ensures Assign(SetAt(o, p[..1], JObj([])), p, v, multi) == Assign(o, p, v, multi)
  {
    assert p[..1] == [p[0]];
    AssignAfterSet(o.fields, p, JObj([]), v, multi);
  }

  /** The inductive step of `EnsureStep`: the change happens below the first key. */
  lemma EnsureBelow(o: Json, p: Path, j: nat, v: Json, multi: bool)
    requires o.JObj? && 1 <= j < |p|
    requires Get(o.fields, p[0]).Some? && Get(o.fields, p[0]).value.JObj?
    requires var gc := Get(o.fields, p[0]).value;
      Assign(SetAt(gc, p[1..][..j], JObj([])), p[1..], v, multi) == Assign(gc, p[1..], v, multi)
    ensures Assign(SetAt(o, p[..j + 1], JObj([])), p, v, multi) == Assign(o, p, v, multi)
  {
    var gc := Get(o.fields, p[0]).value;
    assert p[..j + 1][1..] == p[1..][..j];
    var c' := SetAt(gc, p[1..][..j], JObj([]));
    assert SetAt(o, p[..j + 1], JObj([])) == JObj(Set(o.fields, p[0], c'));
    AssignAfterSet(o.fields, p, c', v, multi);
  }

  /** A truthy non-object met strictly inside the path makes the assignment fail. */
  lemma {:induction false} CursorFails(o: Json, p: Path, j: nat, x: Json, v: Json, multi: bool)
    requires o.JObj? && 1 <= j < |p|
    requires forall i :: 0 <= i < j ==> IsObjAt(o, p[..i])
    requires At(o, p[..j]) == Some(x) && Truthy(x) && !x.JObj?
    ensures Assign(o, p, v, multi) == Err(CursorError(x))
    decreases j
  {
    var g := Get(o.fields, p[0]);
    assert g.Some? by {
      assert p[..j] == [p[0]] + p[1..j];
    }
    AtStep(o, p, g.value, j - 1);
    if j > 1 {
      AtStep(o, p, g.value, 0);
      assert p[..1] == [p[0]];
      forall i | 0 <= i < j - 1
        ensures IsObjAt(g.value, p[1..][..i])
      {
        AtStep(o, p, g.value, i);
      }
      CursorFails(g.value, p[1..], j - 1, x, v, multi);
    } else {
      assert p[1..][..0] == [];
      assert Descend(g.value, p, v, multi) == Assign(g.value, p[1..], v, multi);
    }
  }

  /** Once every value strictly inside the path is an object, the assignment is a single write. */
  lemma {:induction false} AssignLast(o: Json, p: Path, x: Json, v: Json, multi: bool)
    requires p != [] && forall i :: 0 <= i < |p| ==> IsObjAt(o, p[..i])
    requires At(o, p) == Some(x) && Truthy(x)
    ensures Assign(o, p, v, multi) ==
      if PushFails(x, multi) then Err(PushNotCallable) else Ok(SetAt(o, p, NewLeaf(x, v, multi)))
    decreases |p|
  {
    assert p[..0] == [];
    var g := Get(o.fields, p[0]);
    assert p == [p[0]] + p[1..];
    assert g.Some?;
    AtCons(o, p[0], g.value, p[1..]);
    if |p| > 1 {
      ObjectsBelow(o, p, g.value);
      AssignLast(g.value, p[1..], x, v, multi);
      assert Assign(o, p, v, multi) == Lift(o.fields, p[0], Assign(g.value, p[1..], v, multi));
    }
  }

  /** The objects along `p` below its first key are the objects along the child's path. */
  lemma ObjectsBelow(o: Json, p: Path, c: Json)
    requires |p| > 1 && o.JObj? && Get(o.fields, p[0]) == Some(c)
    requires forall i :: 0 <= i < |p| ==> IsObjAt(o, p[..i])
    ensures forall i :: 0 <= i < |p| - 1 ==> IsObjAt(c, p[1..][..i])
  {
    forall i | 0 <= i < |p| - 1
      ensures IsObjAt(c, p[1..][..i])
    {
      AtStep(o, p, c, i);
    }
  }

  /** `obj[name] = {}` inside the walk keeps the loop's invariants of `AssignPath`. */
  lemma CreateStep(o: Json, names: Path, j: nat, value: Json, multi: bool)
    requires o.JObj? && j < |names|
    requires forall i :: 0 <= i <= j ==> IsObjAt(o, names[..i])
    requires !TruthyOpt(At(o, names[..j + 1]))
    ensures SetAt(o, names[..j + 1], JObj([])).JObj?
    ensures forall i :: 0 <= i <= j ==> IsObjAt(SetAt(o, names[..j + 1], JObj([])), names[..i])
    ensures TruthyOpt(At(SetAt(o, names[..j + 1], JObj([])), names[..j + 1]))
    ensures Assign(SetAt(o, names[..j + 1], JObj([])), names, value, multi) == Assign(o, names, value, multi)
  {
    EnsureStep(o, names, j, value, multi);
    var q := names[..j + 1];
    PrefixesOfPrefix(names, j + 1);
    SetAtAt(o, q, JObj([]));
  }

  /** The prefixes of `p[..n]` are the prefixes of `p` up to `n`. */
  lemma PrefixesOfPrefix(p: Path, n: nat)
    requires n <= |p|
    ensures forall i :: 0 <= i <= n ==> p[..n][..i] == p[..i]
  {
  }

  /**
   * The JavaScript loop for one pair: the cursor starts at the root and, for
   * each name, creates `{}` in place of a falsy value and steps into it; the
   * last name then receives the value, or the value is pushed onto the array
   * already there (a `push` key of an object cannot be called). The cursor is represented by its path from the root.
   */
  method AssignPath(root: Json, names: Path, value: Json, multi: bool) returns (r: Result<Json, PathError>)
    requires root.JObj? && names != []
    ensures r == Assign(root, names, value, multi)
  {
    var formJSON := root;
    var j := 0;
    while j < |names|
      invariant 0 <= j <= |names| && formJSON.JObj?
      invariant forall i :: 0 <= i < j ==> IsObjAt(formJSON, names[..i])
      invariant j > 0 ==> TruthyOpt(At(formJSON, names[..j]))
      invariant Assign(formJSON, names, value, multi) == Assign(root, names, value, multi)
    {
      assert names[..0] == [];
      var obj := At(formJSON, names[..j]).value;
      if !obj.JObj? {
        CursorFails(formJSON, names, j, obj, value, multi);
        return Err(CursorError(obj));
      }
      assert names[..j + 1] == names[..j] + [names[j]];
      AtSnoc(formJSON, names[..j], names[j]);
      if !TruthyOpt(Get(obj.fields, names[j])) {
        CreateStep(formJSON, names, j, value, multi);
        formJSON := SetAt(formJSON, names[..j + 1], JObj([]));
      }
      j := j + 1;
    }
    assert names[..|names|] == names;
    var cur := At(formJSON, names).value;
    AssignLast(formJSON, names, cur, value, multi);
    if multi && cur.JObj? && TruthyOpt(Get(cur.fields, "push")) {
      return Err(PushNotCallable);
    }
    r := Ok(SetAt(formJSON, names, NewLeaf(cur, value, multi)));
  }

  /**
   * The outer loop of `toJSON`: every serialized pair, in order, walked into
   * one object; the first failing walk aborts the rebuild.
   */
  method Rebuild(pairs: seq<(string, Json)>, sep: char, multi: string -> bool) returns (r: Result<Json, PathError>)
    ensures r == Build(pairs, sep, multi)
  {
    var formJSON := JObj([]);
    var i := 0;
    while i < |pairs|
      invariant 0 <= i <= |pairs|
      invariant Build(pairs[..i], sep, multi) == Ok(formJSON)
    {
      assert pairs[..i + 1][..i] == pairs[..i];
      var res := AssignPath(formJSON, Split(pairs[i].0, sep), pairs[i].1, multi(pairs[i].0));
      if res.Err? {
        BuildErrSticks(pairs, i + 1, sep, multi);
        return res;
      }
      formJSON := res.value;
      i := i + 1;
    }
    assert pairs[..|pairs|] == pairs;
    r := Ok(formJSON);
  }

  /** Once a prefix of the pairs fails, the whole rebuild fails with the same error. */
  lemma {:induction false} BuildErrSticks(pairs: seq<(string, Json)>, n: nat, sep: char, multi: string -> bool)
    requires n <= |pairs| && Build(pairs[..n], sep, multi).Err?
    ensures Build(pairs, sep, multi) == Build(pairs[..n], sep, multi)
    decreases |pairs| - n
  {
    if n < |pairs| {
      assert pairs[..n + 1][..n] == pairs[..n];
      BuildErrSticks(pairs, n + 1, sep, multi);
    } else {
      assert pairs[..n] == pairs;
    }
  }

  // ---------------------------------------------------------------------
  // What the whole rebuild produces
  // ---------------------------------------------------------------------

  /** The values given for `name`, in input order. */
  function ValuesOf(pairs: seq<(string, Json)>, name: string): (r: seq<Json>)
    ensures r == [] <==> forall i :: 0 <= i < |pairs| ==> pairs[i].0 != name
  {
    if pairs == [] then []
    else
      var init := pairs[..|pairs| - 1];
      assert forall i :: 0 <= i < |init| ==> init[i] == pairs[i];
      ValuesOf(init, name) + (if pairs[|pairs| - 1].0 == name then [pairs[|pairs| - 1].1] else [])
  }

  /** The strings a form serializes for `name`, in input order. */
  function Given(pairs: seq<(string, string)>, name: string): seq<string>
  {
    if pairs == [] then []
    else Given(pairs[..|pairs| - 1], name) + (if pairs[|pairs| - 1].0 == name then [pairs[|pairs| - 1].1] else [])
  }

  /**
   * What the rebuilt object holds at `name`'s path: nothing when no pair names
   * it, the array of all its values for a multi-valued control, its last value otherwise.
   */
  function Expected(pairs: seq<(string, Json)>, name: string, multi: bool): Option<Json>
  {
    var vs := ValuesOf(pairs, name);
    if vs == [] then None
    else if multi then Some(JArr(vs))
    else Some(vs[|vs| - 1])
  }

  /** No name's path is a prefix of (or equal to) another name's path. */
  predicate PrefixFree(pairs: seq<(string, Json)>, sep: char)
  {
    forall i, j :: 0 <= i < |pairs| && 0 <= j < |pairs| && pairs[i].0 != pairs[j].0 ==>
      !IsPrefix(Split(pairs[i].0, sep), Split(pairs[j].0, sep))
  }

  /** The induction hypothesis of `BuildLookup`, stated for every name of the whole input `all`. */
  predicate BuildInv(r: Json, pairs: seq<(string, Json)>, all: seq<(string, Json)>, sep: char, multi: string -> bool)
  {
    && r.JObj?
    && (forall j :: 0 <= j < |all| ==>
          At(r, Split(all[j].0, sep)) == Expected(pairs, all[j].0, multi(all[j].0)))
    && (forall j, k :: 0 <= j < |all| && 0 <= k < |Split(all[j].0, sep)| ==>
          Passable(At(r, Split(all[j].0, sep)[..k])))
    && (forall j, k :: 0 <= j < |all| && ValuesOf(pairs, all[j].0) != [] && 0 <= k < |Split(all[j].0, sep)| ==>
          IsObjAt(r, Split(all[j].0, sep)[..k]))
  }

  lemma {:induction false} BuildInvHolds(all: seq<(string, Json)>, n: nat, sep: char, multi: string -> bool)
    requires n <= |all| && PrefixFree(all, sep)
    ensures Build(all[..n], sep, multi).Ok?
    ensures BuildInv(Build(all[..n], sep, multi).value, all[..n], all, sep, multi)
  {
    if n == 0 {
      assert all[..0] == [];
      BuildInvEmpty(all, sep, multi);
    } else {
      var m := n - 1;
      BuildInvHolds(all, m, sep, multi);
      BuildStep(Build(all[..m], sep, multi).value, all[..m], all, m, sep, multi);
      assert m + 1 == n;
    }
  }

  /** Before any pair, every name reads nothing and every walk starts from the empty root. */
  lemma BuildInvEmpty(all: seq<(string, Json)>, sep: char, multi: string -> bool)
    ensures BuildInv(JObj([]), [], all, sep, multi)
  {
    var r := JObj([]);
    forall j, k | 0 <= j < |all| && 0 <= k <= |Split(all[j].0, sep)|
      ensures At(r, Split(all[j].0, sep)[..k]) == if k == 0 then Some(r) else None
    {
      if k == 0 {
        assert Split(all[j].0, sep)[..0] == [];
      }
    }
    assert forall j :: 0 <= j < |all| ==> Split(all[j].0, sep)[..|Split(all[j].0, sep)|] == Split(all[j].0, sep);
  }

  lemma BuildStep(r: Json, pairs: seq<(string, Json)>, all: seq<(string, Json)>, n: nat, sep: char, multi: string -> bool)
    requires n < |all| && pairs == all[..n] && PrefixFree(all, sep)
    requires Build(pairs, sep, multi) == Ok(r) && BuildInv(r, pairs, all, sep, multi)
    ensures Build(all[..n + 1], sep, multi).Ok?
    ensures BuildInv(Build(all[..n + 1], sep, multi).value, all[..n + 1], all, sep, multi)
  {
    var pairs' := all[..n + 1];
    assert pairs'[..n] == pairs;
    var p0 := Split(all[n].0, sep);
    assert Build(pairs', sep, multi) == Assign(r, p0, all[n].1, multi(all[n].0));
    assert forall k :: 1 <= k < |p0| ==> Passable(At(r, p0[..k]));
    assert At(r, p0) == Expected(pairs, all[n].0, multi(all[n].0));
    AssignOkIff(r, p0, all[n].1, multi(all[n].0));
    StepReadsAll(r, all, n, sep, multi);
    StepPassableAll(r, all, n, sep, multi);
    StepObjectsAll(r, all, n, sep, multi);
  }

  /** The first part of `BuildInv` after one more pair: every name reads what it should. */
  lemma StepReadsAll(r: Json, all: seq<(string, Json)>, n: nat, sep: char, multi: string -> bool)
    requires n < |all| && PrefixFree(all, sep) && r.JObj?
    requires Assign(r, Split(all[n].0, sep), all[n].1, multi(all[n].0)).Ok?
    requires forall j :: 0 <= j < |all| ==>
      At(r, Split(all[j].0, sep)) == Expected(all[..n], all[j].0, multi(all[j].0))
    ensures forall j :: 0 <= j < |all| ==>
      At(Assign(r, Split(all[n].0, sep), all[n].1, multi(all[n].0)).value, Split(all[j].0, sep))
        == Expected(all[..n + 1], all[j].0, multi(all[j].0))
  {
    forall j | 0 <= j < |all|
      ensures At(Assign(r, Split(all[n].0, sep), all[n].1, multi(all[n].0)).value, Split(all[j].0, sep))
        == Expected(all[..n + 1], all[j].0, multi(all[j].0))
    {
      StepFull(r, all, n, j, sep, multi);
    }
  }

  /** The second part of `BuildInv` after one more pair: every walk can still be taken. */
  lemma StepPassableAll(r: Json, all: seq<(string, Json)>, n: nat, sep: char, multi: string -> bool)
    requires n < |all| && PrefixFree(all, sep) && r.JObj?
    requires Assign(r, Split(all[n].0, sep), all[n].1, multi(all[n].0)).Ok?
    requires forall j, k :: 0 <= j < |all| && 0 <= k < |Split(all[j].0, sep)| ==>
      Passable(At(r, Split(all[j].0, sep)[..k]))
    ensures forall j, k :: 0 <= j < |all| && 0 <= k < |Split(all[j].0, sep)| ==>
      Passable(At(Assign(r, Split(all[n].0, sep), all[n].1, multi(all[n].0)).value, Split(all[j].0, sep)[..k]))
  {
    forall j, k | 0 <= j < |all| && 0 <= k < |Split(all[j].0, sep)|
      ensures Passable(At(Assign(r, Split(all[n].0, sep), all[n].1, multi(all[n].0)).value, Split(all[j].0, sep)[..k]))
    {
      StepPrefix(r, all, n, j, k, sep, multi);
    }
  }

  /** The third part of `BuildInv` after one more pair: the walk to every given name goes through objects. */
  lemma StepObjectsAll(r: Json, all: seq<(string, Json)>, n: nat, sep: char, multi: string -> bool)
    requires n < |all| && PrefixFree(all, sep) && r.JObj?
    requires Assign(r, Split(all[n].0, sep), all[n].1, multi(all[n].0)).Ok?
    requires forall j, k :: 0 <= j < |all| && ValuesOf(all[..n], all[j].0) != [] && 0 <= k < |Split(all[j].0, sep)| ==>
      IsObjAt(r, Split(all[j].0, sep)[..k])
    ensures forall j, k :: 0 <= j < |all| && ValuesOf(all[..n + 1], all[j].0) != [] && 0 <= k < |Split(all[j].0, sep)| ==>
      IsObjAt(Assign(r, Split(all[n].0, sep), all[n].1, multi(all[n].0)).value, Split(all[j].0, sep)[..k])
  {
    var p0 := Split(all[n].0, sep);
    var r' := Assign(r, p0, all[n].1, multi(all[n].0)).value;
    forall j, k | 0 <= j < |all| && ValuesOf(all[..n + 1], all[j].0) != [] && 0 <= k < |Split(all[j].0, sep)|
      ensures IsObjAt(r', Split(all[j].0, sep)[..k])
    {
      ValuesSnoc(all, n, all[j].0);
      if all[j].0 == all[n].0 {
        AssignPrefixes(r, p0, all[n].1, multi(all[n].0));
      } else {
        StepPrefix(r, all, n, j, k, sep, multi);
      }
    }
  }

  /** The rebuild step at the full path of one name. */
  lemma StepFull(r: Json, all: seq<(string, Json)>, n: nat, j: nat, sep: char, multi: string -> bool)
    requires n < |all| && j < |all| && PrefixFree(all, sep) && r.JObj?
    requires Assign(r, Split(all[n].0, sep), all[n].1, multi(all[n].0)).Ok?
    requires At(r, Split(all[j].0, sep)) == Expected(all[..n], all[j].0, multi(all[j].0))
    ensures At(Assign(r, Split(all[n].0, sep), all[n].1, multi(all[n].0)).value, Split(all[j].0, sep))
         == Expected(all[..n + 1], all[j].0, multi(all[j].0))
  {
    var n0 := all[n].0;
    var v := all[n].1;
    var name := all[j].0;
    var p0 := Split(n0, sep);
    var pj := Split(name, sep);
    ExpectedSnoc(all, n, name, multi(name));
    if name == n0 {
      StepSame(r, p0, v, multi(n0), ValuesOf(all[..n], name));
    } else {
      DivergeOf(all, n, j, sep);
      AssignFrame(r, p0, v, multi(n0), pj);
    }
  }

  /** What one more pair does to the expected value at `name`. */
  lemma ExpectedSnoc(all: seq<(string, Json)>, n: nat, name: string, multi: bool)
    requires n < |all|
    ensures all[n].0 != name ==> Expected(all[..n + 1], name, multi) == Expected(all[..n], name, multi)
    ensures all[n].0 == name ==>
      Expected(all[..n + 1], name, multi) == (if multi then Some(JArr(ValuesOf(all[..n], name) + [all[n].1])) else Some(all[n].1))
  {
    ValuesSnoc(all, n, name);
    if all[n].0 != name {
      assert ValuesOf(all[..n + 1], name) == ValuesOf(all[..n], name) + [];
      assert ValuesOf(all[..n], name) + [] == ValuesOf(all[..n], name);
    }
  }

  lemma DivergeOf(all: seq<(string, Json)>, a: nat, b: nat, sep: char)
    requires PrefixFree(all, sep) && a < |all| && b < |all| && all[a].0 != all[b].0
    ensures Diverge(Split(all[a].0, sep), Split(all[b].0, sep))
  {
  }

  lemma ValuesSnoc(all: seq<(string, Json)>, n: nat, name: string)
    requires n < |all|
    ensures ValuesOf(all[..n + 1], name) == ValuesOf(all[..n], name) + (if all[n].0 == name then [all[n].1] else [])
  {
    assert all[..n + 1][..n] == all[..n];
    assert all[..n + 1][n] == all[n];
  }

  lemma StepSame(r: Json, p: Path, v: Json, multi: bool, vs: seq<Json>)
    requires p != [] && Assign(r, p, v, multi).Ok?
    requires At(r, p) == if vs == [] then None else if multi then Some(JArr(vs)) else Some(vs[|vs| - 1])
    ensures At(Assign(r, p, v, multi).value, p) == if multi then Some(JArr(vs + [v])) else Some(v)
  {
    AssignAt(r, p, v, multi);
    assert vs == [] ==> vs + [v] == [v];
  }

  /** The rebuild step at a value strictly inside one name's path. */
  lemma StepPrefix(r: Json, all: seq<(string, Json)>, n: nat, j: nat, k: nat, sep: char, multi: string -> bool)
    requires n < |all| && j < |all| && PrefixFree(all, sep) && r.JObj?
    requires k < |Split(all[j].0, sep)|
    requires Assign(r, Split(all[n].0, sep), all[n].1, multi(all[n].0)).Ok?
    ensures var r' := Assign(r, Split(all[n].0, sep), all[n].1, multi(all[n].0)).value;
      var q := Split(all[j].0, sep)[..k];
      IsObjAt(r', q) || At(r', q) == At(r, q)
  {
    var p0 := Split(all[n].0, sep);
    var pj := Split(all[j].0, sep);
    assert IsPrefix(p0, pj) ==> pj == p0;
    StepInside(r, p0, all[n].1, multi(all[n].0), pj, k);
  }

  lemma StepInside(r: Json, p: Path, v: Json, multi: bool, pj: Path, k: nat)
    requires p != [] && Assign(r, p, v, multi).Ok? && k < |pj|
    requires IsPrefix(p, pj) ==> pj == p
    ensures var r' := Assign(r, p, v, multi).value;
      IsObjAt(r', pj[..k]) || At(r', pj[..k]) == At(r, pj[..k])
  {
    var q := pj[..k];
    assert IsPrefix(q, pj);
    PrefixTrans(p, q, pj);
    if IsPrefix(q, p) {
      assert q == p[..|q|];
      AssignPrefixes(r, p, v, multi);
    } else if !IsPrefix(p, q) {
      AssignFrame(r, p, v, multi, q);
    }
  }

  /**
   * The rebuilt object, for names none of whose paths is a prefix of another's:
   * the rebuild succeeds, each name's path holds what `Expected` says (the last
   * value, or all values in input order for a multi-valued control), and every
   * value strictly inside a name's path is an object.
   */
  lemma BuildLookup(pairs: seq<(string, Json)>, sep: char, multi: string -> bool)
    requires PrefixFree(pairs, sep)
    ensures Build(pairs, sep, multi).Ok?
    ensures forall i :: 0 <= i < |pairs| ==>
      At(Build(pairs, sep, multi).value, Split(pairs[i].0, sep)) == Expected(pairs, pairs[i].0, multi(pairs[i].0))
    ensures forall i, k :: 0 <= i < |pairs| && 0 <= k < |Split(pairs[i].0, sep)| ==>
      IsObjAt(Build(pairs, sep, multi).value, Split(pairs[i].0, sep)[..k])
  {
    BuildInvHolds(pairs, |pairs|, sep, multi);
    assert pairs[..|pairs|] == pairs;
  }

  /**
   * A multi-valued `t` after `t-push`: the walk for `t-push` leaves `{push: "1"}`
   * at `t`, so pushing the value of `t` calls a string.
   */
  lemma PushKeyFails(multi: string -> bool)
    requires multi("t") && !multi("t-push")
    ensures Build([("t-push", JStr("1")), ("t", JStr("x"))], '-', multi) == Err(PushNotCallable)
  {
    var pairs := [("t-push", JStr("1")), ("t", JStr("x"))];
    PushKeyFirst(multi);
    PushKeySecond();
    assert pairs[..1] == [("t-push", JStr("1"))];
    assert Split("t", '-') == ["t"];
  }

  /** The second pair of `PushKeyFails`: `t` now holds an object with a `push` key. */
  lemma PushKeySecond()
    ensures Assign(JObj([("t", JObj([("push", JStr("1"))]))]), ["t"], JStr("x"), true) == Err(PushNotCallable)
  {
  }

  /** The first pair of `PushKeyFails`. */
  lemma PushKeyFirst(multi: string -> bool)
    requires !multi("t-push")
    ensures Build([("t-push", JStr("1"))], '-', multi) == Ok(JObj([("t", JObj([("push", JStr("1"))]))]))
  {
    SplitTPush();
    assert [("t-push", JStr("1"))][..0] == [];
    PushKeyWalk();
  }

  lemma SplitTPush()
    ensures Split("t-push", '-') == ["t", "push"]
  {
    assert "t-push"[1..] == "-push" && "-push"[1..] == "push" && '-' !in "push";
    var t := Split("-push", '-');
    assert t == [""] + ["push"];
    assert ['t'] + t[0] == "t" && t[1..] == ["push"];
  }

  lemma PushKeyWalk()
    ensures Assign(JObj([]), ["t", "push"], JStr("1"), false) == Ok(JObj([("t", JObj([("push", JStr("1"))]))]))
  {
    assert ["t", "push"][1..] == ["push"];
    assert Assign(JObj([]), ["push"], JStr("1"), false) == Ok(JObj([("push", JStr("1"))]));
  }

  /** The last value given for a name is the last of `ValuesOf`: for a single-valued name, the last pair wins. */
  lemma {:induction false} LastPairWins(pairs: seq<(string, Json)>, i: nat)
    requires i < |pairs| && forall j :: i < j < |pairs| ==> pairs[j].0 != pairs[i].0
    ensures var vs := ValuesOf(pairs, pairs[i].0); vs != [] && vs[|vs| - 1] == pairs[i].1
    decreases |pairs|
  {
    if i < |pairs| - 1 {
      var init := pairs[..|pairs| - 1];
      LastPairWins(init, i);
    }
  }
}
