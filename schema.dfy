/**
 * The field schema both form builders walk: an ordered object whose entries
 * are either groups (`type: "group"`, nested `values`) or leaf controls.
 */
module FormSchema {
  import opened Wrappers
  import opened JsonValue

  /**
   * A group of nested entries, or a leaf control. A leaf's `kind` is its
   * `type` (never "group": a field of that type is a `Group`); `title` is
   * its `title` (undefined when absent); `showIf` is its `show_if`
   * expression, "" when it has none (both are falsy).
   */
  datatype Field =
    | Group(values: seq<Entry>)
    | Leaf(kind: string, title: Option<Json>, required: bool, showIf: string)

  datatype Entry = Entry(key: string, field: Field)

  /** A leaf reached by the walk: its joined id, its own key and its schema. */
  datatype LeafRef = LeafRef(id: string, key: string, leaf: Field)

  /** `parent ? parent + sep + field : field`: an empty parent is falsy. */
  function Id(parent: string, key: string, sep: char): string
  {
    if parent == "" then key else parent + [sep] + key
  }

  /** The schema walk: every leaf in document order, with the id built from its ancestors' keys. */
  function Leaves(schema: seq<Entry>, parent: string, sep: char): (r: seq<LeafRef>)
    ensures forall i :: 0 <= i < |r| ==> r[i].leaf.Leaf?
    decreases schema
  {
    if schema == [] then []
    else
      var e := schema[0];
      var id := Id(parent, e.key, sep);
      (match e.field
       case Group(vs) => Leaves(vs, id, sep)
       case Leaf(_, _, _, _) => [LeafRef(id, e.key, e.field)])
      + Leaves(schema[1..], parent, sep)
  }

  lemma AppendAssoc<T>(a: seq<T>, b: seq<T>, c: seq<T>)
    ensures a + b + c == a + (b + c)
  {
  }

  /** The walk over a concatenation is the concatenation of the walks. */
  lemma {:induction false} LeavesAppend(a: seq<Entry>, b: seq<Entry>, parent: string, sep: char)
    ensures Leaves(a + b, parent, sep) == Leaves(a, parent, sep) + Leaves(b, parent, sep)
    decreases |a|
  {
    if a != [] {
      assert (a + b)[0] == a[0];
      assert (a + b)[1..] == a[1..] + b;
      LeavesAppend(a[1..], b, parent, sep);
    } else {
      assert a + b == b;
    }
  }

  /** The paths `ps`, seen from one level up through key `k`. */
  function Under(k: string, ps: seq<(Path, Field)>): (r: seq<(Path, Field)>)
    ensures |r| == |ps|
    ensures forall i :: 0 <= i < |ps| ==> r[i] == ([k] + ps[i].0, ps[i].1)
  {
    seq(|ps|, i requires 0 <= i < |ps| => ([k] + ps[i].0, ps[i].1))
  }

  /** Reference view of the walk: each leaf with the path of keys that leads to it. */
  function LeafPaths(schema: seq<Entry>): (r: seq<(Path, Field)>)
    ensures forall i :: 0 <= i < |r| ==> |r[i].0| >= 1 && r[i].1.Leaf?
    decreases schema, 1
  {
    if schema == [] then [] else EntryLeafPaths(schema[0]) + LeafPaths(schema[1..])
  }

  /** The leaf paths of one entry: those of its group below its key, or its own key. */
  function EntryLeafPaths(e: Entry): (r: seq<(Path, Field)>)
    ensures forall i :: 0 <= i < |r| ==> |r[i].0| >= 1 && r[i].1.Leaf?
    decreases e, 0
  {
    match e.field
    case Group(vs) => Under(e.key, LeafPaths(vs))
    case Leaf(_, _, _, _) => Under(e.key, [([], e.field)])
  }

  /** Every key at every level is non-empty and free of the separator. */
  predicate PlainKeys(schema: seq<Entry>, sep: char)
    decreases schema
  {
    forall i :: 0 <= i < |schema| ==>
      schema[i].key != "" && sep !in schema[i].key &&
      (schema[i].field.Group? ==> PlainKeys(schema[i].field.values, sep))
  }

  lemma JoinSnoc(prefix: Path, k: string, sep: char)
    requires prefix != []
    ensures Join(prefix + [k], sep) == Join(prefix, sep) + [sep] + k
    decreases |prefix|
  {
    if |prefix| == 1 {
      assert (prefix + [k])[1..] == [k];
    } else {
      assert (prefix + [k])[1..] == prefix[1..] + [k];
      JoinSnoc(prefix[1..], k, sep);
    }
  }

  lemma JoinNonEmpty(p: Path, sep: char)
    requires p != [] && forall i :: 0 <= i < |p| ==> p[i] != ""
    ensures Join(p, sep) != ""
  {
  }

  /** The walk's leaves `ls` carry the ids the key paths `ps` spell out below `prefix`. */
  predicate IdsAgree(ls: seq<LeafRef>, ps: seq<(Path, Field)>, prefix: Path, sep: char)
  {
    |ls| == |ps| &&
    forall i :: 0 <= i < |ls| ==>
      |ps[i].0| >= 1 &&
      ls[i].id == Join(prefix + ps[i].0, sep) && ls[i].leaf == ps[i].1 &&
      ls[i].key == ps[i].0[|ps[i].0| - 1]
  }

  lemma IdsAgreeConcat(l1: seq<LeafRef>, p1: seq<(Path, Field)>, l2: seq<LeafRef>, p2: seq<(Path, Field)>,
                       prefix: Path, sep: char)
    requires IdsAgree(l1, p1, prefix, sep) && IdsAgree(l2, p2, prefix, sep)
    ensures IdsAgree(l1 + l2, p1 + p2, prefix, sep)
  {
    forall i | 0 <= i < |l1| + |l2|
      ensures |(p1 + p2)[i].0| >= 1
      ensures (l1 + l2)[i].id == Join(prefix + (p1 + p2)[i].0, sep)
      ensures (l1 + l2)[i].leaf == (p1 + p2)[i].1
      ensures (l1 + l2)[i].key == (p1 + p2)[i].0[|(p1 + p2)[i].0| - 1]
    {
      if i >= |l1| {
        assert (l1 + l2)[i] == l2[i - |l1|];
        assert (p1 + p2)[i] == p2[i - |l1|];
      }
    }
  }

  /** Moving one key from the prefix into the paths leaves the ids unchanged. */
  lemma IdsAgreeShift(ls: seq<LeafRef>, below: seq<(Path, Field)>, prefix: Path, k: string, sep: char)
    requires IdsAgree(ls, below, prefix + [k], sep)
    ensures IdsAgree(ls, Under(k, below), prefix, sep)
  {
    var ps := Under(k, below);
    forall i | 0 <= i < |ls|
      ensures ls[i].id == Join(prefix + ps[i].0, sep)
      ensures ls[i].key == ps[i].0[|ps[i].0| - 1]
    {
      assert prefix + [k] + below[i].0 == prefix + ([k] + below[i].0);
    }
  }

  lemma HeadId(prefix: Path, parent: string, k: string, sep: char)
    requires forall i :: 0 <= i < |prefix| ==> prefix[i] != ""
    requires parent == Join(prefix, sep)
    ensures Id(parent, k, sep) == Join(prefix + [k], sep)
  {
    if prefix == [] {
      assert [] + [k] == [k];
    } else {
      JoinNonEmpty(prefix, sep);
      JoinSnoc(prefix, k, sep);
    }
  }

  /**
   * A leaf's id is its ancestors' keys and its own key joined with the
   * separator (a top-level leaf's id is its key), and the walk meets the
   * leaves in the order of the reference view: groups add no control of their own.
   */
  lemma {:induction false} LeafIds(schema: seq<Entry>, prefix: Path, parent: string, sep: char)
    requires PlainKeys(schema, sep)
    requires forall i :: 0 <= i < |prefix| ==> prefix[i] != ""
    requires parent == Join(prefix, sep)
    ensures IdsAgree(Leaves(schema, parent, sep), LeafPaths(schema), prefix, sep)
    decreases schema
  {
    if schema != [] {
      var e := schema[0];
      var id := Id(parent, e.key, sep);
      HeadId(prefix, parent, e.key, sep);
      assert PlainKeys(schema[1..], sep) by {
        forall i | 0 <= i < |schema[1..]| ensures schema[1..][i] == schema[i + 1] { }
      }
      LeafIds(schema[1..], prefix, parent, sep);
      var below := match e.field
        case Group(vs) => LeafPaths(vs)
        case Leaf(_, _, _, _) => [([], e.field)];
      var mine := match e.field
        case Group(vs) => Leaves(vs, id, sep)
        case Leaf(_, _, _, _) => [LeafRef(id, e.key, e.field)];
      var ps := Under(e.key, below);
      assert IdsAgree(mine, ps, prefix, sep) by {
        match e.field
        case Group(vs) =>
          var q := prefix + [e.key];
          assert forall i :: 0 <= i < |q| ==> q[i] != "" by {
            forall i | 0 <= i < |q| ensures q[i] != "" {
              if i < |prefix| { assert q[i] == prefix[i]; }
            }
          }
          LeafIds(vs, q, id, sep);
          IdsAgreeShift(mine, below, prefix, e.key, sep);
        case Leaf(_, _, _, _) =>
          assert ps[0].0 == [e.key];
          assert prefix + [e.key] == prefix + ps[0].0;
      }
      IdsAgreeConcat(mine, ps, Leaves(schema[1..], parent, sep), LeafPaths(schema[1..]), prefix, sep);
    }
  }
}
