/**
 * JSON values as the form code sees them, JavaScript truthiness, property
 * reads `v[k]`, and `String.prototype.split` / `Array.prototype.join` on one
 * separator character.
 */
module JsonValue {
  import opened Wrappers

  /**
   * An object is an ordered association list of its keys in insertion order
   * (JavaScript would list canonical array-index keys first; that order is not modelled).
   */
  datatype Json =
    | JNull
    | JBool(b: bool)
    | JNum(n: int)
    | JStr(s: string)
    | JArr(items: seq<Json>)
    | JObj(fields: seq<(string, Json)>)

  type Path = seq<string>

  /** JavaScript truthiness of a JSON value (`!!v`). */
  predicate Truthy(v: Json)
  {
    match v
    case JNull => false
    case JBool(b) => b
    case JNum(n) => n != 0
    case JStr(s) => s != ""
    case JArr(_) => true
    case JObj(_) => true
  }

  /** Truthiness of a possibly `undefined` value. */
  predicate TruthyOpt(v: Option<Json>)
  {
    v.Some? && Truthy(v.value)
  }

  // ---------------------------------------------------------------------
  // Association lists
  // ---------------------------------------------------------------------

  predicate HasKey(fs: seq<(string, Json)>, k: string)
  {
    exists i :: 0 <= i < |fs| && fs[i].0 == k
  }

  /** `o[k]` on a plain object: the value of the (first) entry with key `k`. */
  function Get(fs: seq<(string, Json)>, k: string): (r: Option<Json>)
    ensures r.Some? <==> HasKey(fs, k)
    ensures r.Some? ==> exists i :: 0 <= i < |fs| && fs[i] == (k, r.value)
  {
    if fs == [] then None
    else if fs[0].0 == k then Some(fs[0].1)
    else
      var r := Get(fs[1..], k);
      assert forall i :: 0 <= i < |fs| - 1 ==> fs[1..][i] == fs[i + 1];
      r
  }

  /** No key occurs twice, as in any object JavaScript builds. */
  predicate UniqueKeys(fs: seq<(string, Json)>)
  {
    forall i, j :: 0 <= i < j < |fs| ==> fs[i].0 != fs[j].0
  }

  /** With unique keys, each entry is what its key reads. */
  lemma {:induction false} GetUnique(fs: seq<(string, Json)>, i: nat)
    requires UniqueKeys(fs) && i < |fs|
    ensures Get(fs, fs[i].0) == Some(fs[i].1)
  {
    if i > 0 {
      assert fs[0].0 != fs[i].0;
      assert fs[1..][i - 1] == fs[i];
      GetUnique(fs[1..], i - 1);
    }
  }

  /** `o[k] = v` on a plain object: an existing key keeps its place, a new key goes last. */
  function Set(fs: seq<(string, Json)>, k: string, v: Json): (r: seq<(string, Json)>)
    ensures HasKey(fs, k) ==> |r| == |fs|
    ensures !HasKey(fs, k) ==> r == fs + [(k, v)]
  {
    if fs == [] then [(k, v)]
    else if fs[0].0 == k then [(k, v)] + fs[1..]
    else
      assert HasKey(fs, k) <==> HasKey(fs[1..], k) by {
        if HasKey(fs, k) {
          var i :| 0 <= i < |fs| && fs[i].0 == k;
          assert fs[1..][i - 1] == fs[i];
        }
        if HasKey(fs[1..], k) {
          var i :| 0 <= i < |fs[1..]| && fs[1..][i].0 == k;
          assert fs[i + 1] == fs[1..][i];
        }
      }
      [fs[0]] + Set(fs[1..], k, v)
  }

  lemma {:induction false} GetSetSame(fs: seq<(string, Json)>, k: string, v: Json)
    ensures Get(Set(fs, k, v), k) == Some(v)
  {
    if fs != [] && fs[0].0 != k {
      GetSetSame(fs[1..], k, v);
      assert ([fs[0]] + Set(fs[1..], k, v))[1..] == Set(fs[1..], k, v);
    }
  }

  lemma {:induction false} GetSetOther(fs: seq<(string, Json)>, k: string, v: Json, k': string)
    requires k' != k
    ensures Get(Set(fs, k, v), k') == Get(fs, k')
  {
    if fs == [] {
    } else if fs[0].0 == k {
      assert ([(k, v)] + fs[1..])[1..] == fs[1..];
    } else {
      GetSetOther(fs[1..], k, v, k');
      assert ([fs[0]] + Set(fs[1..], k, v))[1..] == Set(fs[1..], k, v);
    }
  }

  /** Assigning the same key twice leaves the second value, in the place of the first. */
  lemma {:induction false} SetSet(fs: seq<(string, Json)>, k: string, v: Json, w: Json)
    ensures Set(Set(fs, k, v), k, w) == Set(fs, k, w)
  {
    if fs == [] {
    } else if fs[0].0 == k {
      assert ([(k, v)] + fs[1..])[1..] == fs[1..];
    } else {
      SetSet(fs[1..], k, v, w);
      assert ([fs[0]] + Set(fs[1..], k, v))[1..] == Set(fs[1..], k, v);
    }
  }

  // ---------------------------------------------------------------------
  // Property reads `v[k]`
  // ---------------------------------------------------------------------

  predicate IsDigit(c: char)
  {
    '0' <= c <= '9'
  }

  function DecimalValue(s: string): nat
    requires forall i :: 0 <= i < |s| ==> IsDigit(s[i])
  {
    if s == [] then 0
    else
      assert IsDigit(s[|s| - 1]);
      DecimalValue(s[..|s| - 1]) * 10 + (s[|s| - 1] as int - '0' as int)
  }

  /** A canonical array index: decimal digits, no leading zero except "0" itself. */
  function ArrayIndex(k: string): (r: Option<nat>)
    ensures r.Some? ==> k != "" && (k[0] == '0' ==> k == "0")
  {
    if k != [] && (forall i :: 0 <= i < |k| ==> IsDigit(k[i])) && (k[0] != '0' || k == "0")
    then Some(DecimalValue(k))
    else None
  }

  /**
   * `v[k]`: an object's own entry, an array's or a string's element at a
   * canonical index or its `length`; booleans and numbers have no own
   * properties. On `null` JavaScript throws: every read in the form code
   * first tests its value for truthiness or against `null` (and models the
   * TypeError where the source does not), so `null` is never read here; the
   * model answers `undefined` for it.
   */
  function Prop(v: Json, k: string): (r: Option<Json>)
    ensures v.JObj? ==> r == Get(v.fields, k)
    ensures v.JNull? || v.JBool? || v.JNum? ==> r.None?
  {
    match v
    case JObj(fs) => Get(fs, k)
    case JArr(xs) =>
      if k == "length" then Some(JNum(|xs|))
      else (match ArrayIndex(k)
            case Some(i) => if i < |xs| then Some(xs[i]) else None
            case None => None)
    case JStr(s) =>
      if k == "length" then Some(JNum(|s|))
      else (match ArrayIndex(k)
            case Some(i) => if i < |s| then Some(JStr([s[i]])) else None
            case None => None)
    case _ => None
  }

  // ---------------------------------------------------------------------
  // split / join on one separator character
  // ---------------------------------------------------------------------

  predicate NoSep(p: Path, sep: char)
  {
    forall i :: 0 <= i < |p| ==> sep !in p[i]
  }

  /** `s.split(sep)`: never empty, and no part contains the separator. */
  function Split(s: string, sep: char): (r: Path)
    ensures |r| >= 1
    ensures NoSep(r, sep)
    ensures sep !in s ==> r == [s]
  {
    if s == [] then [[]]
    else if s[0] == sep then [[]] + Split(s[1..], sep)
    else
      var t := Split(s[1..], sep);
      assert sep !in s ==> [s[0]] + s[1..] == s;
      [[s[0]] + t[0]] + t[1..]
  }

  /** `parts.join(sep)`. */
  function Join(parts: Path, sep: char): string
  {
    if parts == [] then ""
    else if |parts| == 1 then parts[0]
    else parts[0] + [sep] + Join(parts[1..], sep)
  }

  /** Joining the parts of a split gives back the string. */
  lemma {:induction false} JoinSplit(s: string, sep: char)
    ensures Join(Split(s, sep), sep) == s
  {
    if s == [] {
    } else if s[0] == sep {
      JoinSplit(s[1..], sep);
      assert ([[]] + Split(s[1..], sep))[1..] == Split(s[1..], sep);
    } else {
      var t := Split(s[1..], sep);
      JoinSplit(s[1..], sep);
      var r := [[s[0]] + t[0]] + t[1..];
      assert r[1..] == t[1..];
      if |t| == 1 {
        assert Join(t, sep) == t[0];
      } else {
        assert Join(t, sep) == t[0] + [sep] + Join(t[1..], sep);
      }
    }
  }

  /** Splitting a join of separator-free parts gives back the parts. */
  lemma {:induction false} SplitJoin(p: Path, sep: char)
    requires |p| >= 1 && NoSep(p, sep)
    ensures Split(Join(p, sep), sep) == p
  {
    if |p| == 1 {
      assert sep !in p[0];
    } else {
      SplitJoin(p[1..], sep);
      SplitPrefix(p[0], Join(p[1..], sep), sep);
    }
  }

  /** Splitting `a + sep + b` for a separator-free `a`. */
  lemma {:induction false} SplitPrefix(a: string, b: string, sep: char)
    requires sep !in a
    ensures Split(a + [sep] + b, sep) == [a] + Split(b, sep)
    decreases |a|
  {
    if a == [] {
      assert [] + [sep] + b == [sep] + b;
      assert ([sep] + b)[1..] == b;
    } else {
      var s := a + [sep] + b;
      assert s[0] == a[0] && s[1..] == a[1..] + [sep] + b;
      SplitPrefix(a[1..], b, sep);
      assert [a[0]] + a[1..] == a;
    }
  }

  /** The shape of a split with more than one part, as `fieldPath.slice(1).join(sep)` uses it. */
  lemma SplitTail(s: string, sep: char)
    requires |Split(s, sep)| > 1
    ensures var p := Split(s, sep);
      s == p[0] + [sep] + Join(p[1..], sep) && |Join(p[1..], sep)| < |s|
  {
    JoinSplit(s, sep);
  }
}
