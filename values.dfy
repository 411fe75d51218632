/** Render-time template values as the sandbox sees them: PHP scalars, objects
    and (ordered, possibly nested) PHP arrays. Values are finite trees; the
    identity of a PHP reference slot inside an array is kept as an opaque id. */
module Values {

  datatype Option<+T> = None | Some(value: T)

  /** An object handed to a template. `hasToString` stands for
      `method_exists($obj, '__toString')`; `castsToFalse` says whether `!$obj`
      holds, which PHP allows for a few internal classes (an empty
      `SimpleXMLElement`, which also has `__toString`, is one). */
  datatype Object = Object(id: nat, hasToString: bool, castsToFalse: bool)

  /** PHP array keys are integers or strings. */
  datatype Key = IntKey(i: int) | StrKey(s: string)

  datatype Value =
    | Null
    | Bool(b: bool)
    | Int(i: int)
    | Str(s: string)
    | Obj(obj: Object)
    | Arr(entries: seq<Entry>)

  /** One slot of a PHP array, in iteration order. `refId` is the id that
      `ReflectionReference::fromArrayElement` reports when the slot holds a
      PHP reference, and None when it holds a plain value. */
  datatype Entry = Entry(key: Key, value: Value, refId: Option<nat>)

  /** PHP's `!$v`: null, false, 0, "", "0", the empty array and an object
      that casts to false are falsy. A falsy value holds no object with
      `__toString` other than, possibly, itself. */
  predicate Falsy(v: Value): (r: bool)
    ensures r ==> StringableLeaves(v) == (if v.Obj? && v.obj.hasToString then [v.obj] else [])
  {
    match v
    case Null => true
    case Bool(b) => !b
    case Int(i) => i == 0
    case Str(s) => s == "" || s == "0"
    case Obj(o) => o.castsToFalse
    case Arr(es) => es == []
  }

  /** Every object with a `__toString` method inside `v`, in depth-first
      iteration order, with nothing skipped: the reference order in which a
      complete walk over `v` would meet them. */
  function StringableLeaves(v: Value): (r: seq<Object>)
    ensures forall o :: o in r ==> o.hasToString
    decreases v, 1
  {
    match v
    case Obj(o) => if o.hasToString then [o] else []
    case Arr(es) => EntriesLeaves(es, |es|)
    case _ => []
  }

  /** StringableLeaves of the first `n` entries of an array, concatenated. */
  function EntriesLeaves(es: seq<Entry>, n: nat): (r: seq<Object>)
    requires n <= |es|
    ensures forall o :: o in r ==> o.hasToString
    decreases Arr(es), 0, n
  {
    if n == 0 then []
    else
      assert es[n - 1] < Arr(es);
      EntriesLeaves(es, n - 1) + StringableLeaves(es[n - 1].value)
  }

  /** Within every array of `v`, two slots that are the same PHP reference
      hold the same value, as slots bound to one variable do. */
  predicate RefConsistent(v: Value)
    decreases v
  {
    match v
    case Arr(es) =>
      (forall i, j :: 0 <= i < |es| && 0 <= j < |es| && es[i].refId.Some? && es[i].refId == es[j].refId ==>
         es[i].value == es[j].value) &&
      (forall i :: 0 <= i < |es| ==> (assert es[i] < v; RefConsistent(es[i].value)))
    case _ => true
  }

  /** `a` is `b` with some elements left out, order kept. */
  predicate IsSubsequence<T(==)>(a: seq<T>, b: seq<T>)
    decreases |b|
  {
    if a == [] then true
    else if b == [] then false
    else
      (a[|a| - 1] == b[|b| - 1] && IsSubsequence(a[..|a| - 1], b[..|b| - 1])) ||
      IsSubsequence(a, b[..|b| - 1])
  }

  lemma {:induction false} SubsequenceExtend<T>(a: seq<T>, b: seq<T>, c: seq<T>)
    requires IsSubsequence(a, b)
    ensures IsSubsequence(a, b + c)
    decreases |c|
  {
    if c == [] {
      assert b + c == b;
    } else if a != [] {
      SubsequenceExtend(a, b, c[..|c| - 1]);
      assert (b + c)[..|b + c| - 1] == b + c[..|c| - 1];
    }
  }

  lemma {:induction false} SubsequenceConcat<T>(a1: seq<T>, b1: seq<T>, a2: seq<T>, b2: seq<T>)
    requires IsSubsequence(a1, b1) && IsSubsequence(a2, b2)
    ensures IsSubsequence(a1 + a2, b1 + b2)
    decreases |b2|
  {
    if a2 == [] {
      assert a1 + a2 == a1;
      SubsequenceExtend(a1, b1, b2);
    } else {
      assert b2 != [];
      var a2', b2' := a2[..|a2| - 1], b2[..|b2| - 1];
      assert (a1 + a2)[..|a1 + a2| - 1] == a1 + a2';
      assert (b1 + b2)[..|b1 + b2| - 1] == b1 + b2';
      if a2[|a2| - 1] == b2[|b2| - 1] && IsSubsequence(a2', b2') {
        SubsequenceConcat(a1, b1, a2', b2');
      } else {
        SubsequenceConcat(a1, b1, a2, b2');
      }
    }
  }
}
