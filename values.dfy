/**
 * The Python values that flow through option dictionaries, with the parts of
 * Python's semantics the helpers depend on: truthiness, `==` and `isinstance`.
 */
module Values {

  /**
   * A Python option value. `VPath` stands for a `pathlib.Path`, held in its
   * normalised string form; `VList` for a Python list (tuples are not modelled).
   */
  datatype Value =
    | VNone
    | VBool(b: bool)
    | VInt(i: int)
    | VStr(s: string)
    | VPath(path: string)
    | VList(items: seq<Value>)

  /** The built-in classes that `isinstance` checks in validators refer to. */
  datatype PyType = NoneType | BoolType | IntType | StrType | PathType | ListType | ObjectType

  /**
   * Python's `bool(v)`: numbers are true when non-zero, strings and lists
   * when non-empty, a `Path` object always, `None` never.
   */
  function Truthy(v: Value): (r: bool)
    ensures v.VBool? || v.VInt? ==> (r <==> NumberOf(v) != 0)
    ensures v.VStr? ==> (r <==> |v.s| > 0)
    ensures v.VList? ==> (r <==> |v.items| > 0)
    ensures v.VPath? ==> r
    ensures v.VNone? ==> !r
  {
    match v
    case VNone => false
    case VBool(b) => b
    case VInt(i) => i != 0
    case VStr(s) => s != ""
    case VPath(_) => true
    case VList(items) => items != []
  }

  /**
   * Python's `type(v)`: the class a value was built from. It is never
   * `object` itself, and a bool's class is `bool`, not `int`.
   */
  function TypeOf(v: Value): (r: PyType)
    ensures r != ObjectType
    ensures r == BoolType <==> v.VBool?
    ensures r == IntType <==> v.VInt?
  {
    match v
    case VNone => NoneType
    case VBool(_) => BoolType
    case VInt(_) => IntType
    case VStr(_) => StrType
    case VPath(_) => PathType
    case VList(_) => ListType
  }

  /**
   * Python's `isinstance(v, t)`: `t` is the value's own class or one of its
   * base classes, where `bool` is a subclass of `int` and every class is a
   * subclass of `object`.
   */
  function IsInstance(v: Value, t: PyType): (r: bool)
    ensures r <==> t == TypeOf(v) || t == ObjectType || (t == IntType && TypeOf(v) == BoolType)
  {
    match t
    case NoneType => v.VNone?
    case BoolType => v.VBool?
    case IntType => v.VInt? || v.VBool?
    case StrType => v.VStr?
    case PathType => v.VPath?
    case ListType => v.VList?
    case ObjectType => true
  }

  /** The numeric value of an `int` or a `bool` (`True == 1`, `False == 0`). */
  function NumberOf(v: Value): int
    requires v.VInt? || v.VBool?
  {
    if v.VInt? then v.i else if v.b then 1 else 0
  }

  /**
   * Python's `a == b` on option values: a `bool` and an `int` compare by
   * number (`True == 1`); values of any other two different classes are
   * never equal.
   */
  function PyEq(a: Value, b: Value): (r: bool)
    ensures (a.VBool? || a.VInt?) && (b.VBool? || b.VInt?) ==> (r <==> NumberOf(a) == NumberOf(b))
    ensures r && TypeOf(a) != TypeOf(b) ==> {TypeOf(a), TypeOf(b)} == {BoolType, IntType}
  {
    match a
    case VNone => b.VNone?
    case VBool(_) => (b.VBool? || b.VInt?) && NumberOf(a) == NumberOf(b)
    case VInt(_) => (b.VBool? || b.VInt?) && NumberOf(a) == NumberOf(b)
    case VStr(s) => b.VStr? && b.s == s
    case VPath(p) => b.VPath? && b.path == p
    case VList(xs) => b.VList? && PyEqSeq(xs, b.items)
  }

  /** Element-wise `==` of two lists. */
  predicate PyEqSeq(xs: seq<Value>, ys: seq<Value>)
  {
    |xs| == |ys| && (xs == [] || (PyEq(xs[0], ys[0]) && PyEqSeq(xs[1..], ys[1..])))
  }

  /** Every value equals itself under Python's `==`. */
  lemma {:induction false} PyEqReflexive(v: Value)
    ensures PyEq(v, v)
  {
    match v
    case VList(xs) => PyEqSeqReflexive(xs);
    case _ =>
  }

  lemma {:induction false} PyEqSeqReflexive(xs: seq<Value>)
    ensures PyEqSeq(xs, xs)
  {
    if xs != [] {
      PyEqReflexive(xs[0]);
      PyEqSeqReflexive(xs[1..]);
    }
  }

  /** Python's `==` on option values is symmetric. */
  lemma {:induction false} PyEqSymmetric(a: Value, b: Value)
    ensures PyEq(a, b) == PyEq(b, a)
  {
    match a
    case VList(xs) =>
      if b.VList? {
        PyEqSeqSymmetric(xs, b.items);
      }
    case _ =>
  }

  lemma {:induction false} PyEqSeqSymmetric(xs: seq<Value>, ys: seq<Value>)
    ensures PyEqSeq(xs, ys) == PyEqSeq(ys, xs)
  {
    if xs != [] && ys != [] {
      PyEqSymmetric(xs[0], ys[0]);
      PyEqSeqSymmetric(xs[1..], ys[1..]);
    }
  }

  /** Python's `v in s` for a list `s`: some element compares equal. */
  function PyIn(v: Value, s: seq<Value>): (r: bool)
    ensures r <==> exists i :: 0 <= i < |s| && PyEq(v, s[i])
  {
    if s == [] then false
    else PyEq(v, s[0]) || (assert forall i :: 1 <= i < |s| ==> s[i] == s[1..][i - 1]; PyIn(v, s[1..]))
  }
}
