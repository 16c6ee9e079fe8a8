/**
 * The `strict` decorator of task1/solution.py. At every call the wrapper reads
 * the function's current annotations, checks each bound argument in signature
 * order against its annotation, calls the function only if all pass, and then
 * checks the returned value against the return annotation.
 *
 * Binding (`sig.bind`, `apply_defaults`) is outside the model: a call is given
 * as its bound arguments, defaults already applied. The wrapped function is an
 * arbitrary function of those arguments.
 */
module Strict {
  import opened Wrappers

  /** The runtime classes of the model; annotations name one of them. */
  datatype PyType = BoolType | IntType | FloatType | StrType | NoneType | TupleType | DictType

  /** Python values; `float` is modelled by `real`. */
  datatype Value =
    | NoneVal
    | BoolVal(b: bool)
    | IntVal(i: int)
    | FloatVal(f: real)
    | StrVal(s: string)
    | TupleVal(items: seq<Value>)
    | DictVal(entries: map<string, Value>)

  /** `type(value)`. */
  function TypeOf(v: Value): PyType
  {
    match v
    case NoneVal => NoneType
    case BoolVal(_) => BoolType
    case IntVal(_) => IntType
    case FloatVal(_) => FloatType
    case StrVal(_) => StrType
    case TupleVal(_) => TupleType
    case DictVal(_) => DictType
  }

  /** `issubclass(sub, sup)`: each class is its own subclass, and `bool` is a subclass of `int`. */
  predicate IsSubclass(sub: PyType, sup: PyType)
  {
    sub == sup || (sub == BoolType && sup == IntType)
  }

  /** `isinstance(v, t)`. */
  predicate IsInstance(v: Value, t: PyType)
  {
    IsSubclass(TypeOf(v), t)
  }

  /** `isinstance` accepts exactly the value's own class, plus `int` for a `bool`. */
  lemma IsInstanceExactly(v: Value, t: PyType)
    ensures IsInstance(v, t) <==> TypeOf(v) == t || (v.BoolVal? && t == IntType)
    ensures IsInstance(v, IntType) <==> v.IntVal? || v.BoolVal?
    ensures !IsInstance(v, BoolType) || v.BoolVal?
    ensures v.IntVal? ==> !IsInstance(v, FloatType)
  {
  }

  datatype ParamKind = PositionalOnly | PositionalOrKeyword | VarPositional | KeywordOnly | VarKeyword

  /** One entry of `bound_args.arguments`: the parameter's name and kind and the value bound to it. */
  datatype BoundArg = BoundArg(name: string, kind: ParamKind, value: Value)

  /**
   * The function's `__annotations__` as they are at the moment of the call;
   * the key "return" holds the return annotation. `functools.wraps` makes the
   * wrapper share this dictionary with the function, so annotations added to
   * the decorated function after decoration are in it.
   */
  type Annotations = map<string, PyType>

  const ReturnKey: string := "return"

  datatype TypeError =
    | ArgumentTypeError(name: string, expected: PyType, got: PyType)
    | ReturnTypeError(expected: PyType, got: PyType)

  /** What a call of the wrapper does: whether the wrapped function ran, and what came out. */
  datatype Call = Call(invoked: bool, outcome: Result<Value, TypeError>)

  predicate IsVariadic(kind: ParamKind)
  {
    kind == VarPositional || kind == VarKeyword
  }

  /** The argument makes the wrapper raise: it is not `*args`/`**kwargs`, is annotated, and fails `isinstance`. */
  predicate Rejects(annotations: Annotations, arg: BoundArg)
  {
    !IsVariadic(arg.kind) && arg.name in annotations && !IsInstance(arg.value, annotations[arg.name])
  }

  /** The error raised for a rejected argument. */
  function ArgumentError(annotations: Annotations, arg: BoundArg): TypeError
    requires arg.name in annotations
  {
    ArgumentTypeError(arg.name, annotations[arg.name], TypeOf(arg.value))
  }

  /** Position, in signature order, of the first argument the check rejects, if any. */
  function FirstRejected(annotations: Annotations, args: seq<BoundArg>): (r: Option<nat>)
    ensures r.None? <==> forall i :: 0 <= i < |args| ==> !Rejects(annotations, args[i])
    ensures r.Some? ==> r.value < |args| && Rejects(annotations, args[r.value])
    ensures r.Some? ==> forall j :: 0 <= j < r.value ==> !Rejects(annotations, args[j])
    decreases |args|
  {
    if args == [] then None
    else if Rejects(annotations, args[0]) then Some(0)
    else
      match FirstRejected(annotations, args[1..])
      case None => None
      case Some(i) => Some(i + 1)
  }

  /**
   * The loop over `bound_args.arguments`: None when every argument passes,
   * otherwise the error for the first argument, in signature order, that fails.
   */
  function CheckArguments(annotations: Annotations, args: seq<BoundArg>): (r: Option<TypeError>)
    ensures r.None? <==> forall i :: 0 <= i < |args| ==> !Rejects(annotations, args[i])
    ensures r.Some? ==> exists i :: 0 <= i < |args| && Rejects(annotations, args[i])
                                    && (forall j :: 0 <= j < i ==> !Rejects(annotations, args[j]))
                                    && r.value == ArgumentError(annotations, args[i])
  {
    match FirstRejected(annotations, args)
    case None => None
    case Some(i) => Some(ArgumentError(annotations, args[i]))
  }

  /** The returned value passes: no return annotation, or `isinstance` holds. */
  predicate ReturnAccepted(annotations: Annotations, result: Value)
  {
    ReturnKey !in annotations || IsInstance(result, annotations[ReturnKey])
  }

  /** `wrapper(*args, **kwargs)` for the function `func` with the given current annotations. */
  function Wrapper(annotations: Annotations, args: seq<BoundArg>, func: seq<BoundArg> -> Value): (c: Call)
    ensures c.invoked <==> forall i :: 0 <= i < |args| ==> !Rejects(annotations, args[i])
    ensures c.outcome.Success? ==> c.invoked && c.outcome.value == func(args) && ReturnAccepted(annotations, func(args))
  {
    match CheckArguments(annotations, args)
    case Some(e) => Call(false, Failure(e))
    case None =>
      var result := func(args);
      if ReturnAccepted(annotations, result) then Call(true, Success(result))
      else Call(true, Failure(ReturnTypeError(annotations[ReturnKey], TypeOf(result))))
  }

  /**
   * An argument that fails its annotation makes the wrapper raise before the
   * function runs, naming the first failing parameter in signature order.
   */
  lemma RejectedArgumentStopsCall(annotations: Annotations, args: seq<BoundArg>, func: seq<BoundArg> -> Value, i: nat)
    requires i < |args| && Rejects(annotations, args[i])
    requires forall j :: 0 <= j < i ==> !Rejects(annotations, args[j])
    ensures Wrapper(annotations, args, func) == Call(false, Failure(ArgumentError(annotations, args[i])))
  {
    var r := FirstRejected(annotations, args);
    assert !(forall k :: 0 <= k < |args| ==> !Rejects(annotations, args[k])) by {
      assert Rejects(annotations, args[i]);
    }
    var k := r.value;
    assert Rejects(annotations, args[k]);
    assert !(k < i) && !(i < k);
  }

  /**
   * The value bound to an unannotated or variadic parameter never matters to
   * the check: replacing it leaves the outcome of the check unchanged.
   */
  lemma UncheckedArgumentIgnored(annotations: Annotations, args: seq<BoundArg>, i: nat, v: Value)
    requires i < |args| && (IsVariadic(args[i].kind) || args[i].name !in annotations)
    ensures CheckArguments(annotations, args[i := args[i].(value := v)]) == CheckArguments(annotations, args)
  {
    UncheckedPositionIgnored(annotations, args, i, v);
    var r := FirstRejected(annotations, args);
    if r.Some? {
      assert r.value != i;
    }
  }

  /** The search for the first rejected argument does not look at the value of an unchecked one. */
  lemma {:induction false} UncheckedPositionIgnored(annotations: Annotations, args: seq<BoundArg>, i: nat, v: Value)
    requires i < |args| && (IsVariadic(args[i].kind) || args[i].name !in annotations)
    ensures FirstRejected(annotations, args[i := args[i].(value := v)]) == FirstRejected(annotations, args)
    decreases |args|
  {
    var args' := args[i := args[i].(value := v)];
    if i > 0 {
      assert args'[1..] == args[1..][i - 1 := args[i].(value := v)];
      UncheckedPositionIgnored(annotations, args[1..], i - 1, v);
    } else {
      assert args'[1..] == args[1..];
    }
  }

  /** A function with no annotated non-variadic parameter never raises for its arguments. */
  lemma NothingToCheck(annotations: Annotations, args: seq<BoundArg>, func: seq<BoundArg> -> Value)
    requires forall i :: 0 <= i < |args| ==> IsVariadic(args[i].kind) || args[i].name !in annotations
    ensures Wrapper(annotations, args, func).invoked
  {
  }

  /**
   * When every argument passes and the result is accepted, the wrapper returns
   * exactly what the function returned.
   */
  lemma AcceptedCallIsTransparent(annotations: Annotations, args: seq<BoundArg>, func: seq<BoundArg> -> Value)
    requires forall i :: 0 <= i < |args| ==> !Rejects(annotations, args[i])
    requires ReturnAccepted(annotations, func(args))
    ensures Wrapper(annotations, args, func) == Call(true, Success(func(args)))
  {
  }

  /** A result that fails the return annotation raises, after the function has run. */
  lemma RejectedResultRaisesAfterCall(annotations: Annotations, args: seq<BoundArg>, func: seq<BoundArg> -> Value)
    requires forall i :: 0 <= i < |args| ==> !Rejects(annotations, args[i])
    requires ReturnKey in annotations && !IsInstance(func(args), annotations[ReturnKey])
    ensures Wrapper(annotations, args, func)
         == Call(true, Failure(ReturnTypeError(annotations[ReturnKey], TypeOf(func(args)))))
  {
  }

  /** The four annotation types the tests exercise. */
  predicate Supported(t: PyType)
  {
    t == BoolType || t == IntType || t == FloatType || t == StrType
  }

  /** `VALUE_MAP` of tests/test_task1.py: a value of each supported type. */
  function GoodValue(t: PyType): (v: Value)
    requires Supported(t)
    ensures IsInstance(v, t)
  {
    match t
    case BoolType => BoolVal(true)
    case IntType => IntVal(42)
    case FloatType => FloatVal(3.14)
    case StrType => StrVal("test")
  }

  /** `WRONG_VALUES` of tests/test_task1.py: a value that is not an instance of the type. */
  function WrongValue(t: PyType): (v: Value)
    requires Supported(t)
    ensures !IsInstance(v, t)
  {
    match t
    case BoolType => FloatVal(1.24)
    case IntType => StrVal("not an int")
    case FloatType => StrVal("not a float")
    case StrType => IntVal(123)
  }

  /** `def func(x): return x`. */
  function Echo(args: seq<BoundArg>): Value
  {
    if |args| == 1 then args[0].value else NoneVal
  }

  /** `def func(a, b): return a, b` (and `func(x, y)`). */
  function Pair(args: seq<BoundArg>): Value
  {
    if |args| == 2 then TupleVal([args[0].value, args[1].value]) else NoneVal
  }

  /**
   * Annotations are read at call time: the unannotated `func(x)` returns a
   * wrong value unchecked, and once `func.__annotations__["x"]` is set the
   * same call raises without running the function.
   */
  lemma LateArgumentAnnotationEnforced(t: PyType)
    requires Supported(t)
    ensures var args := [BoundArg("x", PositionalOrKeyword, WrongValue(t))];
            && Wrapper(map[], args, Echo) == Call(true, Success(WrongValue(t)))
            && Wrapper(map["x" := t], args, Echo) == Call(false, Failure(ArgumentTypeError("x", t, TypeOf(WrongValue(t)))))
  {
    var args := [BoundArg("x", PositionalOrKeyword, WrongValue(t))];
    RejectedArgumentStopsCall(map["x" := t], args, Echo, 0);
  }

  /** A return annotation added after decoration accepts a right value and rejects a wrong one, after the call. */
  lemma LateReturnAnnotationEnforced(t: PyType, f: seq<BoundArg> -> Value, g: seq<BoundArg> -> Value)
    requires Supported(t)
    requires f([]) == GoodValue(t) && g([]) == WrongValue(t)
    ensures Wrapper(map[ReturnKey := t], [], f) == Call(true, Success(GoodValue(t)))
    ensures Wrapper(map[ReturnKey := t], [], g) == Call(true, Failure(ReturnTypeError(t, TypeOf(WrongValue(t)))))
  {
  }

  /**
   * Arguments of the annotated types pass, whether given positionally or by
   * keyword (both bind to the same arguments), and the pair comes back as is.
   */
  lemma AnnotatedPairPasses(t1: PyType, t2: PyType)
    requires Supported(t1) && Supported(t2)
    ensures var args := [BoundArg("a", PositionalOrKeyword, GoodValue(t1)), BoundArg("b", PositionalOrKeyword, GoodValue(t2))];
            Wrapper(map["a" := t1, "b" := t2], args, Pair) == Call(true, Success(TupleVal([GoodValue(t1), GoodValue(t2)])))
  {
    var args := [BoundArg("a", PositionalOrKeyword, GoodValue(t1)), BoundArg("b", PositionalOrKeyword, GoodValue(t2))];
    var ann := map["a" := t1, "b" := t2];
    assert !Rejects(ann, args[0]) && !Rejects(ann, args[1]);
  }

  /** Without annotations any two values pass through unchanged. */
  lemma UnannotatedPairPasses(x: Value, y: Value)
    ensures var args := [BoundArg("x", PositionalOrKeyword, x), BoundArg("y", PositionalOrKeyword, y)];
            Wrapper(map[], args, Pair) == Call(true, Success(TupleVal([x, y])))
  {
  }

  /** The integer a value of class `int` or `bool` stands for. */
  function AsInt(v: Value): int
    requires v.IntVal? || v.BoolVal?
  {
    if v.IntVal? then v.i else if v.b then 1 else 0
  }

  /** The body of `sum_two`: `a + b`, on the integer operands the decorator lets through. */
  function SumTwoBody(args: seq<BoundArg>): Value
  {
    if |args| == 2 && (args[0].value.IntVal? || args[0].value.BoolVal?) && (args[1].value.IntVal? || args[1].value.BoolVal?)
    then IntVal(AsInt(args[0].value) + AsInt(args[1].value))
    else NoneVal
  }

  /** `sum_two(a: int, b: int) -> int`, decorated with `@strict`. */
  function SumTwo(a: Value, b: Value): (c: Call)
    ensures IsInstance(a, IntType) && IsInstance(b, IntType) ==> c == Call(true, Success(IntVal(AsInt(a) + AsInt(b))))
    ensures !IsInstance(a, IntType) ==> c == Call(false, Failure(ArgumentTypeError("a", IntType, TypeOf(a))))
    ensures IsInstance(a, IntType) && !IsInstance(b, IntType) ==> c == Call(false, Failure(ArgumentTypeError("b", IntType, TypeOf(b))))
  {
    var ann := map["a" := IntType, "b" := IntType, ReturnKey := IntType];
    var args := [BoundArg("a", PositionalOrKeyword, a), BoundArg("b", PositionalOrKeyword, b)];
    if !IsInstance(a, IntType) then
      RejectedArgumentStopsCall(ann, args, SumTwoBody, 0);
      Wrapper(ann, args, SumTwoBody)
    else if !IsInstance(b, IntType) then
      RejectedArgumentStopsCall(ann, args, SumTwoBody, 1);
      Wrapper(ann, args, SumTwoBody)
    else
      Wrapper(ann, args, SumTwoBody)
  }

  /** `sum_two(1, 2)` returns 3; `sum_two(1, 2.4)` raises for `b` without adding. */
  lemma SumTwoExamples()
    ensures SumTwo(IntVal(1), IntVal(2)) == Call(true, Success(IntVal(3)))
    ensures SumTwo(IntVal(1), FloatVal(2.4)) == Call(false, Failure(ArgumentTypeError("b", IntType, FloatType)))
  {
  }
}
