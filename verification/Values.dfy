/** What the model assumes of tensors.  Contents, element values and the ordinary operations stay
    uninterpreted: they are the fields of a `Sem`, and every theorem holds for all of them. */
module Values {

  /** The contents of a tensor, whatever its shape and dtype. */
  type Value(==, 0, !new)
  /** One element of a tensor, and a position in one. */
  type Elem(==, 0, !new)
  type Coord(==, 0, !new)

  newtype byte = x: int | 0 <= x < 256
  type Bytes = seq<byte>

  /** Compile-time scalars.  Only finite ones: the encodings of infinities, NaN and complex
      numbers are opaque to everything proved here. */
  type Number = real

  /** Static attributes, by name, as canonical JSON text. */
  type Attrs = map<string, string>

  datatype Option<+T> = None | Some(value: T) {
    predicate IsFailure() {
      None?
    }

    function PropagateFailure<U>(): Option<U>
      requires None?
    {
      None
    }

    function Extract(): T
      requires Some?
    {
      value
    }
  }

  datatype Result<+T, +E> = Success(value: T) | Failure(error: E) {
    predicate IsFailure() {
      Failure?
    }

    function PropagateFailure<U>(): Result<U, E>
      requires Failure?
    {
      Failure(error)
    }

    function Extract(): T
      requires Success?
    {
      value
    }
  }

  /** The result of running a graph: values; an undefined id, operand or blob (`Stuck`); a window
      start on an axis its operand does not have (`Misfit`); or a loop that has not ended within
      the iteration budget (`Diverged`). */
  datatype Outcome<+T> = Ok(value: T) | Stuck | Misfit | Diverged {
    predicate IsFailure() {
      !Ok?
    }

    function PropagateFailure<U>(): Outcome<U>
      requires IsFailure()
    {
      match this
      case Stuck => Stuck
      case Misfit => Misfit
      case Diverged => Diverged
    }

    function Extract(): T
      requires Ok?
    {
      value
    }
  }

  datatype Spec = Spec(shape: seq<nat>, dtype: string)

  datatype WindowOp = Slice | PutSlice

  /** A window's start on one axis: fixed by the graph, the k-th start operand, or the v-th
      symbolic variable of a rewritten loop body. */
  datatype Start = Static(n: int) | Input(k: nat) | Symbolic(v: nat)

  /** One tensor computation with everything but its operands. */
  datatype Kernel =
    | Op(op: string, attrs: Attrs, fill: Option<Number>, spec: Spec)
    | Window(wop: WindowOp, attrs: Attrs, lengths: seq<nat>, starts: seq<Start>, spec: Spec)
    | FoldInit(op: string, attrs: Attrs)
    | Element(op: string, attrs: Attrs, i: nat)
    | FoldFinish(op: string, attrs: Attrs, spec: Spec)
    | Copy

  /** The meaning of tensors.  `apply` is every ordinary operation; `window` is slice and put_slice
      once their starts are known; `choose` is Nx's cond, position by position. */
  datatype Sem = Sem(
    apply: (Kernel, seq<Value>) -> Value,
    window: (Kernel, seq<Value>, seq<int>) -> Value,
    scalar: (Number, Spec) -> Value,
    literal: (Bytes, Spec) -> Value,
    shape: Value -> seq<nat>,
    truthy: Value -> bool,
    toNumber: Value -> Number,
    viewOp: string -> bool,
    fits: (Kernel, seq<seq<nat>>) -> bool,
    choose: (Spec, seq<Value>, seq<Value>, Value) -> Value,
    at: (Value, Coord) -> Elem,
    truthyAt: Elem -> bool,
    castAt: (Spec, Elem) -> Elem)

  /** Python's `int` of a finite number: truncation toward zero. */
  function IntOf(x: Number): (n: int)
    ensures x >= 0.0 ==> n as real <= x < (n + 1) as real
    ensures x < 0.0 ==> (n - 1) as real < x <= n as real
  {
    if x >= 0.0 then x.Floor else -((-x).Floor)
  }

  function Max(a: int, b: int): int { if a < b then b else a }

  function Min(a: int, b: int): int { if a < b then a else b }

  function Gap(a: int, b: int): nat { if a < b then b - a else a - b }

  /** The start from 0 to hi that is nearest to raw; 0 where there is none. */
  ghost predicate Nearest(raw: int, hi: int, start: int) {
    if hi <= 0 then start == 0
    else 0 <= start <= hi && forall n :: 0 <= n <= hi ==> Gap(raw, start) <= Gap(raw, n)
  }

  /** Nx pulls a window's start back into the operand. */
  function Clamp(raw: int, hi: int): (start: int)
    ensures raw <= 0 || hi <= 0 ==> start == 0
    ensures 0 <= raw <= hi ==> start == raw
    ensures 0 <= hi <= raw ==> start == hi
  {
    Max(0, Min(raw, hi))
  }

  /** A start before the operand becomes 0, one past the last fitting start becomes that, and no
      other number is a nearest start. */
  lemma ClampNearest(raw: int, hi: int, start: int)
    ensures Nearest(raw, hi, start) <==> start == Clamp(raw, hi)
  {
    if Nearest(raw, hi, start) && hi > 0 {
      assert Gap(raw, start) <= Gap(raw, Clamp(raw, hi));
    }
  }
}
