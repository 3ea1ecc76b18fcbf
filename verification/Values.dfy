/**
 Runtime values and the operators both back ends share (`src/value.rs`,
 `src/interpreter/ops.rs`). Decimals are exact reals: the precision limit of
 decimal division is not modelled. Functions, modules, tasks and native
 resources are not values of this model.
 */
module Values {

  datatype Option<+T> = None | Some(value: T)

  datatype Result<+T, +E> = Ok(value: T) | Err(error: E)

  datatype Value =
    | Nil
    | Bool(b: bool)
    | Int(n: int)
    | Dec(d: real)
    | Str(s: string)
    | Vec(items: seq<Value>)
    | Variant(name: string, args: seq<Value>)
    | Struct(tag: string, fields: map<string, Value>)
    | Shared(cell: nat)

  datatype Error = NameError | UnboundAssign | TypeError | DivisionByZero | TooManyRetries | CannotMatch

  datatype BinOp = Add | Sub | Mul | Div | Mod | Eq | Neq | Lt | Gt | Lte | Gte | And | Or

  datatype UnaryOp = Neg | Not

  predicate Truthy(v: Value) {
    match v
    case Nil => false
    case Bool(b) => b
    case Int(n) => n != 0
    case Dec(d) => d != 0.0
    case Str(s) => s != ""
    case Vec(items) => items != []
    case _ => true
  }

  function ToDecimal(v: Value): Option<real> {
    match v
    case Int(n) => Some(n as real)
    case Dec(d) => Some(d)
    case _ => None
  }

  function Abs(x: int): nat {
    if x < 0 then -x else x
  }

  /** Remainder of division truncated toward zero: the sign follows the dividend. */
  function TruncRem(x: int, y: int): (r: int)
    requires y != 0
    ensures Abs(r) < Abs(y)
    ensures x >= 0 ==> r >= 0
    ensures x <= 0 ==> r <= 0
  {
    if x >= 0 then x % Abs(y) else -((-x) % Abs(y))
  }

  function Divide(x: real, y: real): Result<Value, Error> {
    if y == 0.0 then Err(DivisionByZero) else Ok(Dec(x / y))
  }

  /** Division never truncates: an inexact integer quotient becomes a decimal. */
  function DivideInts(x: int, y: int): Result<Value, Error> {
    if y == 0 then Err(DivisionByZero)
    else if TruncRem(x, y) == 0 then Ok(Int(x / y))
    else Divide(x as real, y as real)
  }

  function Compare(a: Value, b: Value, holds: (real, real) -> bool): Result<Value, Error> {
    match (ToDecimal(a), ToDecimal(b))
    case (Some(x), Some(y)) => Ok(Bool(holds(x, y)))
    case (_, _) => Err(TypeError)
  }

  /** Arithmetic on two decimals, once neither operand pair was handled exactly. */
  function Promoted(a: Value, b: Value, f: (real, real) -> Result<Value, Error>): Result<Value, Error> {
    match (ToDecimal(a), ToDecimal(b))
    case (Some(x), Some(y)) => f(x, y)
    case (_, _) => Err(TypeError)
  }

  /** The strict binary operators; `and` and `or` never reach this function. */
  function ApplyBinOp(op: BinOp, a: Value, b: Value): Result<Value, Error> {
    match op
    case Add =>
      if a.Int? && b.Int? then Ok(Int(a.n + b.n))
      else if a.Str? && b.Str? then Ok(Str(a.s + b.s))
      else Promoted(a, b, (x, y) => Ok(Dec(x + y)))
    case Sub =>
      if a.Int? && b.Int? then Ok(Int(a.n - b.n)) else Promoted(a, b, (x, y) => Ok(Dec(x - y)))
    case Mul =>
      if a.Int? && b.Int? then Ok(Int(a.n * b.n)) else Promoted(a, b, (x, y) => Ok(Dec(x * y)))
    case Div =>
      if a.Int? && b.Int? then DivideInts(a.n, b.n) else Promoted(a, b, Divide)
    case Mod =>
      if a.Int? && b.Int? then
        if b.n == 0 then Err(DivisionByZero) else Ok(Int(TruncRem(a.n, b.n)))
      else Err(TypeError)
    case Eq => Ok(Bool(a == b))
    case Neq => Ok(Bool(a != b))
    case Lt => Compare(a, b, (x, y) => x < y)
    case Gt => Compare(a, b, (x, y) => x > y)
    case Lte => Compare(a, b, (x, y) => x <= y)
    case Gte => Compare(a, b, (x, y) => x >= y)
    case And => Err(TypeError)
    case Or => Err(TypeError)
  }

  function ApplyUnary(op: UnaryOp, v: Value): Result<Value, Error> {
    match op
    case Not => Ok(Bool(!Truthy(v)))
    case Neg =>
      match v
      case Int(n) => Ok(Int(-n))
      case Dec(d) => Ok(Dec(-d))
      case _ => Err(TypeError)
  }
}
