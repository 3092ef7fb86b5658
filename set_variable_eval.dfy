/**
  The expression language of the workflow `let` step (SetVariableWorkflowStep.SetVariableEvaluation):
  a token list is split at an operator chosen by precedence and direction, the two sides are
  evaluated recursively, `??` falls back to its right-hand side, and integer operands are combined
  with Java int arithmetic. Tokenizing, resolving a token against the workflow context, and the
  coercions `asInteger` / `asDouble` and the double arithmetic are inputs, gathered in a Context.
*/
module SetVariableEvaluation {
  import opened Wrappers
  import opened JavaLang

  /** The values an expression produces: Java null, a String, an Integer, a reference to a
      mutable map (see SetVariableStep), or any other object (a Double, a list, ...). */
  datatype Value =
    | VNull
    | VString(s: string)
    | VInt(i: Int32)
    | VMapRef(ref: nat)
    | VOther(tag: string)

  /** What the evaluator takes from its surroundings and does not define itself. */
  datatype Context = Context(
    /** QuotedStringTokenizer.isQuoted on one token or on the whole input. */
    isQuoted: string -> bool,
    /** QuotedStringTokenizer.unwrapIfQuoted. */
    unwrapIfQuoted: string -> string,
    /** The tokenizer's remainderAsList on an input that is not wholly quoted; it fails on an open quote. */
    tokenize: string -> Result<seq<string>>,
    /** context.resolve (or resolveWaiting) of a token to Object. */
    resolveObject: string -> Result<Value>,
    /** context.resolve (or resolveWaiting) of a token to String; None is a null String. */
    resolveString: string -> Result<Option<string>>,
    /** asInteger: the Integer a value coerces to, if any. */
    asInteger: Value -> Option<Int32>,
    /** Whether asDouble finds a finite Double for a value. */
    asDouble: Value -> bool,
    /** The double branch of applyMathOperator for `+ - * /` once both sides are finite doubles. */
    doubleOp: (string, Value, Value) -> Result<Value>,
    /** `/` on two ints, which the source computes in floating point (1.0*a/b). */
    intDivide: (Int32, Int32) -> Result<Value>,
    /** toString of a value, as it appears in error messages. */
    show: Value -> string,
    /** Thread.currentThread().isInterrupted() when processMaybe catches an exception. */
    threadInterrupted: bool)

  // ---------------------------------------------------------------- operators

  const NULLISH: set<string> := {"??"}
  const ADDITIVE: set<string> := {"+", "-"}
  const MULTIPLICATIVE: set<string> := {"*", "/"}
  const MODULO: set<string> := {"%"}

  predicate IsMathOperator(op: string) {
    op in ADDITIVE || op in MULTIPLICATIVE || op in MODULO
  }

  /** The index of the leftmost token in `ops`. */
  function FindFirst(w: seq<string>, ops: set<string>): (r: Option<nat>)
    ensures r.None? <==> forall k :: 0 <= k < |w| ==> w[k] !in ops
    ensures r.Some? ==> r.value < |w| && w[r.value] in ops
    ensures r.Some? ==> forall k :: 0 <= k < r.value ==> w[k] !in ops
    decreases |w|
  {
    if w == [] then None
    else if w[0] in ops then Some(0)
    else match FindFirst(w[1..], ops)
      case None => None
      case Some(i) => Some(i + 1)
  }

  /** The index of the rightmost token in `ops`. */
  function FindLast(w: seq<string>, ops: set<string>): (r: Option<nat>)
    ensures r.None? <==> forall k :: 0 <= k < |w| ==> w[k] !in ops
    ensures r.Some? ==> r.value < |w| && w[r.value] in ops
    ensures r.Some? ==> forall k :: r.value < k < |w| ==> w[k] !in ops
    decreases |w|
  {
    if w == [] then None
    else if w[|w| - 1] in ops then Some(|w| - 1)
    else FindLast(w[..|w| - 1], ops)
  }

  lemma FirstIsUnique(w: seq<string>, ops: set<string>, i: nat)
    requires i < |w| && w[i] in ops && forall k :: 0 <= k < i ==> w[k] !in ops
    ensures FindFirst(w, ops) == Some(i)
  {
    var r := FindFirst(w, ops);
    assert r.Some?;
  }

  lemma LastIsUnique(w: seq<string>, ops: set<string>, i: nat)
    requires i < |w| && w[i] in ops && forall k :: i < k < |w| ==> w[k] !in ops
    ensures FindLast(w, ops) == Some(i)
  {
    var r := FindLast(w, ops);
    assert r.Some?;
  }

  predicate StartsBlank(l: seq<string>) {
    l != [] && IsBlank(l[0])
  }

  predicate EndsBlank(l: seq<string>) {
    l != [] && IsBlank(l[|l| - 1])
  }

  /**
    trim(List): a blank first token is dropped, then a blank last token of what remains.
    So at most one token goes from each end, only a blank one, and every other token stays in order.
  */
  function TrimTokens(l: seq<string>): (r: seq<string>)
    ensures var rest := if StartsBlank(l) then l[1..] else l;
            r <= rest && |rest| - |r| <= 1 && (|r| < |rest| <==> EndsBlank(rest))
  {
    var l1 := if StartsBlank(l) then l[1..] else l;
    if EndsBlank(l1) then l1[..|l1| - 1] else l1
  }

  /** Where an expression is cut: the operator token, its position, and the trimmed sides. */
  datatype Cut = Cut(at: nat, op: string, lhs: seq<string>, rhs: seq<string>)

  /**
    What handleTokenIfPresent finds: the first token of `ops` scanning from the left, or from the
    right when `fromRight`. The operator token is in neither side; the sides are trimmed.
  */
  function SplitAt(w: seq<string>, ops: set<string>, fromRight: bool): (r: Option<Cut>)
    ensures r.None? <==> forall k :: 0 <= k < |w| ==> w[k] !in ops
    ensures r.Some? ==> r.value.at < |w| && r.value.op == w[r.value.at] && r.value.op in ops
    ensures r.Some? ==> r.value == CutAt(w, r.value.at)
    ensures r.Some? && !fromRight ==> forall k :: 0 <= k < r.value.at ==> w[k] !in ops
    ensures r.Some? && fromRight ==> forall k :: r.value.at < k < |w| ==> w[k] !in ops
    ensures r.Some? ==> |r.value.lhs| + |r.value.rhs| < |w|
  {
    if fromRight then
      match FindLast(w, ops)
      case None => None
      case Some(i) => Some(CutAt(w, i))
    else
      match FindFirst(w, ops)
      case None => None
      case Some(i) => Some(CutAt(w, i))
  }

  /** The cut at index `i`: its sides leave out the operator token, so together they are shorter than `w`. */
  function CutAt(w: seq<string>, i: nat): (c: Cut)
    requires i < |w|
    ensures c.at == i && c.op == w[i]
    ensures c.lhs == TrimTokens(w[..i]) && c.rhs == TrimTokens(w[i + 1..])
    ensures |c.lhs| <= i && |c.rhs| < |w| - i
  {
    Cut(i, w[i], TrimTokens(w[..i]), TrimTokens(w[i + 1..]))
  }

  /** handleTokenIfPresent's loop, which visits index i0 or |tokens|-1-i0 in turn. */
  method HandleTokenIfPresent(tokens: seq<string>, startAtRight: bool, ops: set<string>)
    returns (r: Option<Cut>)
    ensures r == SplitAt(tokens, ops, startAtRight)
  {
    var i0 := 0;
    while i0 < |tokens|
      invariant 0 <= i0 <= |tokens|
      invariant !startAtRight ==> forall k :: 0 <= k < i0 ==> tokens[k] !in ops
      invariant startAtRight ==> forall k :: |tokens| - i0 <= k < |tokens| ==> tokens[k] !in ops
    {
      var i := if startAtRight then |tokens| - 1 - i0 else i0;
      var t := tokens[i];
      if t in ops {
        if startAtRight { LastIsUnique(tokens, ops, i); } else { FirstIsUnique(tokens, ops, i); }
        return Some(CutAt(tokens, i));
      }
      i0 := i0 + 1;
    }
    return None;
  }

  /** The operator `process` splits at: `??` first (leftmost), then `+ -`, `* /` and `%` (rightmost). */
  function FindSplit(w: seq<string>): (r: Option<Cut>)
    ensures r.Some? ==> |r.value.lhs| + |r.value.rhs| < |w|
    ensures r.Some? ==> r.value.op == "??" || IsMathOperator(r.value.op)
  {
    var nullish := SplitAt(w, NULLISH, false);
    if nullish.Some? then nullish
    else
      var additive := SplitAt(w, ADDITIVE, true);
      if additive.Some? then additive
      else
        var multiplicative := SplitAt(w, MULTIPLICATIVE, true);
        if multiplicative.Some? then multiplicative
        else SplitAt(w, MODULO, true)
  }

  // ---------------------------------------------------------------- evaluation

  /** List.toString of a token list, as error messages show it: `[a, b, c]`. */
  function ListToString(l: seq<string>): string {
    "[" + CommaJoin(l) + "]"
  }

  function CommaJoin(l: seq<string>): string
    decreases |l|
  {
    if l == [] then "" else if |l| == 1 then l[0] else l[0] + ", " + CommaJoin(l[1..])
  }

  /**
    What processMaybe lets out of its catch block: an Error, or an interruption while the current
    thread is itself interrupted. An interruption met while this thread is not interrupted means the
    value was unavailable, and is passed on to the right-hand side like a non-fatal failure.
  */
  predicate Propagates(e: Exception, threadInterrupted: bool) {
    e.JvmError? || (e.Interrupted? && threadInterrupted)
  }

  /** processMaybe: a non-null value is kept; null, unavailable and non-fatal failures are absent; the rest propagate. */
  function ProcessMaybe(res: Result<Value>, threadInterrupted: bool): (r: Result<Option<Value>>)
    ensures r.Err? <==> res.Err? && Propagates(res.error, threadInterrupted)
    ensures r.Err? ==> r.error == res.error
    ensures r.Ok? && r.value.Some? <==> res.Ok? && res.value != VNull
    ensures r.Ok? && r.value.Some? ==> r.value.value == res.value
    ensures res.Err? && res.error.Interrupted? && !threadInterrupted ==> r == Ok(None)
  {
    match res
    case Ok(v) => if v == VNull then Ok(None) else Ok(Some(v))
    case Err(e) =>
      if e.Interrupted? && !threadInterrupted then Ok(None)
      else if IsFatal(e) then Err(e)
      else Ok(None)
  }

  /** process(List): null for no tokens, an operator split if there is one, otherwise the tokens themselves. */
  function Eval(ctx: Context, w: seq<string>): (r: Result<Value>)
    ensures w == [] ==> r == Ok(VNull)
    decreases |w|, 2
  {
    if w == [] then Ok(VNull)
    else match FindSplit(w)
      case Some(sp) => Apply(ctx, sp)
      case None => Stitched(ctx, w)
  }

  function Apply(ctx: Context, sp: Cut): (r: Result<Value>)
    requires sp.op == "??" || IsMathOperator(sp.op)
    decreases |sp.lhs| + |sp.rhs| + 1, 1
  {
    if sp.op == "??" then Nullish(ctx, sp.lhs, sp.rhs) else Binary(ctx, sp.op, sp.lhs, sp.rhs)
  }

  /** handleNullish: the left value unless it is null, unavailable or failed non-fatally; then the right. */
  function Nullish(ctx: Context, lhs: seq<string>, rhs: seq<string>): (r: Result<Value>)
    decreases |lhs| + |rhs| + 1, 0
  {
    match ProcessMaybe(Eval(ctx, lhs), ctx.threadInterrupted)
    case Err(e) => Err(e)
    case Ok(Some(v)) => Ok(v)
    case Ok(None) => Eval(ctx, rhs)
  }

  /** handleAdd, handleSubtract, ...: both sides are processed, the left first, then applyMathOperator. */
  function Binary(ctx: Context, op: string, lhs: seq<string>, rhs: seq<string>): (r: Result<Value>)
    requires IsMathOperator(op)
    decreases |lhs| + |rhs| + 1, 0
  {
    match Eval(ctx, lhs)
    case Err(e) => Err(e)
    case Ok(l) =>
      match Eval(ctx, rhs)
      case Err(e) => Err(e)
      case Ok(r) => ApplyMath(ctx, op, lhs, rhs, l, r)
  }

  /** One token as `process` sees it when no operator splits the list. */
  function Piece(ctx: Context, t: string, toString: bool): Result<Value> {
    if ctx.isQuoted(t) then Ok(VString(ctx.unwrapIfQuoted(t)))
    else if !toString then ctx.resolveObject(t)
    else match ctx.resolveString(t)
      case Err(e) => Err(e)
      case Ok(Some(s)) => Ok(VString(s))
      case Ok(None) => Ok(VNull)
  }

  /** The text Collectors.joining appends for one piece; a null String reads as "null". */
  function PieceText(v: Value): string {
    match v
    case VString(s) => s
    case _ => "null"
  }

  /**
    The tail of `process`: one token is returned as resolved; several are each unwrapped or
    resolved to a String and joined, the first failure in token order propagating.
  */
  function Stitched(ctx: Context, w: seq<string>): (r: Result<Value>)
    requires w != []
    ensures |w| == 1 ==> r == Piece(ctx, w[0], false)
    ensures |w| > 1 ==> (r.Ok? <==> forall k :: 0 <= k < |w| ==> Piece(ctx, w[k], true).Ok?)
    ensures |w| > 1 && r.Ok? ==> r.value == VString(Concat(Texts(ctx, w)))
  {
    if |w| == 1 then Piece(ctx, w[0], false)
    else match Join(ctx, w)
      case Err(e) => Err(e)
      case Ok(s) => Ok(VString(s))
  }

  /** Collectors.joining(): the strings one after another. */
  function Concat(ss: seq<string>): string
    decreases |ss|
  {
    if ss == [] then "" else ss[0] + Concat(ss[1..])
  }

  /** The text of each token resolved to a String, in token order. */
  function Texts(ctx: Context, w: seq<string>): (ts: seq<string>)
    requires forall k :: 0 <= k < |w| ==> Piece(ctx, w[k], true).Ok?
    ensures |ts| == |w| && forall k :: 0 <= k < |w| ==> ts[k] == PieceText(Piece(ctx, w[k], true).value)
  {
    seq(|w|, k requires 0 <= k < |w| => PieceText(Piece(ctx, w[k], true).value))
  }

  /**
    The joined text of several tokens, or the failure of the first token that fails, every token
    before it having resolved.
  */
  function Join(ctx: Context, w: seq<string>): (r: Result<string>)
    ensures r.Ok? <==> forall k :: 0 <= k < |w| ==> Piece(ctx, w[k], true).Ok?
    ensures r.Ok? ==> r.value == Concat(Texts(ctx, w))
    ensures r.Err? ==> exists k :: 0 <= k < |w| && Piece(ctx, w[k], true) == Err(r.error) &&
                                   forall j :: 0 <= j < k ==> Piece(ctx, w[j], true).Ok?
    decreases |w|
  {
    if w == [] then Ok("")
    else match Piece(ctx, w[0], true)
      case Err(e) => Err(e)
      case Ok(v) =>
        assert forall k :: 0 <= k < |w| - 1 ==> w[1..][k] == w[k + 1];
        match Join(ctx, w[1..])
        case Err(e) =>
          assert exists k :: 0 <= k < |w| - 1 && Piece(ctx, w[1..][k], true) == Err(e) &&
                             forall j :: 0 <= j < k ==> Piece(ctx, w[1..][j], true).Ok?;
          var k :| 0 <= k < |w| - 1 && Piece(ctx, w[1..][k], true) == Err(e) &&
                   forall j :: 0 <= j < k ==> Piece(ctx, w[1..][j], true).Ok?;
          assert forall j :: 0 <= j < k + 1 ==> Piece(ctx, w[j], true).Ok?;
          Err(e)
        case Ok(s) =>
          assert Texts(ctx, w) == [PieceText(v)] + Texts(ctx, w[1..]);
          Ok(PieceText(v) + s)
  }

  /** Joining two token lists joins their texts. */
  lemma JoinAppend(ctx: Context, a: seq<string>, b: seq<string>)
    requires Join(ctx, a).Ok? && Join(ctx, b).Ok?
    ensures Join(ctx, a + b).Ok? && Join(ctx, a + b).value == Join(ctx, a).value + Join(ctx, b).value
  {
    assert forall k :: 0 <= k < |a + b| ==> Piece(ctx, (a + b)[k], true).Ok? by {
      forall k | 0 <= k < |a + b|
        ensures Piece(ctx, (a + b)[k], true).Ok?
      {
        if k >= |a| {
          assert (a + b)[k] == b[k - |a|];
        }
      }
    }
    TextsAppend(ctx, a, b);
    ConcatAppend(Texts(ctx, a), Texts(ctx, b));
  }

  lemma TextsAppend(ctx: Context, a: seq<string>, b: seq<string>)
    requires forall k :: 0 <= k < |a| ==> Piece(ctx, a[k], true).Ok?
    requires forall k :: 0 <= k < |b| ==> Piece(ctx, b[k], true).Ok?
    requires forall k :: 0 <= k < |a + b| ==> Piece(ctx, (a + b)[k], true).Ok?
    ensures Texts(ctx, a + b) == Texts(ctx, a) + Texts(ctx, b)
  {
    var l, r := Texts(ctx, a + b), Texts(ctx, a) + Texts(ctx, b);
    forall k | 0 <= k < |l|
      ensures l[k] == r[k]
    {
      if k < |a| {
        assert (a + b)[k] == a[k];
      } else {
        assert (a + b)[k] == b[k - |a|];
      }
    }
  }

  lemma {:induction false} ConcatAppend(x: seq<string>, y: seq<string>)
    ensures Concat(x + y) == Concat(x) + Concat(y)
    decreases |x|
  {
    if x == [] {
      assert x + y == y;
    } else {
      assert (x + y)[1..] == x[1..] + y;
      ConcatAppend(x[1..], y);
    }
  }

  // ---------------------------------------------------------------- applyMathOperator

  /** `x` is the `int` that Java computes for the exact result `exact`: in range and congruent
      modulo 2^32, hence `exact` itself whenever that fits. */
  ghost predicate IsJavaInt(x: int, exact: int) {
    && INT_MIN <= x <= INT_MAX
    && (x - exact) % TWO_32 == 0
    && (INT_MIN <= exact <= INT_MAX ==> x == exact)
  }

  function InvalidLeft(ctx: Context, op: string, lhs0: seq<string>, lhs: Value): string {
    "Invalid left argument to operation '" + op + "': " + ListToString(lhs0) + " => " + ctx.show(lhs)
  }

  function InvalidRight(ctx: Context, op: string, rhs0: seq<string>, rhs: Value): string {
    "Invalid right argument to operation '" + op + "': " + ListToString(rhs0) + " = " + ctx.show(rhs)
  }

  /**
    The ifInt lambdas of handleAdd, handleSubtract, handleMultiply, handleDivide and handleModulo:
    `+ - *` give the Java int result (wrapping on overflow); `%` divides by zero with an
    ArithmeticException and otherwise gives the remainder of truncating division.
  */
  function IntOp(ctx: Context, op: string, a: Int32, b: Int32): (r: Result<Value>)
    requires IsMathOperator(op)
    ensures op == "+" ==> r.Ok? && r.value.VInt? && IsJavaInt(r.value.i, a + b)
    ensures op == "-" ==> r.Ok? && r.value.VInt? && IsJavaInt(r.value.i, a - b)
    ensures op == "*" ==> r.Ok? && r.value.VInt? && IsJavaInt(r.value.i, a * b)
    ensures op == "%" && b == 0 ==> r == Err(Arithmetic("/ by zero"))
    ensures op == "%" && b != 0 ==>
              r.Ok? && r.value.VInt? && Abs(r.value.i) < Abs(b) && a == JavaDiv(a, b) * b + r.value.i
  {
    if op == "+" then Ok(VInt(Plus(a, b)))
    else if op == "-" then Ok(VInt(Minus(a, b)))
    else if op == "*" then Ok(VInt(Times(a, b)))
    else if op == "/" then ctx.intDivide(a, b)
    else Remainder(a, b)
  }

  /** Java's int addition. */
  function Plus(a: Int32, b: Int32): (r: Int32)
    ensures IsJavaInt(r, a + b)
  {
    Wrap32(a + b)
  }

  /** Java's int subtraction. */
  function Minus(a: Int32, b: Int32): (r: Int32)
    ensures IsJavaInt(r, a - b)
  {
    Wrap32(a - b)
  }

  /** Java's int multiplication. */
  function Times(a: Int32, b: Int32): (r: Int32)
    ensures IsJavaInt(r, a * b)
  {
    Wrap32(a * b)
  }

  function Remainder(a: Int32, b: Int32): (r: Result<Value>)
    ensures b == 0 ==> r == Err(Arithmetic("/ by zero"))
    ensures b != 0 ==> r.Ok? && r.value.VInt? && Abs(r.value.i) < Abs(b) && a == JavaDiv(a, b) * b + r.value.i
  {
    if b == 0 then Err(Arithmetic("/ by zero"))
    else
      var m := JavaRem(a, b);
      assert Abs(m) < Abs(b) <= 0x8000_0000;
      JavaDivRem(a, b);
      Ok(VInt(m))
  }

  /**
    applyMathOperator on already processed operands. Two integers are combined by IntOp; otherwise
    `+ - * /` go to the double branch, and a side that is no finite double is an invalid argument,
    the left one first. `%` has no double branch, so there a side that is no integer is invalid.
  */
  function ApplyMath(ctx: Context, op: string, lhs0: seq<string>, rhs0: seq<string>, lhs: Value, rhs: Value)
    : (r: Result<Value>)
    requires IsMathOperator(op)
    ensures ctx.asInteger(lhs).Some? && ctx.asInteger(rhs).Some? ==>
              r == IntOp(ctx, op, ctx.asInteger(lhs).value, ctx.asInteger(rhs).value)
    ensures op == "%" && ctx.asInteger(lhs).None? ==> r == Err(IllegalArgument(InvalidLeft(ctx, op, lhs0, lhs)))
    ensures op == "%" && ctx.asInteger(lhs).Some? && ctx.asInteger(rhs).None? ==>
              r == Err(IllegalArgument(InvalidRight(ctx, op, rhs0, rhs)))
    ensures op != "%" && (ctx.asInteger(lhs).None? || ctx.asInteger(rhs).None?) ==>
              r == if !ctx.asDouble(lhs) then Err(IllegalArgument(InvalidLeft(ctx, op, lhs0, lhs)))
                   else if !ctx.asDouble(rhs) then Err(IllegalArgument(InvalidRight(ctx, op, rhs0, rhs)))
                   else ctx.doubleOp(op, lhs, rhs)
  {
    var li, ri := ctx.asInteger(lhs), ctx.asInteger(rhs);
    if li.Some? && ri.Some? then IntOp(ctx, op, li.value, ri.value)
    else if op != "%" then
      if ctx.asDouble(lhs) && ctx.asDouble(rhs) then ctx.doubleOp(op, lhs, rhs)
      else if !ctx.asDouble(lhs) then Err(IllegalArgument(InvalidLeft(ctx, op, lhs0, lhs)))
      else Err(IllegalArgument(InvalidRight(ctx, op, rhs0, rhs)))
    else if li.None? then Err(IllegalArgument(InvalidLeft(ctx, op, lhs0, lhs)))
    else Err(IllegalArgument(InvalidRight(ctx, op, rhs0, rhs)))
  }

  // ---------------------------------------------------------------- precedence and direction

  /** `??` binds loosest: a list holding `??` is cut at the leftmost one, whatever else it holds. */
  lemma NullishSplitsAtLeftmost(ctx: Context, w: seq<string>, i: nat)
    requires i < |w| && w[i] == "??" && forall k :: 0 <= k < i ==> w[k] != "??"
    ensures var left := Eval(ctx, TrimTokens(w[..i]));
            Eval(ctx, w) == (if left.Ok? && left.value != VNull then left
                             else if left.Err? && Propagates(left.error, ctx.threadInterrupted) then left
                             else Eval(ctx, TrimTokens(w[i + 1..])))
  {
    FirstIsUnique(w, NULLISH, i);
    var sp := Cut(i, "??", TrimTokens(w[..i]), TrimTokens(w[i + 1..]));
    assert FindSplit(w) == Some(sp);
    assert Eval(ctx, w) == Nullish(ctx, sp.lhs, sp.rhs);
    NullishCases(ctx, sp.lhs, sp.rhs);
  }

  /** handleNullish case by case: the left value, the left failure that propagates, or the right side. */
  lemma NullishCases(ctx: Context, lhs: seq<string>, rhs: seq<string>)
    ensures var left := Eval(ctx, lhs);
            Nullish(ctx, lhs, rhs) == (if left.Ok? && left.value != VNull then left
                                       else if left.Err? && Propagates(left.error, ctx.threadInterrupted) then left
                                       else Eval(ctx, rhs))
  {
    var left := Eval(ctx, lhs);
    var pm := ProcessMaybe(left, ctx.threadInterrupted);
    if left.Ok? && left.value != VNull {
      assert pm.Ok? && pm.value.Some? && pm.value.value == left.value;
    } else if left.Err? && Propagates(left.error, ctx.threadInterrupted) {
      assert pm.Err? && pm.error == left.error;
    } else {
      assert pm.Ok? && pm.value.None?;
    }
  }

  /** Without `??`, a list holding `+` or `-` is cut at the rightmost one, so `a - b - c` is `(a - b) - c`. */
  lemma AdditiveSplitsAtRightmost(ctx: Context, w: seq<string>, i: nat)
    requires forall k :: 0 <= k < |w| ==> w[k] != "??"
    requires i < |w| && w[i] in ADDITIVE && forall k :: i < k < |w| ==> w[k] !in ADDITIVE
    ensures Eval(ctx, w) == Binary(ctx, w[i], TrimTokens(w[..i]), TrimTokens(w[i + 1..]))
  {
    assert SplitAt(w, NULLISH, false).None?;
    LastIsUnique(w, ADDITIVE, i);
  }

  /** Without `??`, `+` or `-`, a list holding `*` or `/` is cut at the rightmost one. */
  lemma MultiplicativeSplitsAtRightmost(ctx: Context, w: seq<string>, i: nat)
    requires forall k :: 0 <= k < |w| ==> w[k] != "??" && w[k] !in ADDITIVE
    requires i < |w| && w[i] in MULTIPLICATIVE && forall k :: i < k < |w| ==> w[k] !in MULTIPLICATIVE
    ensures Eval(ctx, w) == Binary(ctx, w[i], TrimTokens(w[..i]), TrimTokens(w[i + 1..]))
  {
    assert SplitAt(w, NULLISH, false).None?;
    assert SplitAt(w, ADDITIVE, true).None?;
    LastIsUnique(w, MULTIPLICATIVE, i);
  }

  /** `%` binds tightest: it is reached only when no other operator is present, and is cut at the rightmost one. */
  lemma ModuloSplitsAtRightmost(ctx: Context, w: seq<string>, i: nat)
    requires forall k :: 0 <= k < |w| ==> w[k] != "??" && w[k] !in ADDITIVE && w[k] !in MULTIPLICATIVE
    requires i < |w| && w[i] == "%" && forall k :: i < k < |w| ==> w[k] != "%"
    ensures Eval(ctx, w) == Binary(ctx, "%", TrimTokens(w[..i]), TrimTokens(w[i + 1..]))
  {
    assert SplitAt(w, NULLISH, false).None?;
    assert SplitAt(w, ADDITIVE, true).None?;
    assert SplitAt(w, MULTIPLICATIVE, true).None?;
    LastIsUnique(w, MODULO, i);
  }

  /** A list with no operator token is resolved as it stands: one token as an object, several as joined text. */
  lemma NoOperatorResolvesTokens(ctx: Context, w: seq<string>)
    requires w != []
    requires forall k :: 0 <= k < |w| ==> w[k] != "??" && !IsMathOperator(w[k])
    ensures |w| == 1 ==> Eval(ctx, w) == Piece(ctx, w[0], false)
    ensures |w| > 1 ==> Eval(ctx, w) == match Join(ctx, w) case Ok(s) => Ok(VString(s)) case Err(e) => Err(e)
  {
    assert SplitAt(w, NULLISH, false).None?;
    assert SplitAt(w, ADDITIVE, true).None?;
    assert SplitAt(w, MULTIPLICATIVE, true).None?;
    assert SplitAt(w, MODULO, true).None?;
  }

  /** Two integer operands of `+` give their sum as a Java int (wrapping on overflow), whatever surrounds them. */
  lemma IntegerSum(ctx: Context, w: seq<string>, i: nat, a: Int32, b: Int32)
    requires forall k :: 0 <= k < |w| ==> w[k] != "??"
    requires i < |w| && w[i] == "+" && forall k :: i < k < |w| ==> w[k] !in ADDITIVE
    requires Eval(ctx, TrimTokens(w[..i])).Ok? && ctx.asInteger(Eval(ctx, TrimTokens(w[..i])).value) == Some(a)
    requires Eval(ctx, TrimTokens(w[i + 1..])).Ok? && ctx.asInteger(Eval(ctx, TrimTokens(w[i + 1..])).value) == Some(b)
    ensures Eval(ctx, w).Ok? && Eval(ctx, w).value.VInt? && IsJavaInt(Eval(ctx, w).value.i, a + b)
  {
    AdditiveSplitsAtRightmost(ctx, w, i);
    var lhs, rhs := TrimTokens(w[..i]), TrimTokens(w[i + 1..]);
    var l, r := Eval(ctx, lhs).value, Eval(ctx, rhs).value;
    calc {
      Eval(ctx, w);
      Binary(ctx, "+", lhs, rhs);
      ApplyMath(ctx, "+", lhs, rhs, l, r);
      IntOp(ctx, "+", a, b);
      Ok(VInt(Plus(a, b)));
    }
  }

  // ---------------------------------------------------------------- process(String) and the string helpers

  /**
    process(String): a blank input (null included) is returned unchanged; a wholly quoted input is
    one token; anything else is tokenized first.
  */
  function ProcessString(ctx: Context, input: Option<string>): (r: Result<Value>)
    ensures input.None? ==> r == Ok(VNull)
    ensures input.Some? && IsBlank(input.value) ==> r == Ok(VString(input.value))
    ensures input.Some? && !IsBlank(input.value) && ctx.isQuoted(input.value) ==> r == Eval(ctx, [input.value])
    ensures input.Some? && !IsBlank(input.value) && !ctx.isQuoted(input.value) && ctx.tokenize(input.value).Ok? ==>
              r == Eval(ctx, ctx.tokenize(input.value).value)
    ensures input.Some? && !IsBlank(input.value) && !ctx.isQuoted(input.value) && ctx.tokenize(input.value).Err? ==>
              r == Err(ctx.tokenize(input.value).error)
  {
    match input
    case None => Ok(VNull)
    case Some(s) =>
      if IsBlank(s) then Ok(VString(s))
      else if ctx.isQuoted(s) then Eval(ctx, [s])
      else match ctx.tokenize(s)
        case Err(e) => Err(e)
        case Ok(ws) => Eval(ctx, ws)
  }

  /** Strings.removeFromStart: `prefix` is dropped from the front when it is there. */
  function RemoveFromStart(s: string, prefix: string): (r: string)
    ensures prefix <= s ==> prefix + r == s
    ensures !(prefix <= s) ==> r == s
  {
    if prefix <= s then s[|prefix|..] else s
  }

  /** unquotedStartsWith: after trimming and removing one leading `"` and then one leading `'`, the text starts with `c`. */
  function UnquotedStartsWith(s: Option<string>, c: char): (r: bool)
    ensures s.None? ==> !r
    ensures r ==> c in s.value
    ensures s.Some? && c != '"' && c != '\'' && Trim(s.value) != [] && Trim(s.value)[0] == c ==> r
  {
    match s
    case None => false
    case Some(v) =>
      var t := Trim(RemoveFromStart(RemoveFromStart(Trim(v), "\""), "'"));
      if t != [] && t[0] == c then
        UnquotedTextContains(v, t, c);
        true
      else false
  }

  /** How many quote chars unquotedStartsWith skips at the front of `t`: a `"`, then a `'`. */
  function QuotesSkipped(t: string): (n: nat)
    ensures n <= |t| && n <= 2
  {
    var a := if t != [] && t[0] == '"' then 1 else 0;
    a + (if a < |t| && t[a] == '\'' then 1 else 0)
  }

  /** The first char of `t` from `from` on that is no trim char is `c`. */
  ghost predicate FirstNonBlankIs(t: string, from: nat, c: char) {
    exists j :: from <= j < |t| && t[j] == c && !IsTrimChar(c) && forall m :: from <= m < j ==> IsTrimChar(t[m])
  }

  /**
    unquotedStartsWith holds exactly when, in the trimmed text, the first char that is not blank
    after the skipped `"` and `'` (whichever are there, in that order) is `c`.
  */
  lemma UnquotedStartsWithIff(v: string, c: char)
    ensures UnquotedStartsWith(Some(v), c) <==> FirstNonBlankIs(Trim(v), QuotesSkipped(Trim(v)), c)
  {
    var t0 := Trim(v);
    var q := QuotesSkipped(t0);
    var t2 := RemoveFromStart(RemoveFromStart(t0, "\""), "'");
    SkippedQuotes(t0);
    TrimStartsWith(t2, c);
    FirstNonBlankShift(t0, q, c);
  }

  /** The trimmed text starts with `c` exactly when the first char that is not blank is `c`. */
  lemma TrimStartsWith(t: string, c: char)
    ensures (Trim(t) != [] && Trim(t)[0] == c) <==> FirstNonBlankIs(t, 0, c)
  {
    var r := Trim(t);
    var i := |t| - |TrimStart(t)|;
    if r != [] && r[0] == c {
      assert t[i] == c;
    }
    if FirstNonBlankIs(t, 0, c) {
      var j :| 0 <= j < |t| && t[j] == c && !IsTrimChar(c) && forall m :: 0 <= m < j ==> IsTrimChar(t[m]);
      assert i == j;
    }
  }

  lemma FirstNonBlankShift(t: string, q: nat, c: char)
    requires q <= |t|
    ensures FirstNonBlankIs(t, q, c) <==> FirstNonBlankIs(t[q..], 0, c)
  {
    var u := t[q..];
    if FirstNonBlankIs(t, q, c) {
      var j :| q <= j < |t| && t[j] == c && !IsTrimChar(c) && forall m :: q <= m < j ==> IsTrimChar(t[m]);
      assert u[j - q] == c;
      forall m | 0 <= m < j - q
        ensures IsTrimChar(u[m])
      {
        assert u[m] == t[m + q];
      }
    }
    if FirstNonBlankIs(u, 0, c) {
      var j :| 0 <= j < |u| && u[j] == c && !IsTrimChar(c) && forall m :: 0 <= m < j ==> IsTrimChar(u[m]);
      assert t[j + q] == c;
      forall m | q <= m < j + q
        ensures IsTrimChar(t[m])
      {
        assert t[m] == u[m - q];
      }
    }
  }

  lemma SkippedQuotes(t0: string)
    ensures RemoveFromStart(RemoveFromStart(t0, "\""), "'") == t0[QuotesSkipped(t0)..]
  {
    var t1 := RemoveFromStart(t0, "\"");
    if t0 != [] && t0[0] == '"' {
      assert "\"" <= t0 && t1 == t0[1..];
    } else {
      assert t1 == t0;
    }
    var a := |t0| - |t1|;
    assert t1 == t0[a..];
    if a < |t0| && t0[a] == '\'' {
      assert "'" <= t1;
      assert RemoveFromStart(t1, "'") == t1[1..] == t0[a + 1..];
    } else {
      assert !("'" <= t1);
    }
  }

  lemma UnquotedTextContains(v: string, t: string, c: char)
    requires t == Trim(RemoveFromStart(RemoveFromStart(Trim(v), "\""), "'")) && t != [] && t[0] == c
    ensures c in v
  {
    var t0 := Trim(v);
    var t1 := RemoveFromStart(t0, "\"");
    var t2 := RemoveFromStart(t1, "'");
    assert c in t;
    TrimKeepsChars(t2, c);
    RemoveKeepsChars(t1, "'", c);
    RemoveKeepsChars(t0, "\"", c);
    TrimKeepsChars(v, c);
  }

  lemma TrimKeepsChars(s: string, c: char)
    requires c in Trim(s)
    ensures c in s
  {
    var i := |s| - |TrimStart(s)|;
    var k :| 0 <= k < |Trim(s)| && Trim(s)[k] == c;
    assert s[i + k] == c;
  }

  lemma RemoveKeepsChars(s: string, prefix: string, c: char)
    requires c in RemoveFromStart(s, prefix)
    ensures c in s
  {
    var r := RemoveFromStart(s, prefix);
    var k :| 0 <= k < |r| && r[k] == c;
    if prefix <= s { assert s[|prefix| + k] == c; }
  }

  predicate IsQuoteChar(c: char) {
    c == '"' || c == '\''
  }

  /** trimmedEndsWithQuote: the last char of `s` that is not whitespace is a quote. */
  function TrimmedEndsWithQuote(s: Option<string>): (r: bool)
    ensures r <==> s.Some? && exists k :: 0 <= k < |s.value| && IsQuoteChar(s.value[k])
                                        && forall j :: k < j < |s.value| ==> IsTrimChar(s.value[j])
  {
    match s
    case None => false
    case Some(v) =>
      var t := Trim(v);
      var i := |v| - |TrimStart(v)|;
      if t != [] && IsQuoteChar(t[|t| - 1]) then
        assert v[i + |t| - 1] == t[|t| - 1];
        true
      else
        NoQuoteBeforeTrailingBlanks(v);
        false
  }

  lemma NoQuoteBeforeTrailingBlanks(v: string)
    requires var t := Trim(v); !(t != [] && IsQuoteChar(t[|t| - 1]))
    ensures forall k :: 0 <= k < |v| && IsQuoteChar(v[k]) ==> exists j :: k < j < |v| && !IsTrimChar(v[j])
  {
    var t := Trim(v);
    var i := |v| - |TrimStart(v)|;
    assert TrimmedFrom(v, t, i);
    if t != [] {
      var j := i + |t| - 1;
      assert v[j] == t[|t| - 1] && !IsTrimChar(v[j]) && !IsQuoteChar(v[j]);
      forall k | 0 <= k < |v| && IsQuoteChar(v[k])
        ensures exists m :: k < m < |v| && !IsTrimChar(v[m])
      {
        assert !IsTrimChar(v[k]) && k != j;
        assert k < j;
      }
    } else {
      forall k | 0 <= k < |v| ensures !IsQuoteChar(v[k]) {
        assert IsTrimChar(v[k]);
      }
    }
  }

  /** Strings.isMultiLine, taken as: the text holds a line break. */
  predicate IsMultiLine(s: string) {
    '\n' in s || '\r' in s
  }

  /** The special coercion modes, which the source names by the strings "yaml", "json" and "bash". */
  datatype Coercion = Yaml | Json | Bash

  /**
    shouldTrim: only generated String output is trimmed automatically: always when it ends in a
    quote, never for YAML output ending in a block indicator `+` or `|`, otherwise when it is one line.
  */
  function ShouldTrim(specialMode: Option<Coercion>, result: Value, generated: bool): (r: bool)
    ensures r ==> generated && result.VString?
    ensures generated && result.VString? && TrimmedEndsWithQuote(Some(result.s)) ==> r
    ensures generated && result.VString? && !TrimmedEndsWithQuote(Some(result.s)) ==>
              (r <==> !(specialMode == Some(Yaml) && Trim(result.s) != [] && Trim(result.s)[|Trim(result.s)| - 1] in "+|")
                      && !IsMultiLine(Trim(result.s)))
  {
    if generated && result.VString? then
      var rst := Trim(result.s);
      if rst != [] && IsQuoteChar(rst[|rst| - 1]) then true
      else if specialMode == Some(Yaml) && rst != [] && (rst[|rst| - 1] == '+' || rst[|rst| - 1] == '|') then false
      else !IsMultiLine(rst)
    else false
  }
}
