/**
 * The filter-expression interpreter (sphinxcontrib/traceables/filter.py).
 *
 * The expression has already been parsed by Python's parser; the model takes the parse outcome
 * (a tree, or a syntax failure) as input and walks the tree the way `FilterVisitor` does.
 */
module Filter {
  import opened Wrappers
  import Strings
  import Ordering

  /** The comparison operators of a Compare node. */
  datatype CmpOp = Eq | NotEq | Lt | LtE | Gt | GtE | Is | IsNot | In | NotIn

  /**
   * The parsed expression. A Compare node has at least one operator; any operators after the first
   * are in `chained`. Every other node kind (BinOp, BoolOp, Tuple, Call, ...) is `Other`.
   */
  datatype Node =
    | Module(body: seq<Node>)
    | Expr(value: Node)
    | Name(id: string)
    | Num(n: int)
    | Str(s: string)
    | List(elts: seq<Node>)
    | Compare(left: Node, op: CmpOp, right: Node, chained: seq<(CmpOp, Node)>)
    | Other(kind: string)

  /** The values an expression evaluates to: numbers, strings, comparison results and tuples. */
  datatype Value = Number(n: int) | Text(s: string) | Boolean(b: bool) | Tuple(items: seq<Value>)

  /**
   * The failures of a filter. All but the last two are `FilterError`s raised by the visitor; the
   * last two stand for Python's own TypeError (`in` on a non-container) and for an ordering
   * comparison between values of different kinds.
   */
  datatype Error =
    | InvalidSyntax
    | EmptyFilter
    | MultipleExpressions
    | InvalidIdentifier(id: string)
    | MultipleComparators
    | InvalidOperator(op: CmpOp)
    | InvalidInput(kind: string)
    | NotAContainer
    | Unordered

  predicate IsFilterError(e: Error)
  {
    !e.NotAContainer? && !e.Unordered?
  }

  // ---------------------------------------------------------------------------------------------
  // Python value semantics

  /** Booleans take part in arithmetic comparisons as 0 and 1. */
  predicate Numeric(v: Value)
  {
    v.Number? || v.Boolean?
  }

  function NumberOf(v: Value): int
    requires Numeric(v)
  {
    if v.Number? then v.n else if v.b then 1 else 0
  }

  /** Python `==`: numeric across numbers and booleans, elementwise on tuples, false across kinds. */
  predicate Equal(a: Value, b: Value)
    decreases a
  {
    if Numeric(a) && Numeric(b) then NumberOf(a) == NumberOf(b)
    else if a.Text? && b.Text? then a.s == b.s
    else if a.Tuple? && b.Tuple? then
      |a.items| == |b.items| && forall i :: 0 <= i < |a.items| ==> Equal(a.items[i], b.items[i])
    else false
  }

  lemma {:induction false} EqualReflexive(a: Value)
    ensures Equal(a, a)
    decreases a
  {
    if a.Tuple? {
      forall i | 0 <= i < |a.items| ensures Equal(a.items[i], a.items[i]) {
        EqualReflexive(a.items[i]);
      }
    }
  }

  lemma {:induction false} EqualSymmetric(a: Value, b: Value)
    ensures Equal(a, b) == Equal(b, a)
    decreases a
  {
    if a.Tuple? && b.Tuple? && |a.items| == |b.items| {
      forall i | 0 <= i < |a.items| ensures Equal(a.items[i], b.items[i]) == Equal(b.items[i], a.items[i]) {
        EqualSymmetric(a.items[i], b.items[i]);
      }
    }
  }

  /** The index where two tuples first differ, or the shorter length when one is a prefix of the other. */
  function FirstDifference(xs: seq<Value>, ys: seq<Value>): (i: nat)
    ensures i <= |xs| && i <= |ys|
    ensures forall j :: 0 <= j < i ==> Equal(xs[j], ys[j])
    ensures i < |xs| && i < |ys| ==> !Equal(xs[i], ys[i])
  {
    if xs == [] || ys == [] || !Equal(xs[0], ys[0]) then 0
    else 1 + FirstDifference(xs[1..], ys[1..])
  }

  predicate IsOrdering(op: CmpOp)
  {
    op == Lt || op == LtE || op == Gt || op == GtE
  }

  function CompareNumbers(op: CmpOp, x: int, y: int): bool
    requires IsOrdering(op)
  {
    match op
    case Lt => x < y
    case LtE => x <= y
    case Gt => x > y
    case GtE => x >= y
  }

  /** Strings order by code point, lexicographically. */
  function CompareTexts(op: CmpOp, s: string, t: string): bool
    requires IsOrdering(op)
  {
    match op
    case Lt => Ordering.Below(s, t) && s != t
    case LtE => Ordering.Below(s, t)
    case Gt => Ordering.Below(t, s) && s != t
    case GtE => Ordering.Below(t, s)
  }

  /**
   * Whether Python orders two values without a type error: both numeric, both strings, or two tuples
   * whose elements at the first difference can be ordered (a tuple that is a prefix of the other
   * orders by length).
   */
  predicate Orderable(a: Value, b: Value)
    decreases a
  {
    if Numeric(a) && Numeric(b) then true
    else if a.Text? && b.Text? then true
    else if a.Tuple? && b.Tuple? then
      var i := FirstDifference(a.items, b.items);
      i < |a.items| && i < |b.items| ==> Orderable(a.items[i], b.items[i])
    else false
  }

  /**
   * Python `<`, `<=`, `>`, `>=` on two values of the same kind. Tuples compare at their first
   * differing element, or by length when one is a prefix of the other.
   */
  function Order(op: CmpOp, a: Value, b: Value): (r: Result<bool, Error>)
    requires IsOrdering(op)
    ensures r.Success? <==> Orderable(a, b)
    ensures r.Failure? ==> r.error == Unordered
    ensures Numeric(a) && Numeric(b) ==> r == Success(CompareNumbers(op, NumberOf(a), NumberOf(b)))
    ensures a.Text? && b.Text? ==> r == Success(CompareTexts(op, a.s, b.s))
    ensures a.Tuple? && b.Tuple? ==>
      var i := FirstDifference(a.items, b.items);
      if i < |a.items| && i < |b.items| then r == Order(op, a.items[i], b.items[i])
      else r == Success(CompareNumbers(op, |a.items|, |b.items|))
    decreases a
  {
    if Numeric(a) && Numeric(b) then Success(CompareNumbers(op, NumberOf(a), NumberOf(b)))
    else if a.Text? && b.Text? then Success(CompareTexts(op, a.s, b.s))
    else if a.Tuple? && b.Tuple? then
      var i := FirstDifference(a.items, b.items);
      if i < |a.items| && i < |b.items| then Order(op, a.items[i], b.items[i])
      else Success(CompareNumbers(op, |a.items|, |b.items|))
    else Failure(Unordered)
  }

  /** Python `in`: membership by `==` in a tuple, substring in a string; anything else is a TypeError. */
  function Member(a: Value, container: Value): (r: Result<bool, Error>)
    ensures container.Tuple? ==>
      r.Success? && (r.value <==> exists i :: 0 <= i < |container.items| && Equal(a, container.items[i]))
    ensures container.Text? && a.Text? ==>
      r.Success? && (r.value <==> exists i :: Strings.OccursAt(container.s, a.s, i))
    ensures r.Failure? <==> !container.Tuple? && !(container.Text? && a.Text?)
    ensures r.Failure? ==> r.error == NotAContainer
  {
    if container.Tuple? then Success(exists i :: 0 <= i < |container.items| && Equal(a, container.items[i]))
    else if container.Text? && a.Text? then Success(Strings.Contains(container.s, a.s))
    else Failure(NotAContainer)
  }

  /** The comparison a Compare node with a single operator performs on its two evaluated operands. */
  function Apply(op: CmpOp, left: Value, right: Value): (r: Result<Value, Error>)
    ensures r.Success? ==> r.value.Boolean?
    ensures op == Eq ==> r == Success(Boolean(Equal(left, right)))
    ensures op == NotEq ==> r == Success(Boolean(!Equal(left, right)))
    ensures op == Is || op == IsNot <==> r == Failure(InvalidOperator(op))
    ensures op == In || op == NotIn ==>
      (r.Success? <==> Member(left, right).Success?) &&
      (r.Success? ==> r.value == Boolean(if op == In then Member(left, right).value else !Member(left, right).value)) &&
      (r.Failure? ==> r.error == NotAContainer)
    ensures IsOrdering(op) ==>
      (r.Success? <==> Orderable(left, right)) &&
      (r.Success? ==> r.value == Boolean(Order(op, left, right).value)) &&
      (r.Failure? ==> r.error == Unordered)
  {
    match op
    case Eq => Success(Boolean(Equal(left, right)))
    case NotEq => Success(Boolean(!Equal(left, right)))
    case Is => Failure(InvalidOperator(op))
    case IsNot => Failure(InvalidOperator(op))
    case In =>
      var m := Member(left, right);
      if m.Failure? then Failure(m.error) else Success(Boolean(m.value))
    case NotIn =>
      var m := Member(left, right);
      if m.Failure? then Failure(m.error) else Success(Boolean(!m.value))
    case _ =>
      var o := Order(op, left, right);
      if o.Failure? then Failure(o.error) else Success(Boolean(o.value))
  }

  // ---------------------------------------------------------------------------------------------
  // The visitor

  /** The visitor's walk over the tree: a value, or the first failure met in evaluation order. */
  function Eval(node: Node, ids: map<string, Value>): (r: Result<Value, Error>)
    ensures node.Module? && node.body == [] ==> r == Failure(EmptyFilter)
    ensures node.Module? && |node.body| > 1 ==> r == Failure(MultipleExpressions)
    ensures node.Name? ==> (r.Success? <==> node.id in ids)
    ensures node.Name? && node.id in ids ==> r.value == ids[node.id]
    ensures node.Name? && node.id !in ids ==> r.error == InvalidIdentifier(node.id)
    ensures node.Module? && |node.body| == 1 ==> r == Eval(node.body[0], ids)
    ensures node.Expr? ==> r == Eval(node.value, ids)
    ensures node.Num? ==> r == Success(Number(node.n))
    ensures node.Str? ==> r == Success(Text(node.s))
    ensures node.List? ==> (r.Success? <==> EvalList(node.elts, ids).Success?)
    ensures node.List? && r.Success? ==> r.value == Tuple(EvalList(node.elts, ids).value)
    ensures node.Compare? && r.Success? ==> r.value.Boolean?
    ensures node.Compare? && node.chained == [] && Eval(node.left, ids).Success? && Eval(node.right, ids).Success? ==>
      r == Apply(node.op, Eval(node.left, ids).value, Eval(node.right, ids).value)
    ensures node.Other? ==> r == Failure(InvalidInput(node.kind))
    decreases node
  {
    match node
    case Module(body) =>
      if |body| == 0 then Failure(EmptyFilter)
      else if |body| != 1 then Failure(MultipleExpressions)
      else Eval(body[0], ids)
    case Expr(value) => Eval(value, ids)
    case Name(id) => if id in ids then Success(ids[id]) else Failure(InvalidIdentifier(id))
    case Num(n) => Success(Number(n))
    case Str(s) => Success(Text(s))
    case List(elts) =>
      var vs := EvalList(elts, ids);
      if vs.Failure? then Failure(vs.error) else Success(Tuple(vs.value))
    case Compare(left, op, right, chained) =>
      if chained != [] then Failure(MultipleComparators)
      else
        var l := Eval(left, ids);
        if l.Failure? then l
        else
          var r := Eval(right, ids);
          if r.Failure? then r
          else Apply(op, l.value, r.value)
    case Other(kind) => Failure(InvalidInput(kind))
  }

  /** A list's elements, evaluated left to right; the list fails when one of its elements does. */
  function EvalList(elts: seq<Node>, ids: map<string, Value>): (r: Result<seq<Value>, Error>)
    ensures r.Success? ==>
      |r.value| == |elts| && forall i :: 0 <= i < |elts| ==> Eval(elts[i], ids) == Success(r.value[i])
    ensures (forall i :: 0 <= i < |elts| ==> Eval(elts[i], ids).Success?) ==> r.Success?
    decreases elts
  {
    if elts == [] then Success([])
    else
      var head := Eval(elts[0], ids);
      if head.Failure? then Failure(head.error)
      else
        var tail := EvalList(elts[1..], ids);
        assert forall i :: 0 < i < |elts| ==> elts[1..][i - 1] == elts[i];
        if tail.Failure? then Failure(tail.error)
        else Success([head.value] + tail.value)
  }

  /** Element `i` is the first one to fail, with error `e`. */
  predicate FailsFirstAt(elts: seq<Node>, ids: map<string, Value>, i: int, e: Error)
    requires 0 <= i < |elts|
  {
    Eval(elts[i], ids) == Failure(e) && forall j :: 0 <= j < i ==> Eval(elts[j], ids).Success?
  }

  /** A failing list fails with the error of its first failing element: evaluation is left to right. */
  lemma {:induction false} ListFailsAtFirstFailingElement(elts: seq<Node>, ids: map<string, Value>)
    requires EvalList(elts, ids).Failure?
    ensures exists i :: 0 <= i < |elts| && FailsFirstAt(elts, ids, i, EvalList(elts, ids).error)
    decreases elts
  {
    var e := EvalList(elts, ids).error;
    if Eval(elts[0], ids).Success? {
      ListFailsAtFirstFailingElement(elts[1..], ids);
      var i :| 0 <= i < |elts[1..]| && FailsFirstAt(elts[1..], ids, i, e);
      assert FailsFirstAt(elts, ids, i + 1, e);
    } else {
      assert FailsFirstAt(elts, ids, 0, e);
    }
  }

  // ---------------------------------------------------------------------------------------------
  // The matcher

  /** An expression together with its parsed tree. */
  datatype Matcher = Matcher(expression: string, tree: Node)

  /**
   * `ExpressionMatcher(expression)`: `parsed` is what the parser made of the expression, None when it
   * reported a syntax error; that error surfaces here, before any evaluation.
   */
  function NewMatcher(expression: string, parsed: Option<Node>): (r: Result<Matcher, Error>)
    ensures r.Failure? <==> parsed.None?
    ensures r.Failure? ==> r.error == InvalidSyntax && IsFilterError(r.error)
    ensures r.Success? ==> r.value.expression == expression && r.value.tree == parsed.value
  {
    match parsed
    case None => Failure(InvalidSyntax)
    case Some(tree) => Success(Matcher(expression, tree))
  }

  /** `matches`: evaluate the tree against one item's identifier values. */
  function Matches(m: Matcher, ids: map<string, Value>): (r: Result<Value, Error>)
    ensures m.tree == Module([]) ==> r == Failure(EmptyFilter)
    ensures m.tree.Module? && |m.tree.body| > 1 ==> r == Failure(MultipleExpressions)
    ensures m.tree.Module? && |m.tree.body| == 1 ==> r == Eval(m.tree.body[0], ids)
  {
    Eval(m.tree, ids)
  }

  // ---------------------------------------------------------------------------------------------
  // Properties

  /** A list whose elements evaluate to `values` evaluates to the tuple of those values, in order. */
  lemma {:induction false} ListOfValuesInOrder(elts: seq<Node>, ids: map<string, Value>, values: seq<Value>)
    requires |elts| == |values|
    requires forall i :: 0 <= i < |elts| ==> Eval(elts[i], ids) == Success(values[i])
    ensures Eval(List(elts), ids) == Success(Tuple(values))
  {
    var r := EvalList(elts, ids);
    assert r.value == values;
  }

  /** A chained comparison is refused before either operand is looked at. */
  lemma ChainedComparisonRejected(left: Node, op: CmpOp, right: Node, chained: seq<(CmpOp, Node)>, ids: map<string, Value>)
    requires chained != []
    ensures Eval(Compare(left, op, right, chained), ids) == Failure(MultipleComparators)
    ensures IsFilterError(MultipleComparators)
  {
  }

  /** `is` and `is not` are refused once both operands have been evaluated. */
  lemma IdentityOperatorsRejected(left: Node, op: CmpOp, right: Node, ids: map<string, Value>)
    requires op == Is || op == IsNot
    requires Eval(left, ids).Success? && Eval(right, ids).Success?
    ensures Eval(Compare(left, op, right, []), ids) == Failure(InvalidOperator(op))
  {
  }

  /** An operand failure wins over the operator check: the left operand first, then the right. */
  lemma OperandFailureFirst(left: Node, op: CmpOp, right: Node, ids: map<string, Value>)
    ensures Eval(left, ids).Failure? ==> Eval(Compare(left, op, right, []), ids) == Eval(left, ids)
    ensures Eval(left, ids).Success? && Eval(right, ids).Failure? ==>
      Eval(Compare(left, op, right, []), ids) == Eval(right, ids)
  {
  }

  /** For the same operands, `!=` is the negation of `==` and `not in` the negation of `in`. */
  lemma NegatedOperators(left: Node, right: Node, ids: map<string, Value>)
    ensures var eq := Eval(Compare(left, Eq, right, []), ids);
      var ne := Eval(Compare(left, NotEq, right, []), ids);
      eq.Success? == ne.Success? && (eq.Success? ==> ne.value.b == !eq.value.b)
    ensures var isIn := Eval(Compare(left, In, right, []), ids);
      var notIn := Eval(Compare(left, NotIn, right, []), ids);
      isIn.Success? == notIn.Success? && (isIn.Success? ==> notIn.value.b == !isIn.value.b)
  {
  }

  /** `<=` holds exactly when the operands are equal or `<` holds. */
  lemma {:induction false} AtMostIsBelowOrEqual(a: Value, b: Value)
    ensures Order(LtE, a, b) == if Equal(a, b) then Success(true) else Order(Lt, a, b)
    decreases a
  {
    if a.Text? && b.Text? {
      Ordering.BelowReflexive(a.s);
    } else if a.Tuple? && b.Tuple? {
      var i := FirstDifference(a.items, b.items);
      if i < |a.items| && i < |b.items| {
        AtMostIsBelowOrEqual(a.items[i], b.items[i]);
      } else if |a.items| == |b.items| {
        assert Equal(a, b);
      }
    }
  }

  /** `>` is `<` with the operands swapped, and `>=` is `<=` with the operands swapped. */
  lemma {:induction false} AboveIsSwappedBelow(a: Value, b: Value)
    ensures Order(Gt, a, b) == Order(Lt, b, a)
    ensures Order(GtE, a, b) == Order(LtE, b, a)
    decreases a
  {
    if a.Tuple? && b.Tuple? {
      FirstDifferenceSymmetric(a.items, b.items);
      var i := FirstDifference(a.items, b.items);
      if i < |a.items| && i < |b.items| {
        AboveIsSwappedBelow(a.items[i], b.items[i]);
      }
    }
  }

  lemma {:induction false} FirstDifferenceSymmetric(xs: seq<Value>, ys: seq<Value>)
    ensures FirstDifference(xs, ys) == FirstDifference(ys, xs)
    decreases |xs|
  {
    if xs != [] && ys != [] {
      EqualSymmetric(xs[0], ys[0]);
      FirstDifferenceSymmetric(xs[1..], ys[1..]);
    }
  }

  /** A value is `in` any tuple that holds it. */
  lemma MemberOfTupleHoldingIt(a: Value, items: seq<Value>, i: int)
    requires 0 <= i < |items| && items[i] == a
    ensures Member(a, Tuple(items)) == Success(true)
  {
    EqualReflexive(a);
  }

  /** `color == 'red'` against `{color: "red"}` matches, and against `{color: "blue"}` does not. */
  lemma EqualityExample()
    ensures var tree := Module([Expr(Compare(Name("color"), Eq, Str("red"), []))]);
      Eval(tree, map["color" := Text("red")]) == Success(Boolean(true)) &&
      Eval(tree, map["color" := Text("blue")]) == Success(Boolean(false))
  {
  }

  /** `version in [1, 2]` matches `{version: 2}`; `version in []` matches nothing. */
  lemma MembershipExample()
    ensures Eval(Compare(Name("version"), In, List([Num(1), Num(2)]), []), map["version" := Number(2)]) == Success(Boolean(true))
    ensures Eval(Compare(Name("version"), In, List([]), []), map["version" := Number(2)]) == Success(Boolean(false))
  {
    var ids := map["version" := Number(2)];
    ListOfValuesInOrder([Num(1), Num(2)], ids, [Number(1), Number(2)]);
    assert Equal(Number(2), [Number(1), Number(2)][1]);
  }
}
