/** What the formatters promise, stated over the dispatcher `ToSql` and
    proved for every quoting policy and every christener. */
module Properties {
  import opened Wrappers
  import opened Patterns
  import opened Text
  import opened Formatters

  // ---------------------------------------------------------------------
  // Method lookup and dispatch
  // ---------------------------------------------------------------------

  /** The methods each formatter answers to once inheritance is flattened. */
  function Methods(c: Context): set<Method> {
    match c
    case Formatter => {}
    case SelectClause => {AttributeMethod, ExpressionMethod, SelectMethod, ValueMethod}
    case PassThrough | WhereClause => {ValueMethod}
    case OrderClause | GroupClause => {AttributeMethod, ValueMethod}
    case WhereCondition | ValueOperand => {AttributeMethod, ExpressionMethod, ValueMethod, ScalarMethod, SelectMethod}
    case AttributeOperand =>
      {AttributeMethod, ExpressionMethod, ValueMethod, ScalarMethod, SelectMethod, ArrayMethod, RangeMethod}
    case SelectStatement => {SelectMethod}
    case TableReference => {SelectMethod, TableMethod}
  }

  /** Method lookup through the class hierarchy finds exactly the flattened
      table, and the `Attribute` formatter's `scalar` overrides the one it
      inherits from `WhereCondition`. */
  lemma MethodTable(c: Context, m: Method)
    ensures Resolve(c, m).Some? <==> m in Methods(c)
    ensures Resolve(AttributeOperand, ScalarMethod) == Some(AttributeOperand)
    ensures Resolve(AttributeOperand, AttributeMethod) == Some(WhereCondition)
  {
    match c
    case Formatter =>
    case SelectClause =>
    case PassThrough =>
    case WhereClause =>
    case OrderClause =>
    case GroupClause =>
    case WhereCondition =>
    case SelectStatement =>
    case TableReference =>
    case AttributeOperand =>
    case ValueOperand =>
  }

  /** Rendering never reports a method missing that the formatter has,
      however deeply the report would come from. */
  lemma {:induction false} NoSpuriousNoMethod(env: Environment, c: Context, n: Node, m: Method)
    requires Resolve(c, m).Some?
    ensures ToSql(env, c, n) != Err(NoMethod(c, m))
    decreases n, 1
  {
    match n
    case ExpressionNode(e) =>
      assert ToSql(env, c, n) == ExpressionSql(env, c, e);
      if Resolve(c, ExpressionMethod).Some? {
        NoSpuriousNoMethod(env, c, e.operand, m);
      }
    case ValueNode(v) =>
      assert ToSql(env, c, n) == ValueSql(env, c, v);
      if Resolve(c, ValueMethod).Some? {
        NoSpuriousNoMethod(env, c, v, m);
      }
    case ArrayNode(es) =>
      assert ToSql(env, c, n) == ArraySql(env, c, es);
      if Resolve(c, ArrayMethod).Some? {
        NoSpuriousNoMethodAll(env, c, es, m);
      }
    case _ =>
      NoSpuriousLeaf(env, c, n, m);
  }

  /** The same for the node kinds that render nothing nested. */
  lemma NoSpuriousLeaf(env: Environment, c: Context, n: Node, m: Method)
    requires Resolve(c, m).Some?
    requires !n.ExpressionNode? && !n.ValueNode? && !n.ArrayNode?
    ensures ToSql(env, c, n) != Err(NoMethod(c, m))
  {
    match n
    case AttributeNode(a) =>
      assert ToSql(env, c, n) == AttributeSql(env, c, a);
    case ScalarNode(sc) =>
      assert ToSql(env, c, n) == ScalarSql(env, c, sc);
    case RangeNode(low, high) =>
      assert ToSql(env, c, n) == RangeSql(c, low, high);
    case SelectNode(sql, t) =>
      assert ToSql(env, c, n) == SelectSql(env, c, sql, t);
    case TableNode(t) =>
      assert ToSql(env, c, n) == TableSql(env, c, t);
  }

  lemma {:induction false} NoSpuriousNoMethodAll(env: Environment, c: Context, es: seq<Node>, m: Method)
    requires Resolve(c, m).Some?
    ensures RenderAll(env, c, es) != Err(NoMethod(c, m))
    decreases es, 0
  {
    if es != [] {
      NoSpuriousNoMethod(env, c, es[0], m);
      NoSpuriousNoMethodAll(env, c, es[1..], m);
    }
  }

  /** A node fails with "no such method" for its own kind exactly when the
      formatter's class, and every class above it, lacks that method. */
  lemma DispatchFailsExactlyWithoutMethod(env: Environment, c: Context, n: Node)
    ensures ToSql(env, c, n) == Err(NoMethod(c, MethodOf(n))) <==> MethodOf(n) !in Methods(c)
  {
    MethodTable(c, MethodOf(n));
    if Resolve(c, MethodOf(n)).Some? {
      NoSpuriousNoMethod(env, c, n, MethodOf(n));
    }
  }

  // ---------------------------------------------------------------------
  // Inherited behaviour: formatters that must render alike
  // ---------------------------------------------------------------------

  /** Two renderings give the same SQL, or fail in the same way (the
      formatter named in the error aside). */
  predicate Agree(r1: Rendered, r2: Rendered) {
    match (r1, r2)
    case (Ok(s1), Ok(s2)) => s1 == s2
    case (Err(NoMethod(_, m1)), Err(NoMethod(_, m2))) => m1 == m2
    case (Err(NotText(_)), Err(NotText(_))) => true
    case _ => false
  }

  /** `Value` inherits every method from `WhereCondition`, and `Attribute`
      every method but the three it defines. */
  lemma ConditionLookup(m: Method)
    ensures Resolve(ValueOperand, m) == Resolve(WhereCondition, m)
    ensures m !in {ScalarMethod, ArrayMethod, RangeMethod} ==> Resolve(AttributeOperand, m) == Resolve(WhereCondition, m)
    ensures m in {ScalarMethod, ArrayMethod, RangeMethod} ==> Resolve(AttributeOperand, m) == Some(AttributeOperand)
  {
    match m
    case AttributeMethod =>
    case ExpressionMethod =>
    case ValueMethod =>
    case ScalarMethod =>
    case SelectMethod =>
    case TableMethod =>
    case ArrayMethod =>
    case RangeMethod =>
  }

  /** `Value` adds nothing to `WhereCondition`: it renders every node as
      `WhereCondition` does. */
  lemma {:induction false} ValueOperandIsWhereCondition(env: Environment, n: Node)
    ensures Agree(ToSql(env, ValueOperand, n), ToSql(env, WhereCondition, n))
    decreases n
  {
    ConditionLookup(MethodOf(n));
    match n
    case AttributeNode(a) =>
      assert ToSql(env, ValueOperand, n) == Ok(Qualified(env, a)) == ToSql(env, WhereCondition, n);
    case ExpressionNode(e) =>
      ValueOperandIsWhereCondition(env, e.operand);
      assert ToSql(env, ValueOperand, n) == ExpressionSql(env, ValueOperand, e);
      assert ToSql(env, WhereCondition, n) == ExpressionSql(env, WhereCondition, e);
      var operand := ToSql(env, WhereCondition, e.operand);
      if operand.Ok? {
        assert ExpressionSql(env, ValueOperand, e) == Ok(e.functionSql + "(" + operand.value + ")");
        assert ExpressionSql(env, WhereCondition, e) == Ok(e.functionSql + "(" + operand.value + ")");
      } else {
        assert ExpressionSql(env, ValueOperand, e) == ToSql(env, ValueOperand, e.operand);
        assert ExpressionSql(env, WhereCondition, e) == operand;
      }
    case ValueNode(v) =>
      ValueOperandIsWhereCondition(env, v);
      assert ToSql(env, ValueOperand, n) == ValueSql(env, ValueOperand, v) == ToSql(env, ValueOperand, v);
      assert ToSql(env, WhereCondition, n) == ValueSql(env, WhereCondition, v) == ToSql(env, WhereCondition, v);
    case ScalarNode(sc) =>
      assert ToSql(env, ValueOperand, n) == Ok(env.quote(sc, None)) == ToSql(env, WhereCondition, n);
    case ArrayNode(es) =>
      assert ToSql(env, ValueOperand, n) == ArraySql(env, ValueOperand, es) == Err(NoMethod(ValueOperand, ArrayMethod));
      assert ToSql(env, WhereCondition, n) == ArraySql(env, WhereCondition, es) == Err(NoMethod(WhereCondition, ArrayMethod));
    case RangeNode(low, high) =>
      assert ToSql(env, ValueOperand, n) == Err(NoMethod(ValueOperand, RangeMethod));
      assert ToSql(env, WhereCondition, n) == Err(NoMethod(WhereCondition, RangeMethod));
    case SelectNode(sql, t) =>
      assert ToSql(env, ValueOperand, n) == Ok("(" + sql + ")") == ToSql(env, WhereCondition, n);
    case TableNode(t) =>
      assert ToSql(env, ValueOperand, n) == Err(NoMethod(ValueOperand, TableMethod));
      assert ToSql(env, WhereCondition, n) == Err(NoMethod(WhereCondition, TableMethod));
  }

  /** With no column hint, `Attribute` renders every node `WhereCondition`
      renders, and renders it the same way: it only adds `array` and
      `range`. */
  lemma {:induction false} AttributeOperandExtendsWhereCondition(env: Environment, n: Node)
    requires env.column.None?
    ensures ToSql(env, WhereCondition, n).Ok? ==> ToSql(env, AttributeOperand, n) == ToSql(env, WhereCondition, n)
    decreases n
  {
    ConditionLookup(MethodOf(n));
    match n
    case AttributeNode(a) =>
      assert ToSql(env, AttributeOperand, n) == Ok(Qualified(env, a)) == ToSql(env, WhereCondition, n);
    case ExpressionNode(e) =>
      AttributeOperandExtendsWhereCondition(env, e.operand);
      assert ToSql(env, AttributeOperand, n) == ExpressionSql(env, AttributeOperand, e);
      assert ToSql(env, WhereCondition, n) == ExpressionSql(env, WhereCondition, e);
      var operand := ToSql(env, WhereCondition, e.operand);
      if operand.Ok? {
        assert ExpressionSql(env, AttributeOperand, e) == Ok(e.functionSql + "(" + operand.value + ")");
        assert ExpressionSql(env, WhereCondition, e) == Ok(e.functionSql + "(" + operand.value + ")");
      } else {
        assert ExpressionSql(env, WhereCondition, e) == operand;
      }
    case ValueNode(v) =>
      AttributeOperandExtendsWhereCondition(env, v);
      assert ToSql(env, AttributeOperand, n) == ValueSql(env, AttributeOperand, v) == ToSql(env, AttributeOperand, v);
      assert ToSql(env, WhereCondition, n) == ValueSql(env, WhereCondition, v) == ToSql(env, WhereCondition, v);
    case ScalarNode(sc) =>
      assert ToSql(env, AttributeOperand, n) == Ok(env.quote(sc, env.column)) == ToSql(env, WhereCondition, n);
    case ArrayNode(es) =>
      assert ToSql(env, WhereCondition, n) == ArraySql(env, WhereCondition, es) == Err(NoMethod(WhereCondition, ArrayMethod));
    case RangeNode(_, _) =>
    case SelectNode(sql, t) =>
      assert ToSql(env, AttributeOperand, n) == Ok("(" + sql + ")") == ToSql(env, WhereCondition, n);
    case TableNode(_) =>
  }

  /** `OrderClause` and `GroupClause` are the same formatter under two
      names. */
  lemma OrderAndGroupAgree(env: Environment, n: Node)
    ensures Agree(ToSql(env, OrderClause, n), ToSql(env, GroupClause, n))
  {
    assert Resolve(OrderClause, ValueMethod) == Resolve(GroupClause, ValueMethod) == Some(PassThrough);
    MethodTable(OrderClause, MethodOf(n));
    MethodTable(GroupClause, MethodOf(n));
    match n
    case AttributeNode(a) =>
      assert ToSql(env, OrderClause, n) == Ok(Qualified(env, a)) == ToSql(env, GroupClause, n);
    case ValueNode(v) =>
      assert ToSql(env, OrderClause, n) == ValueSql(env, OrderClause, v);
      assert ToSql(env, GroupClause, n) == ValueSql(env, GroupClause, v);
    case ExpressionNode(e) =>
      assert ToSql(env, OrderClause, n) == ExpressionSql(env, OrderClause, e);
      assert ToSql(env, GroupClause, n) == ExpressionSql(env, GroupClause, e);
    case ArrayNode(es) =>
      assert ToSql(env, OrderClause, n) == ArraySql(env, OrderClause, es);
      assert ToSql(env, GroupClause, n) == ArraySql(env, GroupClause, es);
    case _ =>
  }

  // ---------------------------------------------------------------------
  // Attributes
  // ---------------------------------------------------------------------

  /** The qualified form of a column depends only on its name and on the
      display name its relation is christened with: the alias never enters
      it, and two relations christened alike qualify alike. */
  lemma QualifiedIgnoresAlias(env: Environment, a: Attribute, b: Attribute)
    requires a.name == b.name
    requires env.nameFor(a.originalRelation) == env.nameFor(b.originalRelation)
    ensures Qualified(env, a) == Qualified(env, b)
    ensures forall al: Option<string> :: Qualified(env, a.(alias := al)) == Qualified(env, a)
  {
  }

  /** Outside the select list an attribute is always qualified by its
      relation's display name: no identifier check, and its alias ignored. */
  lemma QualifiedOutsideSelectList(env: Environment, c: Context, a: Attribute)
    requires c in {OrderClause, GroupClause, WhereCondition, AttributeOperand, ValueOperand}
    ensures ToSql(env, c, AttributeNode(a)) ==
      Ok(env.quoteTableName(env.nameFor(a.originalRelation)) + "." + env.quoteColumnName(a.name))
    ensures forall alias: Option<string> ::
      ToSql(env, c, AttributeNode(a.(alias := alias))) == ToSql(env, c, AttributeNode(a))
  {
  }

  /** In the select list, a name the word pattern matches is qualified as in
      ORDER BY, any other name is emitted raw, and an alias appends exactly
      `" AS "` and the alias quoted as a value. */
  lemma SelectListAttribute(env: Environment, a: Attribute)
    ensures ToSql(env, SelectClause, AttributeNode(a)).Ok?
    ensures Matches(a.name, false) ==>
      ToSql(env, SelectClause, AttributeNode(a.(alias := None))) == ToSql(env, OrderClause, AttributeNode(a))
    ensures !Matches(a.name, false) ==>
      ToSql(env, SelectClause, AttributeNode(a.(alias := None))) == Ok(a.name)
    ensures a.alias.Some? ==>
      ToSql(env, SelectClause, AttributeNode(a)).value ==
      ToSql(env, SelectClause, AttributeNode(a.(alias := None))).value + " AS " + env.quote(StringScalar(a.alias.value), None)
  {
  }

  /** For a name without a newline the select list's identifier check is the
      whole-string check `[A-Za-z0-9_]*`. */
  lemma SelectListSingleLineName(env: Environment, a: Attribute)
    requires '\n' !in a.name && a.alias.None?
    ensures IsWord(a.name) ==> ToSql(env, SelectClause, AttributeNode(a)) == ToSql(env, OrderClause, AttributeNode(a))
    ensures !IsWord(a.name) ==> ToSql(env, SelectClause, AttributeNode(a)) == Ok(a.name)
  {
    SingleLineMatch(a.name, false);
  }

  // ---------------------------------------------------------------------
  // Expressions
  // ---------------------------------------------------------------------

  /** In the select list `DISTINCT` is a keyword, `DISTINCT x`; any other
      function is a call, `F(x)`; an alias appends `" AS "` and the alias
      quoted as a column name; an operand that cannot be rendered fails the
      whole expression. */
  lemma SelectListExpression(env: Environment, e: Expression)
    ensures ToSql(env, SelectClause, e.operand).Err? ==>
      ToSql(env, SelectClause, ExpressionNode(e)) == ToSql(env, SelectClause, e.operand)
    ensures ToSql(env, SelectClause, e.operand).Ok? ==>
      var operand := ToSql(env, SelectClause, e.operand).value;
      ToSql(env, SelectClause, ExpressionNode(e.(alias := None))) ==
        Ok(if e.functionSql == "DISTINCT" then "DISTINCT " + operand else e.functionSql + "(" + operand + ")")
    ensures ToSql(env, SelectClause, e.operand).Ok? && e.alias.Some? ==>
      ToSql(env, SelectClause, ExpressionNode(e.(alias := None))).Ok? &&
      ToSql(env, SelectClause, ExpressionNode(e)) ==
      Ok(ToSql(env, SelectClause, ExpressionNode(e.(alias := None))).value + " AS " + env.quoteColumnName(e.alias.value))
  {
    var operand := ToSql(env, SelectClause, e.operand);
    if operand.Ok? {
      var bare := ExpressionNode(e.(alias := None));
      if e.functionSql == "DISTINCT" {
        assert ToSql(env, SelectClause, bare) == Ok(e.functionSql + " " + operand.value);
        assert e.functionSql + " " + operand.value == "DISTINCT " + operand.value;
      } else {
        assert ToSql(env, SelectClause, bare) == Ok(e.functionSql + "(" + operand.value + ")");
      }
    }
  }

  /** In a condition an expression is always the call form, even for
      `DISTINCT`, and never aliased. */
  lemma ConditionExpression(env: Environment, c: Context, e: Expression)
    requires c in {WhereCondition, AttributeOperand, ValueOperand}
    ensures ToSql(env, c, e.operand).Err? ==> ToSql(env, c, ExpressionNode(e)) == ToSql(env, c, e.operand)
    ensures ToSql(env, c, e.operand).Ok? ==>
      ToSql(env, c, ExpressionNode(e)) == Ok(e.functionSql + "(" + ToSql(env, c, e.operand).value + ")")
  {
  }

  // ---------------------------------------------------------------------
  // Subselects and tables
  // ---------------------------------------------------------------------

  /** A subselect is the bare statement in `SelectStatement`, parenthesised
      in a condition, and parenthesised and named as a derived table in the
      select list and in FROM; the pass-through clauses cannot render it. */
  lemma SubselectByContext(env: Environment, sql: string, t: Relation)
    ensures ToSql(env, SelectStatement, SelectNode(sql, t)) == Ok(sql)
    ensures forall c :: c in {WhereCondition, AttributeOperand, ValueOperand} ==>
      ToSql(env, c, SelectNode(sql, t)) == Ok("(" + sql + ")")
    ensures ToSql(env, SelectClause, SelectNode(sql, t)) == ToSql(env, TableReference, SelectNode(sql, t))
    ensures ToSql(env, TableReference, SelectNode(sql, t)) ==
      Ok("(" + sql + ") AS " + env.quoteTableName(env.nameFor(t)))
    ensures forall c :: c in {Formatter, PassThrough, WhereClause, OrderClause, GroupClause} ==>
      ToSql(env, c, SelectNode(sql, t)) == Err(NoMethod(c, SelectMethod))
  {
  }

  /** A table gets an `AS` clause exactly when the christener names it other
      than its literal name; a name matching `/^(\w|-)*$/` is quoted, alias
      and all, any other is emitted raw, alias and all. */
  lemma TableReferenceTable(env: Environment, t: Relation)
    ensures ToSql(env, TableReference, TableNode(t)).Ok?
    ensures
      var r := ToSql(env, TableReference, TableNode(t)).value;
      var display := env.nameFor(t);
      var quoted := Matches(t.name, true);
      var base := if quoted then env.quoteTableName(t.name) else t.name;
      && (r == base <==> t.name == display)
      && (t.name != display ==> r == base + " AS " + (if quoted then env.quoteTableName(display) else display))
  {
  }

  /** Only `TableReference` renders a table. */
  lemma TableOnlyInTableReference(env: Environment, c: Context, t: Relation)
    requires c != TableReference
    ensures ToSql(env, c, TableNode(t)) == Err(NoMethod(c, TableMethod))
  {
    MethodTable(c, TableMethod);
  }

  // ---------------------------------------------------------------------
  // Values, scalars, arrays and ranges
  // ---------------------------------------------------------------------

  /** `SelectClause` and the pass-through clauses hand a string value back
      unchanged; the condition formatters render the value with themselves;
      `SelectStatement`, `TableReference` and the base class have no `value`. */
  lemma ValueByContext(env: Environment, c: Context, v: Node)
    ensures c in {SelectClause, PassThrough, WhereClause, OrderClause, GroupClause} ==>
      ToSql(env, c, ValueNode(v)) == if v.ScalarNode? && v.scalar.StringScalar? then Ok(v.scalar.s) else Err(NotText(c))
    ensures c in {WhereCondition, AttributeOperand, ValueOperand} ==> ToSql(env, c, ValueNode(v)) == ToSql(env, c, v)
    ensures c in {Formatter, SelectStatement, TableReference} ==> ToSql(env, c, ValueNode(v)) == Err(NoMethod(c, ValueMethod))
  {
  }

  /** A scalar is quoted as a value: with no column hint in `WhereCondition`
      and `Value`, with the attribute's column in `Attribute`. */
  lemma ScalarByContext(env: Environment, c: Context, s: Scalar)
    ensures c in {WhereCondition, ValueOperand} ==> ToSql(env, c, ScalarNode(s)) == Ok(env.quote(s, None))
    ensures ToSql(env, AttributeOperand, ScalarNode(s)) == Ok(env.quote(s, env.column))
    ensures c !in {WhereCondition, ValueOperand, AttributeOperand} ==>
      ToSql(env, c, ScalarNode(s)) == Err(NoMethod(c, ScalarMethod))
  {
    MethodTable(c, ScalarMethod);
  }

  /** A range is its two endpoints around `" AND "`, in `Attribute` only. */
  lemma RangeByContext(env: Environment, c: Context, low: string, high: string)
    ensures ToSql(env, AttributeOperand, RangeNode(low, high)) == Ok(low + " AND " + high)
    ensures c != AttributeOperand ==> ToSql(env, c, RangeNode(low, high)) == Err(NoMethod(c, RangeMethod))
  {
    MethodTable(c, RangeMethod);
  }

  /** Rendering a list of elements succeeds exactly when every element
      renders. */
  lemma {:induction false} RenderAllSucceeds(env: Environment, c: Context, es: seq<Node>)
    ensures RenderAll(env, c, es).Ok? <==> forall i :: 0 <= i < |es| ==> ToSql(env, c, es[i]).Ok?
    decreases |es|
  {
    if es != [] {
      RenderAllSucceeds(env, c, es[1..]);
      if ToSql(env, c, es[0]).Ok? && RenderAll(env, c, es[1..]).Err? {
        var j :| 0 <= j < |es[1..]| && !ToSql(env, c, es[1..][j]).Ok?;
        assert es[1..][j] == es[j + 1];
      } else if ToSql(env, c, es[0]).Ok? {
        assert forall i :: 1 <= i < |es| ==> es[1..][i - 1] == es[i];
      }
    }
  }

  /** A rendered list holds the elements' renderings, in order. */
  lemma {:induction false} RenderAllItems(env: Environment, c: Context, es: seq<Node>)
    requires RenderAll(env, c, es).Ok?
    ensures forall i :: 0 <= i < |es| ==> ToSql(env, c, es[i]).Ok? && RenderAll(env, c, es).value[i] == ToSql(env, c, es[i]).value
    decreases |es|
  {
    if es != [] {
      var head := ToSql(env, c, es[0]);
      var tail := RenderAll(env, c, es[1..]);
      assert head.Ok? && tail.Ok?;
      RenderAllItems(env, c, es[1..]);
      assert RenderAll(env, c, es).value == [head.value] + tail.value;
      assert forall i :: 1 <= i < |es| ==> es[1..][i - 1] == es[i];
    }
  }

  /** Element `k` is the leftmost element that fails to render. */
  predicate FirstFailure(env: Environment, c: Context, es: seq<Node>, k: int) {
    && 0 <= k < |es|
    && ToSql(env, c, es[k]).Err?
    && forall i :: 0 <= i < k ==> ToSql(env, c, es[i]).Ok?
  }

  /** A list that fails to render fails with the error of its leftmost
      failing element, as `collect` stops at the first exception. */
  lemma {:induction false} RenderAllFirstError(env: Environment, c: Context, es: seq<Node>)
    requires RenderAll(env, c, es).Err?
    ensures exists k :: FirstFailure(env, c, es, k) && RenderAll(env, c, es).error == ToSql(env, c, es[k]).error
    decreases |es|
  {
    if ToSql(env, c, es[0]).Err? {
      assert FirstFailure(env, c, es, 0);
    } else {
      RenderAllFirstError(env, c, es[1..]);
      var k :| FirstFailure(env, c, es[1..], k) && RenderAll(env, c, es[1..]).error == ToSql(env, c, es[1..][k]).error;
      assert forall i :: 1 <= i < |es| ==> es[1..][i - 1] == es[i];
      assert FirstFailure(env, c, es, k + 1);
    }
  }

  /** An array renders as `"("`, the elements rendered by `Attribute`
      itself, in order, each followed by `", "` except the last, then
      `")"`; it renders when every element does. */
  lemma ArrayRendering(env: Environment, es: seq<Node>)
    ensures ToSql(env, AttributeOperand, ArrayNode(es)).Ok? <==>
      forall i :: 0 <= i < |es| ==> ToSql(env, AttributeOperand, es[i]).Ok?
    ensures ToSql(env, AttributeOperand, ArrayNode(es)).Ok? ==>
      RenderAll(env, AttributeOperand, es).Ok? &&
      var r := ToSql(env, AttributeOperand, ArrayNode(es)).value;
      var items := RenderAll(env, AttributeOperand, es).value;
      && |items| == |es|
      && (forall i :: 0 <= i < |es| ==> items[i] == ToSql(env, AttributeOperand, es[i]).value)
      && r == "(" + Join(items, ListSeparator) + ")"
      && |r| == 2 + TotalLength(items) + 2 * (if es == [] then 0 else |es| - 1)
  {
    RenderAllSucceeds(env, AttributeOperand, es);
    var r := ToSql(env, AttributeOperand, ArrayNode(es));
    var items := RenderAll(env, AttributeOperand, es);
    if items.Ok? {
      RenderAllItems(env, AttributeOperand, es);
      assert r == ArraySql(env, AttributeOperand, es);
      assert ArraySql(env, AttributeOperand, es) == Ok("(" + Join(items.value, ListSeparator) + ")");
      if es != [] {
        JoinLength(items.value, ListSeparator);
      }
    } else {
      assert r == ArraySql(env, AttributeOperand, es);
    }
  }

  /** `Attribute` renders an array by collecting its elements and joining
      them inside parentheses. */
  lemma AttributeArray(env: Environment, es: seq<Node>)
    ensures ToSql(env, AttributeOperand, ArrayNode(es)).Ok? <==> RenderAll(env, AttributeOperand, es).Ok?
    ensures RenderAll(env, AttributeOperand, es).Ok? ==>
      ToSql(env, AttributeOperand, ArrayNode(es)).value == "(" + Join(RenderAll(env, AttributeOperand, es).value, ListSeparator) + ")"
  {
    assert ToSql(env, AttributeOperand, ArrayNode(es)) == ArraySql(env, AttributeOperand, es);
    assert Resolve(AttributeOperand, ArrayMethod) == Some(AttributeOperand);
  }

  /** Element `i` of an array appears, rendered, at its offset inside the
      parentheses. */
  lemma ArrayElementAt(env: Environment, es: seq<Node>, i: nat)
    requires i < |es|
    requires ToSql(env, AttributeOperand, ArrayNode(es)).Ok?
    ensures RenderAll(env, AttributeOperand, es).Ok? && ToSql(env, AttributeOperand, es[i]).Ok?
    ensures
      var r := ToSql(env, AttributeOperand, ArrayNode(es)).value;
      var items := RenderAll(env, AttributeOperand, es).value;
      var item := ToSql(env, AttributeOperand, es[i]).value;
      var inner := Join(items, ListSeparator);
      var o := Offset(items, ListSeparator, i);
      && r == "(" + inner + ")"
      && o + |item| <= |inner|
      && inner[o..o + |item|] == item
  {
    AttributeArray(env, es);
    RenderAllItems(env, AttributeOperand, es);
    var items := RenderAll(env, AttributeOperand, es).value;
    assert items[i] == ToSql(env, AttributeOperand, es[i]).value;
    JoinElementAt(items, ListSeparator, i);
  }

  /** Every element but the last is followed by `", "`. */
  lemma ArraySeparatorAt(env: Environment, es: seq<Node>, i: nat)
    requires i + 1 < |es|
    requires ToSql(env, AttributeOperand, ArrayNode(es)).Ok?
    ensures RenderAll(env, AttributeOperand, es).Ok? && ToSql(env, AttributeOperand, es[i]).Ok?
    ensures
      var items := RenderAll(env, AttributeOperand, es).value;
      var item := ToSql(env, AttributeOperand, es[i]).value;
      var inner := Join(items, ListSeparator);
      var o := Offset(items, ListSeparator, i);
      && o + |item| + |ListSeparator| <= |inner|
      && inner[o + |item|..o + |item| + |ListSeparator|] == ListSeparator
  {
    AttributeArray(env, es);
    RenderAllItems(env, AttributeOperand, es);
    var items := RenderAll(env, AttributeOperand, es).value;
    assert items[i] == ToSql(env, AttributeOperand, es[i]).value;
    JoinSeparatorAt(items, ListSeparator, i);
  }

  /** The empty array is `"()"`. */
  lemma EmptyArray(env: Environment)
    ensures ToSql(env, AttributeOperand, ArrayNode([])) == Ok("()")
  {
    assert "(" + Join([], ListSeparator) + ")" == "()";
  }

  /** Arrays render only in `Attribute`. */
  lemma ArrayOnlyInAttribute(env: Environment, c: Context, es: seq<Node>)
    requires c != AttributeOperand
    ensures ToSql(env, c, ArrayNode(es)) == Err(NoMethod(c, ArrayMethod))
  {
    MethodTable(c, ArrayMethod);
  }
}
