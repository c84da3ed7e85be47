/** The context-sensitive SQL renderers of `Arel::Sql`: one `Context` per
    formatter class, one function per formatter method, and `ToSql`, the
    node-side dispatch (`node.to_sql(formatter)`) that calls the method named
    by the node's kind. The engine's quoting and the christener's naming are
    collaborators whose behaviour is not part of the model: they are the
    function-valued fields of `Environment`, so every property below holds
    for every quoting policy. */
module Formatters {
  import opened Wrappers
  import opened Patterns
  import opened Text

  /** A relation as the christener sees it: its literal name and which
      occurrence of it this is (a self-join has two occurrences of one
      table, which the christener may name differently). */
  datatype Relation = Relation(name: string, occurrence: nat)

  /** The database column an attribute stands for, used as a quoting hint. */
  datatype Column = Column(name: string, sqlType: string)

  /** A literal Ruby value that reaches `quote`. */
  datatype Scalar = StringScalar(s: string) | IntegerScalar(i: int) | NilScalar

  /** What a formatter is constructed with: the christener's `name_for`, the
      engine's three quoting functions, and, for the `Attribute` formatter
      whose environment is an attribute, that attribute's `column`. */
  datatype Environment = Environment(
    nameFor: Relation -> string,
    quoteTableName: string -> string,
    quoteColumnName: string -> string,
    quote: (Scalar, Option<Column>) -> string,
    column: Option<Column>)

  /** A column reference, with the relation it was declared against and an
      optional alias (`nil` in Ruby is `None`). */
  datatype Attribute = Attribute(name: string, originalRelation: Relation, alias: Option<string>)

  /** A function call or keyword applied to one operand (`expression.attribute`
      in the source), with an optional alias. */
  datatype Expression = Expression(functionSql: string, operand: Node, alias: Option<string>)

  /** The objects `to_sql(formatter)` is called on, each named after the
      formatter method it dispatches to. */
  datatype Node =
    | AttributeNode(attribute: Attribute)        // formatter.attribute(self)
    | ExpressionNode(expression: Expression)     // formatter.expression(self)
    | ValueNode(value: Node)                     // formatter.value(value)
    | ScalarNode(scalar: Scalar)                 // formatter.scalar(self)
    | ArrayNode(elements: seq<Node>)             // formatter.array(self)
    | RangeNode(low: string, high: string)       // formatter.range(begin, end), endpoints as text
    | SelectNode(sql: string, table: Relation)   // formatter.select(select_sql, table)
    | TableNode(table: Relation)                 // formatter.table(self)

  /** The formatter classes. `AttributeOperand` and `ValueOperand` are the
      classes `Attribute` and `Value`, both subclasses of `WhereCondition`. */
  datatype Context =
    | Formatter
    | SelectClause
    | PassThrough
    | WhereClause
    | OrderClause
    | GroupClause
    | WhereCondition
    | SelectStatement
    | TableReference
    | AttributeOperand
    | ValueOperand

  /** The formatter methods a node can dispatch to. */
  datatype Method =
    | AttributeMethod
    | ExpressionMethod
    | ValueMethod
    | ScalarMethod
    | SelectMethod
    | TableMethod
    | ArrayMethod
    | RangeMethod

  datatype Error =
    /** The formatter's class defines no such method (Ruby's NoMethodError). */
    | NoMethod(context: Context, name: Method)
    /** A pass-through `value` was handed an object that is not SQL text:
        Ruby returns that object itself, and it is not a string. */
    | NotText(context: Context)

  type Rendered = Result<string, Error>

  /** The class each formatter class inherits from: `Formatter` is the only
      root, and only `Formatter`, `PassThrough` and `WhereCondition` are
      subclassed. */
  function Superclass(c: Context): (r: Option<Context>)
    ensures r.None? <==> c == Formatter
    ensures r.Some? ==> r.value in {Formatter, PassThrough, WhereCondition}
  {
    match c
    case Formatter => None
    case SelectClause | PassThrough | WhereCondition | SelectStatement | TableReference => Some(Formatter)
    case WhereClause | OrderClause | GroupClause => Some(PassThrough)
    case AttributeOperand | ValueOperand => Some(WhereCondition)
  }

  /** How far below `Formatter` a class sits. */
  function Depth(c: Context): nat {
    match Superclass(c)
    case None => 0
    case Some(p) => if p == Formatter then 1 else 2
  }

  /** `a` is `c` or one of its ancestors. */
  predicate AncestorOrSelf(a: Context, c: Context)
    decreases Depth(c)
  {
    a == c || (Superclass(c).Some? && AncestorOrSelf(a, Superclass(c).value))
  }

  /** The methods a class body defines itself. Read by method: only
      `TableReference` defines `table`, only `Attribute` defines `array`
      and `range`, and the bodies of `Formatter`, `WhereClause` and `Value`
      define nothing. */
  function OwnMethods(c: Context): (r: set<Method>)
    ensures TableMethod in r <==> c == TableReference
    ensures ArrayMethod in r <==> c == AttributeOperand
    ensures RangeMethod in r <==> c == AttributeOperand
    ensures ScalarMethod in r <==> c in {WhereCondition, AttributeOperand}
    ensures r == {} <==> c in {Formatter, WhereClause, ValueOperand}
  {
    match c
    case Formatter => {}
    case SelectClause => {AttributeMethod, ExpressionMethod, SelectMethod, ValueMethod}
    case PassThrough => {ValueMethod}
    case WhereClause => {}
    case OrderClause => {AttributeMethod}
    case GroupClause => {AttributeMethod}
    case WhereCondition => {AttributeMethod, ExpressionMethod, ValueMethod, ScalarMethod, SelectMethod}
    case SelectStatement => {SelectMethod}
    case TableReference => {SelectMethod, TableMethod}
    case AttributeOperand => {ScalarMethod, ArrayMethod, RangeMethod}
    case ValueOperand => {}
  }

  /** Ruby method lookup: the nearest class, from `c` upwards, whose body
      defines `m`; `None` when no class on the way does. */
  function Resolve(c: Context, m: Method): (r: Option<Context>)
    ensures r.Some? ==> m in OwnMethods(r.value)
    decreases Depth(c)
  {
    if m in OwnMethods(c) then Some(c)
    else match Superclass(c)
      case None => None
      case Some(p) => Resolve(p, m)
  }

  /** Lookup stops at the nearest definition: every class from `c` upwards
      that defines `m` is at or above the one found, and lookup finds
      nothing only when no class from `c` upwards defines `m`. */
  lemma {:induction false} ResolveNearest(c: Context, m: Method)
    ensures Resolve(c, m).Some? ==> AncestorOrSelf(Resolve(c, m).value, c)
    ensures Resolve(c, m).Some? ==>
      forall a :: AncestorOrSelf(a, c) && m in OwnMethods(a) ==> AncestorOrSelf(a, Resolve(c, m).value)
    ensures Resolve(c, m).None? ==> forall a :: AncestorOrSelf(a, c) ==> m !in OwnMethods(a)
    decreases Depth(c)
  {
    if m !in OwnMethods(c) && Superclass(c).Some? {
      ResolveNearest(Superclass(c).value, m);
    }
  }

  /** The method a node's `to_sql` calls. */
  function MethodOf(n: Node): Method {
    match n
    case AttributeNode(_) => AttributeMethod
    case ExpressionNode(_) => ExpressionMethod
    case ValueNode(_) => ValueMethod
    case ScalarNode(_) => ScalarMethod
    case ArrayNode(_) => ArrayMethod
    case RangeNode(_, _) => RangeMethod
    case SelectNode(_, _) => SelectMethod
    case TableNode(_) => TableMethod
  }

  /** A column qualified by the display name of its relation. When the
      quoted column name holds no `.`, it is exactly the text after the
      last `.` of the result, so the column can be read back. */
  function Qualified(env: Environment, a: Attribute): (r: string)
    ensures var column := env.quoteColumnName(a.name);
      '.' !in column ==>
        && |column| < |r|
        && r[|r| - |column| - 1] == '.'
        && r[|r| - |column|..] == column
  {
    env.quoteTableName(env.nameFor(a.originalRelation)) + "." + env.quoteColumnName(a.name)
  }

  /** `node.to_sql(formatter)`: render `n` with the method of `c` that the
      node's kind names. */
  function ToSql(env: Environment, c: Context, n: Node): (r: Rendered)
    ensures r.Err? ==> r.error.context == c
    decreases n, 1
  {
    match n
    case AttributeNode(a) => AttributeSql(env, c, a)
    case ExpressionNode(e) => ExpressionSql(env, c, e)
    case ValueNode(v) => ValueSql(env, c, v)
    case ScalarNode(s) => ScalarSql(env, c, s)
    case ArrayNode(es) => ArraySql(env, c, es)
    case RangeNode(low, high) => RangeSql(c, low, high)
    case SelectNode(sql, t) => SelectSql(env, c, sql, t)
    case TableNode(t) => TableSql(env, c, t)
  }

  /** `attribute(attribute)`. */
  function AttributeSql(env: Environment, c: Context, a: Attribute): (r: Rendered)
    ensures r.Err? <==> Resolve(c, AttributeMethod).None?
    ensures r.Err? ==> r.error == NoMethod(c, AttributeMethod)
  {
    match Resolve(c, AttributeMethod)
    case None => Err(NoMethod(c, AttributeMethod))
    case Some(SelectClause) =>
      var column := if Matches(a.name, false) then Qualified(env, a) else a.name;
      (match a.alias
       case None => Ok(column)
       case Some(alias) => Ok(column + " AS " + env.quote(StringScalar(alias), None)))
    case Some(_) =>
      // OrderClause, GroupClause and WhereCondition: no identifier check, no alias
      Ok(Qualified(env, a))
  }

  /** `expression(expression)`: the operand is rendered by the same
      formatter. */
  function ExpressionSql(env: Environment, c: Context, e: Expression): (r: Rendered)
    ensures Resolve(c, ExpressionMethod).None? ==> r == Err(NoMethod(c, ExpressionMethod))
    ensures Resolve(c, ExpressionMethod).Some? ==> (r.Err? <==> ToSql(env, c, e.operand).Err?)
    ensures Resolve(c, ExpressionMethod).Some? && r.Err? ==> r == ToSql(env, c, e.operand)
    ensures r.Err? ==> r.error.context == c
    decreases ExpressionNode(e), 0
  {
    match Resolve(c, ExpressionMethod)
    case None => Err(NoMethod(c, ExpressionMethod))
    case Some(SelectClause) =>
      var operand :- ToSql(env, c, e.operand);
      var call := if e.functionSql == "DISTINCT" then e.functionSql + " " + operand
                  else e.functionSql + "(" + operand + ")";
      (match e.alias
       case None => Ok(call)
       case Some(alias) => Ok(call + " AS " + env.quoteColumnName(alias)))
    case Some(_) =>
      // WhereCondition: always the call form, never an alias
      var operand :- ToSql(env, c, e.operand);
      Ok(e.functionSql + "(" + operand + ")")
  }

  /** `value(value)`: `WhereCondition` renders the value with itself;
      `SelectClause` and `PassThrough` hand the value back unchanged, which
      is SQL text only when the value is a string. */
  function ValueSql(env: Environment, c: Context, v: Node): (r: Rendered)
    ensures Resolve(c, ValueMethod).None? ==> r == Err(NoMethod(c, ValueMethod))
    ensures Resolve(c, ValueMethod) == Some(WhereCondition) ==> r == ToSql(env, c, v)
    ensures Resolve(c, ValueMethod).Some? && Resolve(c, ValueMethod) != Some(WhereCondition) && r.Err? ==> r.error == NotText(c)
    ensures r.Err? ==> r.error.context == c
    decreases ValueNode(v), 0
  {
    match Resolve(c, ValueMethod)
    case None => Err(NoMethod(c, ValueMethod))
    case Some(WhereCondition) => ToSql(env, c, v)
    case Some(_) =>
      // SelectClause and PassThrough: the identity
      if v.ScalarNode? && v.scalar.StringScalar? then Ok(v.scalar.s) else Err(NotText(c))
  }

  /** `scalar(value)`: `WhereCondition#scalar(value, column = nil)` is called
      with one argument; `Attribute#scalar` passes its attribute's column. */
  function ScalarSql(env: Environment, c: Context, s: Scalar): (r: Rendered)
    ensures r.Err? <==> Resolve(c, ScalarMethod).None?
    ensures r.Err? ==> r.error == NoMethod(c, ScalarMethod)
  {
    match Resolve(c, ScalarMethod)
    case None => Err(NoMethod(c, ScalarMethod))
    case Some(AttributeOperand) => Ok(env.quote(s, env.column))
    case Some(_) => Ok(env.quote(s, None))
  }

  /** What `array` puts between two rendered elements. */
  const ListSeparator: string := ", "

  /** `array(array)`: every element rendered by the same formatter, in
      order, joined with `", "` and parenthesised. */
  function ArraySql(env: Environment, c: Context, es: seq<Node>): (r: Rendered)
    ensures Resolve(c, ArrayMethod).None? ==> r == Err(NoMethod(c, ArrayMethod))
    ensures Resolve(c, ArrayMethod).Some? ==> (r.Err? <==> RenderAll(env, c, es).Err?)
    ensures Resolve(c, ArrayMethod).Some? && r.Err? ==> r.error == RenderAll(env, c, es).error
    ensures r.Err? ==> r.error.context == c
    decreases ArrayNode(es), 0
  {
    match Resolve(c, ArrayMethod)
    case None => Err(NoMethod(c, ArrayMethod))
    case Some(_) =>
      var items :- RenderAll(env, c, es);
      Ok("(" + Join(items, ListSeparator) + ")")
  }

  /** `array.collect { |e| e.to_sql(self) }`: the first failing element, from
      the left, ends the collection. */
  function RenderAll(env: Environment, c: Context, es: seq<Node>): (r: Result<seq<string>, Error>)
    ensures r.Ok? ==> |r.value| == |es|
    ensures es != [] && r.Err? ==>
      (ToSql(env, c, es[0]).Err? && r.error == ToSql(env, c, es[0]).error) || r == RenderAll(env, c, es[1..])
    ensures r.Err? ==> r.error.context == c
    decreases es, 0
  {
    if es == [] then Ok([])
    else
      var head :- ToSql(env, c, es[0]);
      var tail :- RenderAll(env, c, es[1..]);
      Ok([head] + tail)
  }

  /** `range(left, right)`. */
  function RangeSql(c: Context, low: string, high: string): (r: Rendered)
    ensures r.Err? <==> Resolve(c, RangeMethod).None?
    ensures r.Err? ==> r.error == NoMethod(c, RangeMethod)
  {
    match Resolve(c, RangeMethod)
    case None => Err(NoMethod(c, RangeMethod))
    case Some(_) => Ok(low + " AND " + high)
  }

  /** `select(select_sql, table)`. */
  function SelectSql(env: Environment, c: Context, sql: string, t: Relation): (r: Rendered)
    ensures r.Err? <==> Resolve(c, SelectMethod).None?
    ensures r.Err? ==> r.error == NoMethod(c, SelectMethod)
  {
    match Resolve(c, SelectMethod)
    case None => Err(NoMethod(c, SelectMethod))
    case Some(SelectClause) => Ok("(" + sql + ") AS " + env.quoteTableName(env.nameFor(t)))
    case Some(TableReference) => Ok("(" + sql + ") AS " + env.quoteTableName(env.nameFor(t)))
    case Some(WhereCondition) => Ok("(" + sql + ")")
    case Some(_) =>
      // SelectStatement: the statement itself
      Ok(sql)
  }

  /** `table(table)`: a name matching `/^(\w|-)*$/` is quoted, alias and all;
      any other name, and its alias, are emitted raw. */
  function TableSql(env: Environment, c: Context, t: Relation): (r: Rendered)
    ensures r.Err? <==> Resolve(c, TableMethod).None?
    ensures r.Err? ==> r.error == NoMethod(c, TableMethod)
  {
    match Resolve(c, TableMethod)
    case None => Err(NoMethod(c, TableMethod))
    case Some(_) =>
      var display := env.nameFor(t);
      var quoted := Matches(t.name, true);
      var name := if quoted then env.quoteTableName(t.name) else t.name;
      if t.name == display then Ok(name)
      else Ok(name + " AS " + (if quoted then env.quoteTableName(display) else display))
  }
}
