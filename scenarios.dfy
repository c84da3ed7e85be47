/** Worked examples under one concrete policy: identifiers in backticks,
    values in single quotes, and a christener that shows `orders` as `o`. */
module Scenarios {
  import opened Wrappers
  import opened Patterns
  import opened Text
  import opened Formatters

  function Backticks(s: string): string {
    "`" + s + "`"
  }

  /** Values in single quotes, integers in decimal, nil as `NULL`. */
  function QuoteValue(v: Scalar, column: Option<Column>): string {
    match v
    case StringScalar(s) => "'" + s + "'"
    case IntegerScalar(i) => if i < 0 then "-" + Digits(-i) else Digits(i)
    case NilScalar => "NULL"
  }

  /** The decimal digits of `n`, most significant first. */
  function Digits(n: nat): string
    decreases n
  {
    if n < 10 then [('0' as int + n) as char]
    else Digits(n / 10) + [('0' as int + n % 10) as char]
  }

  function Christen(r: Relation): string {
    if r.name == "orders" then "o" else r.name
  }

  function Env(): Environment {
    Environment(Christen, Backticks, Backticks, QuoteValue, None)
  }

  function UserId(alias: Option<string>): Attribute {
    Attribute("id", Relation("users", 0), alias)
  }

  lemma IdIsWord()
    ensures Matches("id", false)
    ensures Qualified(Env(), UserId(None)) == "`users`.`id`"
  {
    SingleLineMatch("id", false);
    assert IsWord("id");
  }

  /** `users.id` is qualified in the select list and in ORDER BY; its alias
      shows in the select list only, quoted as a value. */
  lemma UsersIdByContext()
    ensures ToSql(Env(), SelectClause, AttributeNode(UserId(None))) == Ok("`users`.`id`")
    ensures ToSql(Env(), SelectClause, AttributeNode(UserId(Some("uid")))) == Ok("`users`.`id` AS 'uid'")
    ensures ToSql(Env(), OrderClause, AttributeNode(UserId(Some("uid")))) == Ok("`users`.`id`")
  {
    IdIsWord();
    assert Qualified(Env(), UserId(Some("uid"))) == "`users`.`id`";
    assert ToSql(Env(), SelectClause, AttributeNode(UserId(None))) == AttributeSql(Env(), SelectClause, UserId(None));
    assert AttributeSql(Env(), SelectClause, UserId(None)) == Ok("`users`.`id`");
    var aliased := UserId(Some("uid"));
    assert Env().quote(StringScalar("uid"), None) == "'uid'";
    assert "`users`.`id`" + " AS " + "'uid'" == "`users`.`id` AS 'uid'";
    assert ToSql(Env(), SelectClause, AttributeNode(aliased)) == AttributeSql(Env(), SelectClause, aliased);
    assert AttributeSql(Env(), SelectClause, aliased) == Ok("`users`.`id`" + " AS " + "'uid'");
    assert ToSql(Env(), OrderClause, AttributeNode(aliased)) == AttributeSql(Env(), OrderClause, aliased);
  }

  /** A name that is not an identifier, such as `COUNT(*)`, is passed
      through raw. */
  lemma RawNamePassesThrough()
    ensures ToSql(Env(), SelectClause, AttributeNode(Attribute("COUNT(*)", Relation("users", 0), None))) == Ok("COUNT(*)")
  {
    var a := Attribute("COUNT(*)", Relation("users", 0), None);
    SingleLineMatch(a.name, false);
    assert !Accepts(a.name[5], false);
    assert ToSql(Env(), SelectClause, AttributeNode(a)) == AttributeSql(Env(), SelectClause, a);
  }

  /** `users.id`, rendered as an operand by the select list and by a
      condition. */
  lemma UserIdOperand()
    ensures ToSql(Env(), SelectClause, AttributeNode(UserId(None))) == Ok("`users`.`id`")
    ensures ToSql(Env(), WhereCondition, AttributeNode(UserId(None))) == Ok("`users`.`id`")
  {
    IdIsWord();
    assert ToSql(Env(), SelectClause, AttributeNode(UserId(None))) == AttributeSql(Env(), SelectClause, UserId(None));
    assert ToSql(Env(), WhereCondition, AttributeNode(UserId(None))) == AttributeSql(Env(), WhereCondition, UserId(None));
  }

  /** `DISTINCT` is a keyword in the select list... */
  lemma DistinctInSelectList()
    ensures ToSql(Env(), SelectClause, ExpressionNode(Expression("DISTINCT", AttributeNode(UserId(None)), None)))
      == Ok("DISTINCT `users`.`id`")
  {
    UserIdOperand();
    var distinct := Expression("DISTINCT", AttributeNode(UserId(None)), None);
    assert "DISTINCT" + " " + "`users`.`id`" == "DISTINCT `users`.`id`";
    assert ToSql(Env(), SelectClause, ExpressionNode(distinct)) == ExpressionSql(Env(), SelectClause, distinct);
    assert ExpressionSql(Env(), SelectClause, distinct) == Ok("DISTINCT" + " " + "`users`.`id`");
  }

  /** ...and an ordinary call in a condition. */
  lemma DistinctInCondition()
    ensures ToSql(Env(), WhereCondition, ExpressionNode(Expression("DISTINCT", AttributeNode(UserId(None)), None)))
      == Ok("DISTINCT(`users`.`id`)")
  {
    UserIdOperand();
    var distinct := Expression("DISTINCT", AttributeNode(UserId(None)), None);
    assert "DISTINCT" + "(" == "DISTINCT(";
    assert "DISTINCT(" + "`users`.`id`" + ")" == "DISTINCT(`users`.`id`)";
    assert ToSql(Env(), WhereCondition, ExpressionNode(distinct)) == ExpressionSql(Env(), WhereCondition, distinct);
    assert ExpressionSql(Env(), WhereCondition, distinct) == Ok("DISTINCT" + "(" + "`users`.`id`" + ")");
  }

  /** A call in the select list takes its alias as a quoted column name. */
  lemma AliasedCount()
    ensures ToSql(Env(), SelectClause, ExpressionNode(Expression("COUNT", AttributeNode(UserId(None)), Some("n"))))
      == Ok("COUNT(`users`.`id`) AS `n`")
  {
    UserIdOperand();
    var count := Expression("COUNT", AttributeNode(UserId(None)), Some("n"));
    assert Env().quoteColumnName("n") == "`n`";
    var call := "COUNT" + "(" + "`users`.`id`" + ")";
    assert call == "COUNT(`users`.`id`)";
    assert call + " AS " + "`n`" == "COUNT(`users`.`id`) AS `n`";
    assert ToSql(Env(), SelectClause, ExpressionNode(count)) == ExpressionSql(Env(), SelectClause, count);
    assert ExpressionSql(Env(), SelectClause, count) == Ok(call + " AS " + "`n`");
  }

  /** `orders`, shown as `o`, gets an `AS` clause... */
  lemma RenamedTable()
    ensures ToSql(Env(), TableReference, TableNode(Relation("orders", 0))) == Ok("`orders` AS `o`")
  {
    var orders := Relation("orders", 0);
    SingleLineMatch(orders.name, true);
    assert IsWordOrHyphen(orders.name);
    assert Env().nameFor(orders) == "o";
    assert Env().quoteTableName("orders") == "`orders`" && Env().quoteTableName("o") == "`o`";
    assert "`orders`" + " AS " + "`o`" == "`orders` AS `o`";
    assert ToSql(Env(), TableReference, TableNode(orders)) == TableSql(Env(), TableReference, orders);
    assert TableSql(Env(), TableReference, orders) == Ok("`orders`" + " AS " + "`o`");
  }

  /** ...and `users`, shown under its own name, does not. */
  lemma PlainTable()
    ensures ToSql(Env(), TableReference, TableNode(Relation("users", 0))) == Ok("`users`")
  {
    var users := Relation("users", 0);
    SingleLineMatch(users.name, true);
    assert IsWordOrHyphen(users.name);
    assert Env().nameFor(users) == "users";
    assert Env().quoteTableName("users") == "`users`";
    assert ToSql(Env(), TableReference, TableNode(users)) == TableSql(Env(), TableReference, users);
    assert TableSql(Env(), TableReference, users) == Ok("`users`");
  }

  /** A range operand of a condition. */
  lemma RangeOperand()
    ensures ToSql(Env(), AttributeOperand, RangeNode("10", "20")) == Ok("10 AND 20")
  {
    assert ToSql(Env(), AttributeOperand, RangeNode("10", "20")) == RangeSql(AttributeOperand, "10", "20");
    assert RangeSql(AttributeOperand, "10", "20") == Ok("10" + " AND " + "20");
    assert "10" + " AND " + "20" == "10 AND 20";
  }

  /** The two strings of `ArrayOperand`, each quoted, in order. */
  lemma QuotedPair(es: seq<Node>)
    requires es == [ScalarNode(StringScalar("a")), ScalarNode(StringScalar("b"))]
    ensures RenderAll(Env(), AttributeOperand, es) == Ok(["'a'", "'b'"])
  {
    assert Env().quote(StringScalar("a"), Env().column) == "'a'";
    assert Env().quote(StringScalar("b"), Env().column) == "'b'";
    assert ToSql(Env(), AttributeOperand, es[0]) == ScalarSql(Env(), AttributeOperand, StringScalar("a")) == Ok("'a'");
    assert ToSql(Env(), AttributeOperand, es[1]) == ScalarSql(Env(), AttributeOperand, StringScalar("b")) == Ok("'b'");
    assert es[1..][1..] == [];
    assert RenderAll(Env(), AttributeOperand, es[1..][1..]) == Ok([]);
    assert es[1..][0] == es[1];
    assert ["'b'"] + [] == ["'b'"];
    assert RenderAll(Env(), AttributeOperand, es[1..]) == Ok(["'b'"]);
    assert ["'a'"] + ["'b'"] == ["'a'", "'b'"];
  }

  /** An array of strings as the operand of a condition. */
  lemma ArrayOperand()
    ensures ToSql(Env(), AttributeOperand, ArrayNode([ScalarNode(StringScalar("a")), ScalarNode(StringScalar("b"))]))
      == Ok("('a', 'b')")
  {
    var es := [ScalarNode(StringScalar("a")), ScalarNode(StringScalar("b"))];
    QuotedPair(es);
    assert Join(["'a'", "'b'"], ListSeparator) == "'a'" + ", " + "'b'";
    assert "(" + ("'a'" + ", " + "'b'") + ")" == "('a', 'b')";
    assert ToSql(Env(), AttributeOperand, ArrayNode(es)) == ArraySql(Env(), AttributeOperand, es);
    assert ArraySql(Env(), AttributeOperand, es) == Ok("(" + ("'a'" + ", " + "'b'") + ")");
  }
}
