# Arel SQL formatters, modelled in Dafny

This project models the SQL fragment formatters of Arel (`Arel::Sql`), the
layer that turns query nodes into SQL text. Each formatter class is one
syntactic position: the select list (`SelectClause`), the WHERE, ORDER BY and
GROUP BY clauses (`WhereClause`, `OrderClause` and `GroupClause`, all built on
`PassThrough`), the operands of a condition (`WhereCondition` and its
subclasses `Attribute` and `Value`), a whole statement (`SelectStatement`),
and the FROM position (`TableReference`). A node is rendered by calling the
formatter method named after its kind (`attribute`, `expression`, `value`,
`scalar`, `select`, `table`, `array`, `range`). The same node therefore
renders differently by position. Aliases appear in the select list only. A
name that fails the identifier pattern is passed through raw. `DISTINCT` is
a keyword in the select list and a call elsewhere. A subselect is a derived
table, a scalar subquery or the bare statement, depending on the position.

The model is pure (`formatters.dfy`):

- `Context` lists the formatter classes (`AttributeOperand` and
  `ValueOperand` are the classes `Attribute` and `Value`).
- `Superclass`, `OwnMethods` and `Resolve` are Ruby's method lookup through
  the class hierarchy. Each renderer matches on the class whose method is
  found.
- `AttributeSql`, `ExpressionSql`, `ValueSql`, `ScalarSql`, `SelectSql`,
  `TableSql`, `ArraySql` and `RangeSql` are the formatter methods.
- `ToSql` is `node.to_sql(formatter)`.
- A method that the formatter's class lacks yields
  `Err(NoMethod(context, method))`, Ruby's `NoMethodError`.
- The engine's quoting functions, the christener's `name_for` and the
  `Attribute` formatter's `environment.column` are fields of `Environment`.
  Every property holds for every quoting policy and every naming.

`patterns.dfy` models `/^\w*$/` and `/^(\w|-)*$/` with Ruby's meaning of the
anchors. `^` and `$` match at line boundaries, so a multi-line string passes
when one of its lines does. `text.dfy` models `Array#join`. `properties.dfy`
holds the properties, and `scenarios.dfy` holds worked examples under a
backtick quoting policy.

The model follows the code as written:

- The select list quotes an attribute's alias with `quote`, the value quoter.
  So `users.id` aliased `uid` is rendered `` `users`.`id` AS 'uid' `` when
  values are single-quoted. It is not `` AS `uid` ``.
- Only the select list checks the name against the identifier pattern.
  ORDER BY, GROUP BY and the condition formatters always qualify.
- Only the select list treats `DISTINCT` as a keyword. A condition renders
  `DISTINCT(x)`.

## Model

| member | source | states |
|---|---|---|
| Formatters.Superclass | lib/arel/sql/formatters.rb:3-119 | the class declarations: `Formatter` is the only root, and only `Formatter`, `PassThrough` and `WhereCondition` have subclasses |
| Formatters.OwnMethods | lib/arel/sql/formatters.rb:14-119 | the methods each class body defines: `table` only in `TableReference`, `array` and `range` only in `Attribute`, `scalar` only in `WhereCondition` and `Attribute`, and nothing in `Formatter`, `WhereClause` and `Value` |
| Formatters.Resolve | lib/arel/sql/formatters.rb:3-119 | the class lookup finds defines the method in its own body (that this class is `c` or its nearest defining ancestor is proved by `ResolveNearest`) |
| Formatters.ResolveNearest | lib/arel/sql/formatters.rb:3-119 | lookup finds the nearest definition: every class from `c` upwards that defines the method sits at or above the one found, and lookup finds nothing exactly when no class from `c` up to `Formatter` defines it |
| Properties.MethodTable | lib/arel/sql/formatters.rb:14-119 | lookup through the class hierarchy gives exactly the flattened method table of every formatter; `Attribute#scalar` overrides `WhereCondition#scalar`, and `Attribute` inherits `attribute` from `WhereCondition` |
| Properties.QualifiedIgnoresAlias | lib/arel/sql/formatters.rb:52 | the qualified form (lines 18, 52, 58 and 64) depends only on the column name and the relation's display name: any alias leaves it unchanged, and attributes with the same name on relations christened alike qualify alike |
| Formatters.ToSql | lib/arel/sql/formatters.rb:26-28 | every error raised while rendering a node, however deep, names the formatter it was rendered with |
| Properties.NoSpuriousNoMethod | lib/arel/sql/formatters.rb:68-72 | a rendering never reports as missing a method that the formatter has, even from nested operands, values or elements |
| Properties.NoSpuriousNoMethodAll | lib/arel/sql/formatters.rb:110 | the same for the elements of an array |
| Properties.DispatchFailsExactlyWithoutMethod | lib/arel/sql/formatters.rb:14-119 | a node fails with a missing method for its own kind if and only if the formatter's class and its ancestors lack that method |
| Formatters.AttributeSql | lib/arel/sql/formatters.rb:15-65 | `attribute` fails exactly on formatters without it (base, `PassThrough`, `WhereClause`, `SelectStatement`, `TableReference`) |
| Formatters.ExpressionSql | lib/arel/sql/formatters.rb:24-69 | `expression` fails with a missing method on formatters without it. Where it exists, it fails exactly when its operand, rendered by the same formatter, fails, and then with the operand's error |
| Formatters.ValueSql | lib/arel/sql/formatters.rb:36-73 | `value` fails with a missing method on formatters without it. Where `WhereCondition#value` is found, the value is rendered by the same formatter. Elsewhere it can fail only with `NotText` |
| Formatters.ScalarSql | lib/arel/sql/formatters.rb:75-107 | `scalar` fails exactly on formatters outside the `WhereCondition` family |
| Formatters.ArraySql | lib/arel/sql/formatters.rb:109-111 | `array` fails with a missing method outside `Attribute`. In `Attribute` it fails exactly when collecting the elements fails, and then with that error |
| Formatters.RenderAll | lib/arel/sql/formatters.rb:110 | `collect` yields one rendering per element. A failure is either the first element's own error or the failure of the rest, and it names the formatter |
| Formatters.RangeSql | lib/arel/sql/formatters.rb:113-115 | `range` fails exactly outside `Attribute` |
| Formatters.SelectSql | lib/arel/sql/formatters.rb:32-93 | `select` fails exactly on the base class and the pass-through clauses |
| Formatters.TableSql | lib/arel/sql/formatters.rb:95-101 | `table` fails exactly outside `TableReference` |
| Properties.ValueOperandIsWhereCondition | lib/arel/sql/formatters.rb:118-119 | `Value` renders every node exactly as `WhereCondition` does: the same SQL or the same failure |
| Properties.AttributeOperandExtendsWhereCondition | lib/arel/sql/formatters.rb:104-116 | without a column hint, `Attribute` renders every node that `WhereCondition` renders, with the same SQL |
| Properties.OrderAndGroupAgree | lib/arel/sql/formatters.rb:50-60 | `OrderClause` and `GroupClause` render every node alike |
| Properties.QualifiedOutsideSelectList | lib/arel/sql/formatters.rb:51-65 | in ORDER BY, GROUP BY and the three condition formatters, an attribute is exactly `quote_table_name(name_for(relation)) + "." + quote_column_name(name)`; there is no identifier check, and any alias is ignored |
| Properties.SelectListAttribute | lib/arel/sql/formatters.rb:15-21 | in the select list an attribute always renders. A name matching `/^\w*$/`, the empty name included, is qualified exactly as in ORDER BY; any other name is emitted raw. An alias appends exactly `" AS " + quote(alias)`, and no alias appends nothing |
| Properties.SelectListSingleLineName | lib/arel/sql/formatters.rb:17-20 | for a name without a newline, the select list qualifies it if and only if it consists of `[A-Za-z0-9_]` only; otherwise it emits it raw |
| Properties.SelectListExpression | lib/arel/sql/formatters.rb:24-30 | in the select list `DISTINCT` gives `"DISTINCT " + operand` with no parentheses, and any other `F` gives `F(operand)`. An alias appends exactly `" AS " + quote_column_name(alias)`. A failing operand fails the expression with its error |
| Properties.ConditionExpression | lib/arel/sql/formatters.rb:67-69 | in a condition formatter an expression is always `F(operand)`, even for `DISTINCT`, and never carries an alias |
| Properties.SubselectByContext | lib/arel/sql/formatters.rb:32-93 | a subselect is the SQL unchanged in `SelectStatement` and parenthesised in a condition. In the select list and in `TableReference` it is parenthesised and followed by `" AS " + quote_table_name(name_for(table))`. The pass-through clauses cannot render it |
| Properties.TableReferenceTable | lib/arel/sql/formatters.rb:95-101 | a table renders as its base form exactly when its name equals `name_for(table)`; otherwise it is followed by `" AS "` and the display name. A name matching `/^(\w\|-)*$/` is quoted, alias included; any other name and its alias are raw |
| Properties.TableOnlyInTableReference | lib/arel/sql/formatters.rb:90-102 | every formatter but `TableReference` fails on a table with a missing `table` method |
| Properties.ValueByContext | lib/arel/sql/formatters.rb:36-73 | `SelectClause` and the pass-through clauses return a string value unchanged. The condition formatters render the value with themselves. The others have no `value` |
| Properties.ScalarByContext | lib/arel/sql/formatters.rb:75-107 | a scalar is `quote(v, nil)` in `WhereCondition` and `Value`, and `quote(v, column)` in `Attribute`; elsewhere `scalar` is missing |
| Properties.RangeByContext | lib/arel/sql/formatters.rb:113-115 | a range is exactly `low + " AND " + high` in `Attribute` and missing elsewhere |
| Properties.RenderAllSucceeds | lib/arel/sql/formatters.rb:110 | collecting renderings succeeds if and only if every element renders |
| Properties.RenderAllItems | lib/arel/sql/formatters.rb:110 | a successful collection holds each element's rendering at the element's own position |
| Properties.RenderAllFirstError | lib/arel/sql/formatters.rb:110 | a failed collection fails with the error of the leftmost element that fails, every earlier element rendering |
| Properties.ArrayRendering | lib/arel/sql/formatters.rb:109-111 | an array renders if and only if every element renders in `Attribute`. Then it is `"(" + join(renderings, ", ") + ")"`, and its length is the elements' lengths plus 2 for the parentheses plus 2 per separator, with N-1 separators |
| Properties.ArrayElementAt | lib/arel/sql/formatters.rb:109-111 | an array is `"(" + inner + ")"`, where `inner` is the joined renderings, and inside `inner` element i's rendering sits at its offset after the earlier elements and their separators |
| Properties.ArraySeparatorAt | lib/arel/sql/formatters.rb:110 | inside the parentheses, every element but the last is directly followed by `", "` |
| Properties.EmptyArray | lib/arel/sql/formatters.rb:109-111 | the empty array renders as `"()"` |
| Properties.ArrayOnlyInAttribute | lib/arel/sql/formatters.rb:104-116 | every formatter but `Attribute` fails on an array with a missing `array` method |
| Text.Join | lib/arel/sql/formatters.rb:110 | joining no elements gives the empty string, and joining one element gives that element |
| Text.JoinLength | lib/arel/sql/formatters.rb:110 | a join of N elements is as long as the elements plus N-1 separators |
| Text.JoinElementAt | lib/arel/sql/formatters.rb:110 | element i sits at its offset in the join, in input order |
| Text.JoinSeparatorAt | lib/arel/sql/formatters.rb:110 | the separator directly follows element i whenever another element comes after it |
| Text.JoinUnfold | lib/arel/sql/formatters.rb:110 | a join of two or more elements is the first element, the separator and the join of the rest, and offsets shift accordingly |
| Text.OffsetNext | lib/arel/sql/formatters.rb:110 | the next element starts one separator after the end of the previous one |
| Patterns.SingleLineMatch | lib/arel/sql/formatters.rb:17 | for a string without a newline, the line-anchored pattern matches if and only if every character is accepted |
| Patterns.Matches | lib/arel/sql/formatters.rb:17 | `=~ /^\w*$/` and, with hyphens, `=~ /^(\w\|-)*$/` (line 96): some line stretch of the name is all accepted characters, so a name accepted as a whole always matches |
| Patterns.EmptyMatches | lib/arel/sql/formatters.rb:17 | the empty name matches both patterns |
| Patterns.WordMatchImpliesHyphenMatch | lib/arel/sql/formatters.rb:96 | every name matched by `/^\w*$/` is matched by `/^(\w\|-)*$/` |
| Patterns.MultiLineFragmentMatches | lib/arel/sql/formatters.rb:17 | `"CASE\nWHEN x THEN 1 END"` matches `/^\w*$/` through its first line, though it is not an identifier |
| Patterns.TrailingNewlineOpensNoLine | lib/arel/sql/formatters.rb:17 | `"!\n"` does not match: a final newline does not start an empty line |
| Scenarios.UsersIdByContext | lib/arel/sql/formatters.rb:17-18 | under backtick quoting, `users.id` renders as `` `users`.`id` `` in the select list. Aliased `uid` it renders as `` `users`.`id` AS 'uid' ``. In ORDER BY it renders as `` `users`.`id` `` |
| Scenarios.RawNamePassesThrough | lib/arel/sql/formatters.rb:19-20 | the name `COUNT(*)` is emitted raw in the select list |
| Scenarios.DistinctInSelectList | lib/arel/sql/formatters.rb:25-26 | `DISTINCT` applied to `users.id` renders as `` DISTINCT `users`.`id` `` in the select list |
| Scenarios.DistinctInCondition | lib/arel/sql/formatters.rb:67-69 | the same expression renders as `` DISTINCT(`users`.`id`) `` in a condition |
| Scenarios.AliasedCount | lib/arel/sql/formatters.rb:28 | `COUNT` of `users.id` aliased `n` renders as `` COUNT(`users`.`id`) AS `n` `` in the select list |
| Scenarios.RenamedTable | lib/arel/sql/formatters.rb:95-97 | `orders`, shown as `o`, renders as `` `orders` AS `o` `` |
| Scenarios.PlainTable | lib/arel/sql/formatters.rb:95-97 | `users`, shown under its own name, renders as `` `users` `` |
| Scenarios.RangeOperand | lib/arel/sql/formatters.rb:113-115 | the range 10..20 renders as `10 AND 20` |
| Scenarios.ArrayOperand | lib/arel/sql/formatters.rb:109-111 | the array of `"a"` and `"b"` renders as `('a', 'b')` under single-quote value quoting |

## Left out

- The delegation plumbing (`environment`, `christener`, `engine` and the
  `delegate` lines) is not modelled as such. What it delegates to is a field
  of `Environment`. Its behaviour is arbitrary, because the engine adapters
  and the christener are not part of this model.
- The node classes whose `to_sql` calls the formatters are not part of this
  model. `ToSql` assumes that each kind of node calls the formatter method
  of the same name, passing itself or its fields.
- Formatters.ValueSql: the pass-through `value` returns any object
  unchanged. The model follows it only for a string, which is SQL text. For
  any other object it reports `NotText`, because a non-string would reach
  the caller as is.
- A range's endpoints enter `range` as Ruby objects that are interpolated
  with `to_s`. The model takes them as their text.
- Attribute names and aliases may be Ruby symbols (`name.to_s`,
  `alias.to_s`). The model takes them as strings.
- `Scalar` covers strings, integers and nil only. Other literals (floats,
  dates, booleans, decimals) are passed to `quote` in the same way and are
  not modelled.
- `\w` is taken as ASCII `[A-Za-z0-9_]`. Ruby's multibyte or Unicode word
  characters are not modelled.
- A caller passing a column to `WhereCondition#scalar` is not modelled. The
  model calls it with its default `column = nil`, as `to_sql` does, and only
  `Attribute#scalar` passes a column.
- The FIXME about checking that the column exists describes no check in the
  code, so the model has none either.
