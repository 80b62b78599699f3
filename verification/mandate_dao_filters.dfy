/** The filter expressions the mandate table's queries are built from:
  * parenthesised disjunctions of one comparison per value, each value bound
  * to a numbered placeholder, glued together with " AND ". */
module MandateDaoFilters {
  import opened Wrappers
  import opened ExpressionValues
  import MandateUtils
  import PgUtils
  import T = TypeSegregatorFilter

  const And: string := " AND "
  const ContainsOp: string := "contains"
  const EqOp: string := "="
  const GtOp: string := ">"

  /** Column names of the mandate table. */
  const ValidToColumn: string := "d_validto"
  const GroupsColumn: string := "a_groups"
  const DelegatorColumn: string := "pk"
  const WorkflowTypeColumn: string := "s_workflowtype"
  const IunsColumn: string := "a_iuns"

  /** The operators `addFilterExpression` knows. */
  predicate Supported(operator: string)
  {
    operator == ContainsOp || operator == EqOp || operator == GtOp
  }

  /** The comparison of `field` with placeholder `prefix + i`: `contains`,
    * equality, or "greater than, or no such attribute". */
  function OperatorClause(operator: string, field: string, prefix: string, i: nat): (c: string)
    requires Supported(operator)
  {
    if operator == ContainsOp then ContainsOp + "(" + field + "," + Placeholder(prefix, i) + ")"
    else if operator == EqOp then field + EqOp + Placeholder(prefix, i)
    else field + GtOp + Placeholder(prefix, i) + " OR attribute_not_exists(" + field + ")"
  }

  /** The comparisons with placeholders `0..n-1`. */
  function OperatorClauses(operator: string, field: string, prefix: string, n: nat): (cs: seq<string>)
    requires Supported(operator)
    ensures |cs| == n
  {
    if n == 0 then [] else OperatorClauses(operator, field, prefix, n - 1) + [OperatorClause(operator, field, prefix, n - 1)]
  }

  lemma ClauseAt(operator: string, field: string, prefix: string, n: nat, i: nat)
    requires Supported(operator) && i < n
    ensures OperatorClauses(operator, field, prefix, n)[i] == OperatorClause(operator, field, prefix, i)
  {
    if i < n - 1 {
      ClauseAt(operator, field, prefix, n - 1, i);
    }
  }

  /** The parenthesised disjunction `addFilterExpression` appends. */
  function FilterGroup(operator: string, field: string, prefix: string, n: nat): (e: string)
    requires Supported(operator)
    ensures |e| >= 2 && e[0] == '('
  {
    "(" + MandateUtils.Join(" OR ", OperatorClauses(operator, field, prefix, n)) + ")"
  }

  /** The separator written after the `i`th of `n` comparisons. */
  function Separator(i: nat, n: nat): (sep: string)
  {
    if i + 1 < n then " OR " else ""
  }

  /** What the loop has written after `i` of `n` comparisons: each
    * comparison followed by its separator. */
  function Written(clauses: seq<string>, i: nat, n: nat): (e: string)
    requires i <= |clauses|
  {
    if i == 0 then "" else Written(clauses, i - 1, n) + clauses[i - 1] + Separator(i - 1, n)
  }

  lemma WrittenNext(clauses: seq<string>, i: nat, n: nat)
    requires i < |clauses|
    ensures Written(clauses, i + 1, n) == Written(clauses, i, n) + clauses[i] + Separator(i, n)
  {
  }

  /** Text that held the first `i` turns' output, extended by turn `i`'s
    * comparison and separator, holds the first `i + 1` turns' output. */
  lemma TextStep(start: string, clauses: seq<string>, i: nat, n: nat, before: string, after: string)
    requires i < |clauses|
    requires before == start + Written(clauses, i, n)
    requires after == before + clauses[i] + Separator(i, n)
    ensures after == start + Written(clauses, i + 1, n)
  {
    WrittenNext(clauses, i, n);
    Assoc(start, Written(clauses, i, n), clauses[i], Separator(i, n));
  }

  /** What the loop has written is the comparisons so far joined by " OR ",
    * and one more " OR " while comparisons remain. */
  lemma {:induction false} WrittenJoins(clauses: seq<string>, i: nat, n: nat)
    requires i <= |clauses| && i <= n
    ensures Written(clauses, i, n) == MandateUtils.Join(" OR ", clauses[..i]) + (if 0 < i < n then " OR " else "")
  {
    if i == 0 {
      assert clauses[..0] == [];
    } else if i == 1 {
      assert clauses[..1] == [clauses[0]];
    } else {
      WrittenJoins(clauses, i - 1, n);
      WrittenJoinsStep(clauses, i, n);
    }
  }

  lemma WrittenJoinsStep(clauses: seq<string>, i: nat, n: nat)
    requires 1 < i <= |clauses| && i <= n
    requires Written(clauses, i - 1, n) == MandateUtils.Join(" OR ", clauses[..i - 1]) + " OR "
    ensures Written(clauses, i, n) == MandateUtils.Join(" OR ", clauses[..i]) + (if i < n then " OR " else "")
  {
    var prior := MandateUtils.Join(" OR ", clauses[..i - 1]);
    MandateUtils.JoinSnoc(" OR ", clauses[..i - 1], clauses[i - 1]);
    assert clauses[..i] == clauses[..i - 1] + [clauses[i - 1]];
    assert MandateUtils.Join(" OR ", clauses[..i]) == prior + " OR " + clauses[i - 1];
  }

  /** All `n` comparisons written: exactly their join. */
  lemma WrittenAll(clauses: seq<string>)
    ensures Written(clauses, |clauses|, |clauses|) == MandateUtils.Join(" OR ", clauses)
  {
    WrittenJoins(clauses, |clauses|, |clauses|);
    assert clauses[..|clauses|] == clauses;
  }

  lemma Assoc3(a: string, b: string, c: string)
    ensures a + b + c == a + (b + c)
  {
  }

  lemma Assoc(a: string, b: string, c: string, d: string)
    ensures a + b + c + d == a + (b + c + d)
  {
  }

  /** `addContainsFilterExpression`: appends the `contains` test of `field`
    * against placeholder `prefix + idx`. */
  method AddContainsFilterExpression(field: string, prefix: string, idx: nat, expression: StringBuilder)
    modifies expression
    ensures expression.text == old(expression.text) + OperatorClause(ContainsOp, field, prefix, idx)
  {
    expression.Append(ContainsOp + "(" + field + "," + Placeholder(prefix, idx) + ")");
  }

  /** `addEqFilterExpression`: appends the equality of `field` with
    * placeholder `prefix + idx`. */
  method AddEqFilterExpression(field: string, prefix: string, idx: nat, expression: StringBuilder)
    modifies expression
    ensures expression.text == old(expression.text) + OperatorClause(EqOp, field, prefix, idx)
  {
    expression.Append(field + EqOp + Placeholder(prefix, idx));
  }

  /** `addGtFilterExpression`: appends "`field` after placeholder `prefix +
    * i`, or no such attribute". */
  method AddGtFilterExpression(field: string, prefix: string, i: nat, expression: StringBuilder)
    modifies expression
    ensures expression.text == old(expression.text) + OperatorClause(GtOp, field, prefix, i)
  {
    expression.Append(field + GtOp + Placeholder(prefix, i) + " OR attribute_not_exists(" + field + ")");
  }

  /** One turn of the loop of `addFilterExpression`: the switch on the
    * operator appends the `i`th comparison, then " OR " unless it is the
    * last of `n`. */
  method AddComparison(operator: string, field: string, prefix: string, i: nat, n: nat, expression: StringBuilder)
    requires Supported(operator) && i < n
    modifies expression
    ensures expression.text == old(expression.text) + OperatorClauses(operator, field, prefix, n)[i] + Separator(i, n)
  {
    if operator == ContainsOp {
      AddContainsFilterExpression(field, prefix, i, expression);
    } else if operator == EqOp {
      AddEqFilterExpression(field, prefix, i, expression);
    } else {
      // the only other supported operator
      AddGtFilterExpression(field, prefix, i, expression);
    }
    ClauseAt(operator, field, prefix, n, i);
    if i < n - 1 {
      expression.Append(" OR ");
    }
  }

  /** The loop of `addFilterExpression`: each value's comparison, the " OR "
    * after each but the last, and the binding of `prefix + i` to the value.
    * The switch's default branch is never taken here: with an unsupported
    * operator there is no value to loop over. */
  method AddComparisons(values: seq<string>, field: string, prefix: string, operator: string,
                        expressionValues: AttributeMap, expression: StringBuilder)
    requires Supported(operator)
    modifies expressionValues, expression
    ensures expression.text == old(expression.text) + MandateUtils.Join(" OR ", OperatorClauses(operator, field, prefix, |values|))
    ensures expressionValues.values == old(expressionValues.values) + Bindings(prefix, values)
  {
    ghost var start := expression.text;
    ghost var startValues := expressionValues.values;
    ghost var clauses := OperatorClauses(operator, field, prefix, |values|);
    var i := 0;
    while i < |values|
      invariant 0 <= i <= |values|
      invariant expression.text == start + Written(clauses, i, |values|)
      invariant expressionValues.values == startValues + Bindings(prefix, values[..i])
    {
      ghost var before := expression.text;
      AddComparison(operator, field, prefix, i, |values|, expression);
      TextStep(start, clauses, i, |values|, before, expression.text);
      expressionValues.Put(Placeholder(prefix, i), S(values[i]));
      BindingsStep(prefix, values, i, startValues);
      i := i + 1;
    }
    assert values[..i] == values;
    WrittenAll(clauses);
  }

  /** `addFilterExpression`: appends "(", one comparison per value joined by
    * " OR ", and ")", binding `prefix + i` to the `i`th value. An operator
    * the switch does not know raises `IllegalArgumentException` at the first
    * value, when only the "(" has been written. */
  method AddFilterExpression(values: seq<string>, field: string, prefix: string, operator: string,
                             expressionValues: AttributeMap, expression: StringBuilder)
      returns (error: Option<string>)
    modifies expressionValues, expression
    ensures Supported(operator) ==> (error.None? &&
      expression.text == old(expression.text) + FilterGroup(operator, field, prefix, |values|) &&
      expressionValues.values == old(expressionValues.values) + Bindings(prefix, values))
    ensures !Supported(operator) && values == [] ==> (error.None? &&
      expression.text == old(expression.text) + "()" && expressionValues.values == old(expressionValues.values))
    ensures !Supported(operator) && values != [] ==> (error == Some("Unsupported operator: " + operator) &&
      expression.text == old(expression.text) + "(" && expressionValues.values == old(expressionValues.values))
  {
    ghost var start := expression.text;
    expression.Append("(");
    if !Supported(operator) && values != [] {
      return Some("Unsupported operator: " + operator);
    }
    if Supported(operator) {
      AddComparisons(values, field, prefix, operator, expressionValues, expression);
    }
    expression.Append(")");
    if Supported(operator) {
      Assoc(start, "(", MandateUtils.Join(" OR ", OperatorClauses(operator, field, prefix, |values|)), ")");
    }
    error := None;
  }

  /** `addNewFilterExpression`: " AND " before every condition but the
    * first. */
  method AddNewFilterExpression(expression: StringBuilder)
    modifies expression
    ensures expression.text == old(expression.text) + (if old(expression.text) != "" then And else "")
  {
    expression.Append(if expression.text != "" then And else "");
  }

  /** The comparison of the workflow column with `:type<i>`. */
  function WorkflowClause(i: nat): (c: string)
  {
    WorkflowTypeColumn + EqOp + Placeholder(":type", i)
  }

  function WorkflowClauses(n: nat): (cs: seq<string>)
    ensures |cs| == n
    ensures forall i :: 0 <= i < n ==> cs[i] == WorkflowClause(i)
  {
    if n == 0 then [] else WorkflowClauses(n - 1) + [WorkflowClause(n - 1)]
  }

  /** The workflow condition up to its list of values. */
  const WorkflowOpening: string := "(attribute_not_exists(" + WorkflowTypeColumn + ") OR ("

  /** The workflow condition: no workflow attribute, or one of the
    * values. */
  function WorkflowFilter(n: nat): (e: string)
  {
    WorkflowOpening + MandateUtils.Join(" OR ", WorkflowClauses(n)) + "))"
  }

  /** `addWorkflowTypeStandardOrNotExistsFilter`: appends the workflow
    * condition and binds `:type<i>` to the `i`th value. */
  method AddWorkflowTypeStandardOrNotExistsFilter(values: seq<string>, expressionValues: AttributeMap, expression: StringBuilder)
    modifies expressionValues, expression
    ensures expression.text == old(expression.text) + WorkflowFilter(|values|)
    ensures expressionValues.values == old(expressionValues.values) + Bindings(":type", values)
  {
    ghost var start := expression.text;
    ghost var startValues := expressionValues.values;
    ghost var clauses := WorkflowClauses(|values|);
    expression.Append(WorkflowOpening);
    ghost var head := expression.text;
    var i := 0;
    while i < |values|
      invariant 0 <= i <= |values|
      invariant expression.text == head + Written(clauses, i, |values|)
      invariant expressionValues.values == startValues + Bindings(":type", values[..i])
    {
      ghost var before := expression.text;
      expression.Append(WorkflowTypeColumn + EqOp + Placeholder(":type", i));
      if i < |values| - 1 {
        expression.Append(" OR ");
      }
      TextStep(head, clauses, i, |values|, before, expression.text);
      expressionValues.Put(Placeholder(":type", i), S(values[i]));
      BindingsStep(":type", values, i, startValues);
      i := i + 1;
    }
    assert values[..i] == values;
    expression.Append("))");
    WrittenAll(clauses);
    Assoc(start, WorkflowOpening, MandateUtils.Join(" OR ", clauses), "))");
  }

  /** The test of the IUN set for `:iun<i>`. */
  function IunClause(i: nat): (c: string)
  {
    "contains(" + IunsColumn + ", " + Placeholder(":iun", i) + ")"
  }

  function IunClauses(n: nat): (cs: seq<string>)
    ensures |cs| == n
    ensures forall i :: 0 <= i < n ==> cs[i] == IunClause(i)
  {
    if n == 0 then [] else IunClauses(n - 1) + [IunClause(n - 1)]
  }

  /** Appending the separator and the `i`th part extends a join by one
    * part. */
  lemma JoinStep(head: string, parts: seq<string>, i: nat)
    requires i < |parts|
    ensures head + MandateUtils.Join(" OR ", parts[..i]) + (if i > 0 then " OR " else "") + parts[i]
      == head + MandateUtils.Join(" OR ", parts[..i + 1])
  {
    MandateUtils.JoinSnoc(" OR ", parts[..i], parts[i]);
    assert parts[..i + 1] == parts[..i] + [parts[i]];
    if i == 0 {
      assert parts[..0] == [];
    }
  }

  /** `getIunsFilterExpression`: nothing for a null or empty set; otherwise
    * " AND ", " (", one test per IUN joined by " OR ", and ")", each IUN (in
    * the set's iteration order) bound to `:iun<i>`. */
  method GetIunsFilterExpression(iuns: Option<seq<string>>, expressionValues: AttributeMap) returns (expr: string)
    modifies expressionValues
    ensures PgUtils.IsEmpty(iuns) ==> expr == "" && expressionValues.values == old(expressionValues.values)
    ensures !PgUtils.IsEmpty(iuns) ==> (
      expr == And + " (" + MandateUtils.Join(" OR ", IunClauses(|iuns.value|)) + ")" &&
      expressionValues.values == old(expressionValues.values) + Bindings(":iun", iuns.value))
  {
    if iuns.None? || iuns.value == [] {
      return "";
    }
    var items := iuns.value;
    ghost var startValues := expressionValues.values;
    ghost var clauses := IunClauses(|items|);
    var sb := And + " (";
    var idx := 0;
    while idx < |items|
      invariant 0 <= idx <= |items|
      invariant sb == And + " (" + MandateUtils.Join(" OR ", clauses[..idx])
      invariant expressionValues.values == startValues + Bindings(":iun", items[..idx])
    {
      if idx > 0 {
        sb := sb + " OR ";
      }
      var placeholder := Placeholder(":iun", idx);
      sb := sb + ("contains(" + IunsColumn + ", " + placeholder + ")");
      JoinStep(And + " (", clauses, idx);
      expressionValues.Put(placeholder, S(items[idx]));
      BindingsStep(":iun", items, idx, startValues);
      idx := idx + 1;
    }
    assert items[..idx] == items && clauses[..idx] == clauses;
    expr := sb + ")";
  }

  /** `getIunFilterExpression`: a STANDARD-segregated mandate, or a CIE one
    * whose IUN set holds `iun`. The standard expression binds the type
    * placeholders; `:cie` and `:iun` are bound after it. */
  method GetIunFilterExpression(iun: string, expressionValues: AttributeMap) returns (expr: string)
    modifies expressionValues
    ensures expr == "(" + T.Expression(T.STANDARD) + " OR " + CieWithIun + ")"
    ensures expressionValues.values ==
      (old(expressionValues.values) + Bindings(T.TypePrefix, T.TypeNames(T.STANDARD)))[":cie" := S("CIE")][":iun" := S(iun)]
  {
    var expressionForStandardSegregator := T.BuildExpression(T.STANDARD, expressionValues);
    expressionValues.Put(":cie", S("CIE"));
    expressionValues.Put(":iun", S(iun));
    var expressionForCieWithIun := "(" + WorkflowTypeColumn + " = :cie AND contains (" + IunsColumn + ", :iun))";
    expr := "(" + expressionForStandardSegregator + " OR " + expressionForCieWithIun + ")";
  }

  /** The CIE half of the IUN filter. */
  const CieWithIun: string := "(" + WorkflowTypeColumn + " = :cie AND contains (" + IunsColumn + ", :iun))"

  /** The IUN filter binds the standard types, the CIE type and the IUN to
    * their own placeholders, and admits a mandate with no workflow type. */
  lemma IunFilterBindings(start: map<string, AttributeValue>, iun: string)
    ensures var m := (start + Bindings(T.TypePrefix, T.TypeNames(T.STANDARD)))[":cie" := S("CIE")][":iun" := S(iun)];
      m[":iun"] == S(iun) && m[":cie"] == S("CIE") &&
      m[Placeholder(T.TypePrefix, 0)] == S("STANDARD") && m[Placeholder(T.TypePrefix, 1)] == S("REVERSE")
    ensures T.Expression(T.STANDARD)[..|T.MissingTypePrefix|] == T.MissingTypePrefix
  {
    var names := T.TypeNames(T.STANDARD);
    assert names == ["STANDARD", "REVERSE"];
    BindingsShape(T.TypePrefix, names);
    ForeignKeyUnbound(T.TypePrefix, names, ":cie");
    ForeignKeyUnbound(T.TypePrefix, names, ":iun");
    PlaceholderPrefix(T.TypePrefix, 0);
    PlaceholderPrefix(T.TypePrefix, 1);
    T.ExpressionAdmitsMissingType(T.STANDARD);
  }

  /** The second character of a placeholder is its prefix's. */
  lemma PlaceholderPrefix(prefix: string, i: nat)
    requires |prefix| >= 2
    ensures |Placeholder(prefix, i)| >= 2 && Placeholder(prefix, i)[1] == prefix[1]
  {
    var p := Placeholder(prefix, i);
    assert p[..|prefix|][1] == p[1];
  }

  /** A key whose second character differs from the prefix's is not one of
    * the prefix's placeholders. */
  lemma ForeignKeyUnbound(prefix: string, names: seq<string>, key: string)
    requires |prefix| >= 2 && |key| >= 2 && key[1] != prefix[1]
    ensures key !in Bindings(prefix, names)
  {
    BindingsShape(prefix, names);
    if key in Bindings(prefix, names) {
      var k :| 0 <= k < |names| && key == Placeholder(prefix, k);
      PlaceholderPrefix(prefix, k);
    }
  }

  /** The validity condition: the mandate ends after `:now0`, or has no end. */
  function ValidToFilter(): (e: string)
  {
    FilterGroup(GtOp, ValidToColumn, ":now", 1)
  }

  /** The values behind an optional condition: none for a null or empty
    * list. */
  function Listed(values: Option<seq<string>>): (vs: seq<string>)
  {
    if PgUtils.IsEmpty(values) then [] else values.value
  }

  /** The filter of the search by delegate. */
  function SearchByDelegateFilter(groups: Option<seq<string>>, delegatorIds: Option<seq<string>>): (e: string)
  {
    ValidToFilter() + OptionalCondition(groups, GroupsColumn, ":g", ContainsOp)
      + OptionalCondition(delegatorIds, DelegatorColumn, ":d", EqOp) + And + WorkflowFilter(|T.TypeNames(T.STANDARD)|)
  }

  /** The placeholders the search by delegate binds. */
  function SearchByDelegateValues(groups: Option<seq<string>>, delegatorIds: Option<seq<string>>, now: string): (m: map<string, AttributeValue>)
  {
    Bindings(":now", [now]) + Bindings(":g", Listed(groups)) + Bindings(":d", Listed(delegatorIds))
      + Bindings(":type", T.TypeNames(T.STANDARD))
  }

  /** The optional condition on `values`, when there are any: " AND " and
    * the disjunction of `operator` comparisons. */
  function OptionalCondition(values: Option<seq<string>>, field: string, prefix: string, operator: string): (e: string)
    requires Supported(operator)
  {
    if PgUtils.IsEmpty(values) then "" else And + FilterGroup(operator, field, prefix, |values.value|)
  }

  /** One optional condition of `filterExpressionSearchByDelegate`: nothing
    * for a null or empty list, otherwise " AND " (the builder already holds
    * the validity condition) and the condition itself. */
  method AddOptionalCondition(values: Option<seq<string>>, field: string, prefix: string, operator: string,
                              expressionValues: AttributeMap, expression: StringBuilder)
    requires Supported(operator) && expression.text != ""
    modifies expressionValues, expression
    ensures expression.text == old(expression.text) + OptionalCondition(values, field, prefix, operator)
    ensures expressionValues.values == old(expressionValues.values) + Bindings(prefix, Listed(values))
  {
    if !PgUtils.IsEmpty(values) {
      ghost var start := expression.text;
      AddNewFilterExpression(expression);
      var unsupported := AddFilterExpression(values.value, field, prefix, operator, expressionValues, expression);
      Assoc3(start, And, FilterGroup(operator, field, prefix, |values.value|));
    }
  }

  /** `filterExpressionSearchByDelegate`: mandates still valid at `now` (the
    * formatted current instant), carrying one of `groups` and given by one of
    * `delegatorIds` when those are given, and segregated as STANDARD. */
  method FilterExpressionSearchByDelegate(groups: Option<seq<string>>, delegatorIds: Option<seq<string>>, now: string)
      returns (expr: string, values: map<string, AttributeValue>)
    ensures expr == SearchByDelegateFilter(groups, delegatorIds)
    ensures values == SearchByDelegateValues(groups, delegatorIds, now)
  {
    var expressionValues := new AttributeMap();
    var filterExpression := new StringBuilder();
    AddNewFilterExpression(filterExpression);
    var unsupported := AddFilterExpression([now], ValidToColumn, ":now", GtOp, expressionValues, filterExpression);
    assert filterExpression.text == ValidToFilter() && expressionValues.values == Bindings(":now", [now]);
    AddOptionalCondition(groups, GroupsColumn, ":g", ContainsOp, expressionValues, filterExpression);
    AddOptionalCondition(delegatorIds, DelegatorColumn, ":d", EqOp, expressionValues, filterExpression);
    AddNewFilterExpression(filterExpression);
    AddWorkflowTypeStandardOrNotExistsFilter(T.TypeNames(T.STANDARD), expressionValues, filterExpression);
    expr := filterExpression.text;
    values := expressionValues.values;
  }

  /** A placeholder of one prefix is never bound by the placeholders of a
    * prefix with a different second character. */
  lemma ForeignPlaceholder(prefix: string, k: nat, other: string, names: seq<string>)
    requires |prefix| >= 2 && |other| >= 2 && prefix[1] != other[1]
    ensures Placeholder(prefix, k) !in Bindings(other, names)
  {
    PlaceholderPrefix(prefix, k);
    ForeignKeyUnbound(other, names, Placeholder(prefix, k));
  }

  /** The search by delegate binds `:now0` to the instant, none of the later
    * parts overwriting it. */
  lemma SearchByDelegateBindsNow(groups: Option<seq<string>>, delegatorIds: Option<seq<string>>, now: string)
    ensures var m := SearchByDelegateValues(groups, delegatorIds, now);
      Placeholder(":now", 0) in m && m[Placeholder(":now", 0)] == S(now)
  {
    BindingsShape(":now", [now]);
    ForeignPlaceholder(":now", 0, ":g", Listed(groups));
    ForeignPlaceholder(":now", 0, ":d", Listed(delegatorIds));
    ForeignPlaceholder(":now", 0, ":type", T.TypeNames(T.STANDARD));
  }

  /** `:g<k>` is bound to the `k`th group. */
  lemma SearchByDelegateBindsGroups(groups: Option<seq<string>>, delegatorIds: Option<seq<string>>, now: string, k: nat)
    requires k < |Listed(groups)|
    ensures var m := SearchByDelegateValues(groups, delegatorIds, now);
      Placeholder(":g", k) in m && m[Placeholder(":g", k)] == S(Listed(groups)[k])
  {
    BindingsShape(":g", Listed(groups));
    ForeignPlaceholder(":g", k, ":d", Listed(delegatorIds));
    ForeignPlaceholder(":g", k, ":type", T.TypeNames(T.STANDARD));
  }

  /** `:d<k>` is bound to the `k`th delegator. */
  lemma SearchByDelegateBindsDelegators(groups: Option<seq<string>>, delegatorIds: Option<seq<string>>, now: string, k: nat)
    requires k < |Listed(delegatorIds)|
    ensures var m := SearchByDelegateValues(groups, delegatorIds, now);
      Placeholder(":d", k) in m && m[Placeholder(":d", k)] == S(Listed(delegatorIds)[k])
  {
    BindingsShape(":d", Listed(delegatorIds));
    ForeignPlaceholder(":d", k, ":type", T.TypeNames(T.STANDARD));
  }

  /** `:type0` and `:type1` are bound to the STANDARD segregation's types. */
  lemma SearchByDelegateBindsTypes(groups: Option<seq<string>>, delegatorIds: Option<seq<string>>, now: string)
    ensures var m := SearchByDelegateValues(groups, delegatorIds, now);
      Placeholder(":type", 0) in m && m[Placeholder(":type", 0)] == S("STANDARD") &&
      Placeholder(":type", 1) in m && m[Placeholder(":type", 1)] == S("REVERSE")
  {
    var ts := T.TypeNames(T.STANDARD);
    assert ts == ["STANDARD", "REVERSE"];
    BindingsShape(":type", ts);
  }

  lemma ValidToFilterExample()
    ensures ValidToFilter() == "(" + ("d_validto" + ">" + ":now0" + " OR attribute_not_exists(" + "d_validto" + ")") + ")"
  {
    assert NatToString(0) == "0";
    assert OperatorClauses(GtOp, ValidToColumn, ":now", 1) == [OperatorClause(GtOp, ValidToColumn, ":now", 0)];
  }

  lemma WorkflowFilterExample()
    ensures WorkflowFilter(2) ==
      WorkflowOpening + ("s_workflowtype" + "=" + ":type0" + " OR " + "s_workflowtype" + "=" + ":type1") + "))"
  {
    assert NatToString(0) == "0" && NatToString(1) == "1";
    var cs := WorkflowClauses(2);
    assert cs == [WorkflowClause(0), WorkflowClause(1)] && cs[1..] == [WorkflowClause(1)];
  }

  /** Without groups or delegators the search keeps only the validity and
    * segregation conditions. */
  lemma SearchByDelegateExample()
    ensures SearchByDelegateFilter(None, Some([])) == ValidToFilter() + " AND " + WorkflowFilter(2)
  {
    assert |T.TypeNames(T.STANDARD)| == 2 by {
      assert T.TypeNames(T.STANDARD) == ["STANDARD", "REVERSE"];
    }
    assert OptionalCondition(None, GroupsColumn, ":g", ContainsOp) == "";
    assert OptionalCondition(Some([]), DelegatorColumn, ":d", EqOp) == "";
  }

  /** One group: its `contains` test on the groups column, bound to ":g0". */
  lemma GroupConditionExample()
    ensures OptionalCondition(Some(["g1"]), GroupsColumn, ":g", ContainsOp) ==
      " AND " + "(" + ("contains" + "(" + "a_groups" + "," + ":g0" + ")") + ")"
  {
    var clause := OperatorClause(ContainsOp, GroupsColumn, ":g", 0);
    assert clause == "contains" + "(" + "a_groups" + "," + ":g0" + ")" by {
      assert NatToString(0) == "0";
    }
    assert OperatorClauses(ContainsOp, GroupsColumn, ":g", 1) == [clause];
    assert MandateUtils.Join(" OR ", [clause]) == clause;
  }

  /** One group adds one `contains` condition between the validity and the
    * segregation conditions. */
  lemma SearchByGroupExample()
    ensures SearchByDelegateFilter(Some(["g1"]), None) ==
      ValidToFilter() + " AND " + "(" + ("contains" + "(" + "a_groups" + "," + ":g0" + ")") + ")" + " AND " + WorkflowFilter(2)
  {
    assert |T.TypeNames(T.STANDARD)| == 2 by {
      assert T.TypeNames(T.STANDARD) == ["STANDARD", "REVERSE"];
    }
    assert OptionalCondition(None, DelegatorColumn, ":d", EqOp) == "";
    GroupConditionExample();
  }

}
