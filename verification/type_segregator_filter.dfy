/** The workflow a mandate belongs to. */
module WorkFlowTypes {
  import opened Wrappers

  datatype WorkFlowType = STANDARD | REVERSE | CIE

  /** `values()`, in declaration order. */
  const Values: seq<WorkFlowType> := [STANDARD, REVERSE, CIE]

  /** `name()`. */
  function Name(t: WorkFlowType): (n: string)
    ensures n != []
  {
    match t
    case STANDARD => "STANDARD"
    case REVERSE => "REVERSE"
    case CIE => "CIE"
  }

  /** `valueOf`: the type with that name, if any. */
  function FromName(n: string): (t: Option<WorkFlowType>)
    ensures t.Some? ==> Name(t.value) == n
  {
    if n == "STANDARD" then Some(STANDARD)
    else if n == "REVERSE" then Some(REVERSE)
    else if n == "CIE" then Some(CIE)
    else None
  }

  /** A type is found again from its name. */
  lemma FromNameOfName(t: WorkFlowType)
    ensures FromName(Name(t)) == Some(t)
  {
  }
}

/** The segregation of mandates by workflow type in queries: which filter
  * serves a workflow, which stored types it admits, and the DynamoDB filter
  * expression that selects them. */
module TypeSegregatorFilter {
  import opened Wrappers
  import W = WorkFlowTypes
  import opened ExpressionValues
  import MandateUtils

  datatype TypeSegregatorFilter = STANDARD | CIE | ALL

  /** `values()`, in declaration order. */
  const Filters: seq<TypeSegregatorFilter> := [STANDARD, CIE, ALL]

  /** The workflow types each filter selects. */
  function Types(f: TypeSegregatorFilter): (ts: seq<W.WorkFlowType>)
    ensures ts != []
  {
    match f
    case STANDARD => [W.STANDARD, W.REVERSE]
    case CIE => [W.CIE]
    case ALL => W.Values
  }

  /** Which types each filter selects, spelled out. */
  lemma InTypes(f: TypeSegregatorFilter, t: W.WorkFlowType)
    ensures t in Types(f) <==> f == ALL || (f == STANDARD && t != W.CIE) || (f == CIE && t == W.CIE)
  {
    var ts := Types(f);
    if f == ALL {
      assert ts[0] == W.STANDARD && ts[1] == W.REVERSE && ts[2] == W.CIE;
    } else if f == STANDARD {
      assert ts[0] == W.STANDARD && ts[1] == W.REVERSE;
    } else {
      assert ts[0] == W.CIE;
    }
  }

  /** Whether the filter also admits a mandate stored without a workflow
    * type. */
  function IncludesNull(f: TypeSegregatorFilter): bool
  {
    f != CIE
  }

  /** The first filter of `fs` whose types contain `t`. */
  function FirstContaining(fs: seq<TypeSegregatorFilter>, t: W.WorkFlowType): (r: Option<TypeSegregatorFilter>)
    ensures r.Some? ==> r.value in fs && t in Types(r.value)
    ensures r.None? ==> forall i :: 0 <= i < |fs| ==> t !in Types(fs[i])
  {
    if fs == [] then None
    else if t in Types(fs[0]) then Some(fs[0])
    else FirstContaining(fs[1..], t)
  }

  /** `fromWorkflowType`: STANDARD for a missing type, otherwise the first
    * filter in declaration order that selects it; no filter is
    * `IllegalArgumentException`. */
  function FromWorkflowType(t: Option<W.WorkFlowType>): (r: Result<TypeSegregatorFilter, string>)
  {
    if t.None? then Ok(STANDARD)
    else
      match FirstContaining(Filters, t.value)
      case Some(f) => Ok(f)
      case None => Err("Unknown WorkFlowType: " + W.Name(t.value))
  }

  /** `isIncluded`: a missing type is admitted when the filter includes
    * null, any other when it is one of the filter's types. */
  function IsIncluded(f: TypeSegregatorFilter, t: Option<W.WorkFlowType>): (b: bool)
  {
    if t.None? then IncludesNull(f) else t.value in Types(f)
  }

  /** Standard and reverse mandates (and untyped ones) are served by the
    * STANDARD filter and CIE mandates by the CIE filter; no type is
    * unknown, and ALL is never chosen because STANDARD and CIE come
    * first. */
  lemma FromWorkflowTypeChoice(t: Option<W.WorkFlowType>)
    ensures FromWorkflowType(t).Ok?
    ensures FromWorkflowType(t).value == CIE <==> t == Some(W.CIE)
    ensures FromWorkflowType(t).value != ALL
  {
    if t.Some? {
      InTypes(STANDARD, t.value);
      InTypes(CIE, t.value);
      assert Filters[0] == STANDARD && Filters[1..] == [CIE, ALL];
      assert [CIE, ALL][0] == CIE;
    }
  }

  /** The filter chosen for a workflow type admits that type. */
  lemma FromWorkflowTypeIncludes(t: Option<W.WorkFlowType>)
    ensures FromWorkflowType(t).Ok? && IsIncluded(FromWorkflowType(t).value, t)
  {
    FromWorkflowTypeChoice(t);
  }

  /** Which types each filter admits: STANDARD the untyped, standard and
    * reverse mandates, CIE only CIE ones, ALL every mandate. */
  lemma IsIncludedTable(f: TypeSegregatorFilter, t: Option<W.WorkFlowType>)
    ensures f == ALL ==> IsIncluded(f, t)
    ensures f == STANDARD ==> (IsIncluded(f, t) <==> t != Some(W.CIE))
    ensures f == CIE ==> (IsIncluded(f, t) <==> t == Some(W.CIE))
  {
    if t.Some? {
      InTypes(f, t.value);
    }
  }

  /** The column holding the workflow type. */
  const WorkflowTypeColumn: string := "s_workflowtype"

  /** The prefix of the placeholders bound to the type names. */
  const TypePrefix: string := ":type"

  /** The comparison of the workflow column with placeholder `i`. */
  function TypeClause(i: nat): (c: string)
    ensures c == WorkflowTypeColumn + " = " + Placeholder(TypePrefix, i)
  {
    WorkflowTypeColumn + " = " + Placeholder(TypePrefix, i)
  }

  /** The names of a filter's types, in order. */
  function TypeNames(f: TypeSegregatorFilter): (names: seq<string>)
    ensures |names| == |Types(f)|
    ensures forall i :: 0 <= i < |names| ==> names[i] == W.Name(Types(f)[i])
  {
    seq(|Types(f)|, i requires 0 <= i < |Types(f)| => W.Name(Types(f)[i]))
  }

  /** The comparisons with placeholders `0..n-1`. */
  function TypeClauses(n: nat): (cs: seq<string>)
    ensures |cs| == n
    ensures forall i :: 0 <= i < n ==> cs[i] == TypeClause(i)
  {
    if n == 0 then [] else TypeClauses(n - 1) + [TypeClause(n - 1)]
  }

  /** The disjunction of the comparisons, one per type. */
  function TypesExpression(f: TypeSegregatorFilter): (e: string)
  {
    MandateUtils.Join(" OR ", TypeClauses(|Types(f)|))
  }

  /** The prefix by which a filter also admits a missing workflow type. */
  const MissingTypePrefix: string := "(attribute_not_exists(" + WorkflowTypeColumn + ") OR "

  /** The expression `buildExpression` returns: the disjunction itself for
    * CIE, wrapped in a test for a missing attribute for STANDARD and ALL. */
  function Expression(f: TypeSegregatorFilter): (e: string)
  {
    if f == CIE then TypesExpression(f)
    else MissingTypePrefix + TypesExpression(f) + ")"
  }

  /** `buildExpression`: binds `:type<i>` to the name of the filter's `i`th
    * type in the caller's map and returns the filter expression. */
  method BuildExpression(f: TypeSegregatorFilter, expressionValues: AttributeMap) returns (expr: string)
    modifies expressionValues
    ensures expressionValues.values == old(expressionValues.values) + Bindings(TypePrefix, TypeNames(f))
    ensures expr == Expression(f)
  {
    var types := Types(f);
    ghost var names := TypeNames(f);
    ghost var start := expressionValues.values;
    var clauses: seq<string> := [];
    var i := 0;
    while i < |types|
      invariant 0 <= i <= |types|
      invariant clauses == TypeClauses(i)
      invariant expressionValues.values == start + Bindings(TypePrefix, names[..i])
    {
      var paramName := Placeholder(TypePrefix, i);
      expressionValues.Put(paramName, S(W.Name(types[i])));
      BindingsStep(TypePrefix, names, i, start);
      clauses := clauses + [WorkflowTypeColumn + " = " + paramName];
      i := i + 1;
    }
    assert names[..i] == names;
    expr := MandateUtils.Join(" OR ", clauses);
    if f != CIE {
      expr := MissingTypePrefix + expr + ")";
    }
  }

  /** The expression admits a missing workflow attribute exactly for the
    * filters that include null. */
  lemma ExpressionAdmitsMissingType(f: TypeSegregatorFilter)
    ensures IncludesNull(f) <==> |Expression(f)| >= |MissingTypePrefix| && Expression(f)[..|MissingTypePrefix|] == MissingTypePrefix
  {
    if f == CIE {
      assert TypeClauses(1) == [TypeClause(0)];
      assert Expression(f)[0] == 's';
    } else {
      assert (MissingTypePrefix + TypesExpression(f) + ")")[..|MissingTypePrefix|] == MissingTypePrefix;
    }
  }

  /** `buildExpression` binds one placeholder per type of the filter. */
  lemma BindingsPerType(f: TypeSegregatorFilter)
    ensures |Bindings(TypePrefix, TypeNames(f)).Keys| == |Types(f)|
    ensures forall k :: 0 <= k < |Types(f)| ==>
      Placeholder(TypePrefix, k) in Bindings(TypePrefix, TypeNames(f)) &&
      Bindings(TypePrefix, TypeNames(f))[Placeholder(TypePrefix, k)] == S(W.Name(Types(f)[k]))
  {
    BindingsShape(TypePrefix, TypeNames(f));
    BindingsCount(TypePrefix, TypeNames(f));
  }

  /** Every value `buildExpression` binds names a workflow type the filter
    * admits. */
  lemma BoundValuesAreIncluded(f: TypeSegregatorFilter, key: string)
    requires key in Bindings(TypePrefix, TypeNames(f))
    ensures Bindings(TypePrefix, TypeNames(f))[key].S?
    ensures W.FromName(Bindings(TypePrefix, TypeNames(f))[key].s).Some?
    ensures IsIncluded(f, W.FromName(Bindings(TypePrefix, TypeNames(f))[key].s))
  {
    var names := TypeNames(f);
    BindingsShape(TypePrefix, names);
    var k :| 0 <= k < |names| && key == Placeholder(TypePrefix, k);
    W.FromNameOfName(Types(f)[k]);
  }

  /** Every type the filter admits is bound to some placeholder. */
  lemma IncludedTypesAreBound(f: TypeSegregatorFilter, t: W.WorkFlowType)
    requires IsIncluded(f, Some(t))
    ensures S(W.Name(t)) in Bindings(TypePrefix, TypeNames(f)).Values
  {
    BindingsShape(TypePrefix, TypeNames(f));
    var k :| 0 <= k < |Types(f)| && Types(f)[k] == t;
    assert Bindings(TypePrefix, TypeNames(f))[Placeholder(TypePrefix, k)] == S(W.Name(t));
  }

  /** The first two placeholders and their comparisons. */
  lemma FirstTypeClauses()
    ensures Placeholder(TypePrefix, 0) == ":type0" && Placeholder(TypePrefix, 1) == ":type1"
    ensures TypeClause(0) == "s_workflowtype = :type0"
    ensures TypeClause(1) == "s_workflowtype = :type1"
  {
    assert NatToString(0) == "0" && NatToString(1) == "1";
  }

  /** The STANDARD expression tests for a missing attribute or either of two
    * placeholders. */
  lemma StandardExpressionExample()
    ensures Expression(STANDARD) ==
      "(attribute_not_exists(s_workflowtype) OR " + "s_workflowtype = :type0" + " OR " + "s_workflowtype = :type1" + ")"
  {
    FirstTypeClauses();
    var cs := TypeClauses(2);
    assert cs == [TypeClause(0), TypeClause(1)];
    assert cs[1..] == [TypeClause(1)];
    assert TypesExpression(STANDARD) == "s_workflowtype = :type0" + " OR " + "s_workflowtype = :type1";
    assert MissingTypePrefix == "(attribute_not_exists(s_workflowtype) OR ";
  }

  /** The STANDARD filter binds STANDARD and REVERSE to its two
    * placeholders. */
  lemma StandardBindingsExample()
    ensures Bindings(TypePrefix, TypeNames(STANDARD)) == map[":type0" := S("STANDARD"), ":type1" := S("REVERSE")]
  {
    FirstTypeClauses();
    var names := TypeNames(STANDARD);
    assert names == ["STANDARD", "REVERSE"];
    assert names[..1] == ["STANDARD"] && names[..1][..0] == [];
  }
}
