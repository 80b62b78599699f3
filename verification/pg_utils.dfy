/** Access checks for legal persons (PG) and the group filters they get:
  * only an administrator without groups reaches admin-only resources, and a
  * PG user restricted to some groups only ever filters inside them. */
module PgUtils {
  import opened Wrappers
  import opened ExpressionValues
  import MandateUtils

  /** The caller's type: natural person, legal person or public
    * administration. */
  datatype CxTypeAuthFleet = PF | PG | PA

  /** The role that grants administrator access (`ALLOWED_ROLES`). */
  const AdminRole: string := "ADMIN"

  /** `toUpperCase`, on ASCII letters. */
  function AsciiUpper(s: string): (u: string)
    ensures |u| == |s|
    ensures forall i :: 0 <= i < |s| ==> u[i] == (if 'a' <= s[i] <= 'z' then (s[i] as int - 32) as char else s[i])
  {
    if s == [] then []
    else [if 'a' <= s[0] <= 'z' then (s[0] as int - 32) as char else s[0]] + AsciiUpper(s[1..])
  }

  /** `CollectionUtils.isEmpty`: null or without elements. */
  predicate IsEmpty<T>(xs: Option<seq<T>>)
  {
    xs.None? || xs.value == []
  }

  /** Whether the role, upper-cased, is one of the allowed roles (a null
    * role never is). */
  predicate IsAdmin(role: Option<string>)
  {
    role.Some? && AsciiUpper(role.value) == AdminRole
  }

  /** `validaAccessoOnlyAdmin`: whether access is granted (otherwise
    * `PnForbiddenException`). A PG caller must be an administrator with no
    * groups; every other caller passes. */
  function OnlyAdmin(cxType: Option<CxTypeAuthFleet>, role: Option<string>, groups: Option<seq<string>>): (granted: bool)
  {
    !(cxType == Some(PG) && (role.None? || AsciiUpper(role.value) != AdminRole || !IsEmpty(groups)))
  }

  /** `validaAccessoOnlyGroupAdmin`: like `OnlyAdmin`, but groups do not
    * matter. */
  function OnlyGroupAdmin(cxType: Option<CxTypeAuthFleet>, role: Option<string>, groups: Option<seq<string>>): (granted: bool)
  {
    !(cxType == Some(PG) && (role.None? || AsciiUpper(role.value) != AdminRole))
  }

  /** Who passes each check: every non-PG caller; a PG caller for the
    * admin-only check exactly when it is an administrator without groups,
    * for the group-admin check exactly when it is an administrator. */
  lemma AccessRules(cxType: Option<CxTypeAuthFleet>, role: Option<string>, groups: Option<seq<string>>)
    ensures cxType != Some(PG) ==> OnlyAdmin(cxType, role, groups) && OnlyGroupAdmin(cxType, role, groups)
    ensures cxType == Some(PG) ==> (OnlyAdmin(cxType, role, groups) <==> IsAdmin(role) && IsEmpty(groups))
    ensures cxType == Some(PG) ==> (OnlyGroupAdmin(cxType, role, groups) <==> IsAdmin(role))
  {
  }

  /** The admin-only check is the stricter one: whoever passes it passes the
    * group-admin check, and the two agree for callers without groups. */
  lemma OnlyAdminIsStricter(cxType: Option<CxTypeAuthFleet>, role: Option<string>, groups: Option<seq<string>>)
    ensures OnlyAdmin(cxType, role, groups) ==> OnlyGroupAdmin(cxType, role, groups)
    ensures IsEmpty(groups) ==> OnlyAdmin(cxType, role, groups) == OnlyGroupAdmin(cxType, role, groups)
  {
  }

  /** The role is compared without regard to case. */
  lemma AdminRoleAnyCase()
    ensures IsAdmin(Some("admin")) && IsAdmin(Some("Admin"))
  {
    assert AsciiUpper("admin") == "ADMIN";
    assert AsciiUpper("Admin") == "ADMIN";
  }

  /** An operator or a missing role is refused, and an administrator with a
    * group passes only the group-admin check. */
  lemma RoleExamples()
    ensures !IsAdmin(Some("operator")) && !IsAdmin(None)
    ensures !OnlyAdmin(Some(PG), Some("admin"), Some([""]))
    ensures OnlyGroupAdmin(Some(PG), Some("admin"), Some([""]))
  {
    AdminRoleAnyCase();
    assert AsciiUpper("operator")[0] == 'O';
  }

  /** The column holding a mandate's groups. */
  const GroupsColumn: string := "a_groups"

  /** The prefix of the placeholders bound to the groups. */
  const GroupPrefix: string := ":group"

  /** The clause that tests for group `i`, with its surrounding spaces. */
  function GroupClause(i: nat): (c: string)
    ensures c == " contains(" + GroupsColumn + "," + Placeholder(GroupPrefix, i) + ") "
  {
    " contains(" + GroupsColumn + "," + Placeholder(GroupPrefix, i) + ") "
  }

  /** The clauses for groups `0..n-1`. */
  function GroupClauses(n: nat): (cs: seq<string>)
    ensures |cs| == n
    ensures forall i :: 0 <= i < n ==> cs[i] == GroupClause(i)
  {
    if n == 0 then [] else GroupClauses(n - 1) + [GroupClause(n - 1)]
  }

  /** The group filter for `n` groups: the clauses joined by OR, in
    * parentheses. */
  function GroupFilter(n: nat): (e: string)
  {
    "(" + MandateUtils.Join("OR", GroupClauses(n)) + ")"
  }

  /** One more group appends its clause and an "OR" to the builder. */
  lemma GroupFilterStep(i: nat)
    ensures "(" + MandateUtils.Join("OR", GroupClauses(i + 1)) + "OR" ==
      (if i == 0 then "(" else "(" + MandateUtils.Join("OR", GroupClauses(i)) + "OR") + GroupClause(i) + "OR"
  {
    MandateUtils.JoinSnoc("OR", GroupClauses(i), GroupClause(i));
    assert GroupClauses(i + 1) == GroupClauses(i) + [GroupClause(i)];
  }

  /** Replacing the final "OR" by ")" closes the filter. */
  lemma GroupFilterFinish(n: nat)
    requires n > 0
    ensures var built := "(" + MandateUtils.Join("OR", GroupClauses(n)) + "OR";
      |built| >= 2 && built[..|built| - 2] + ")" == GroupFilter(n)
  {
    var body := "(" + MandateUtils.Join("OR", GroupClauses(n));
    assert (body + "OR")[..|body|] == body;
  }

  /** `buildExpressionGroupFilter`: binds `:group<i>` to the `i`th group and
    * returns the OR of the clauses in parentheses. An empty list leaves the
    * builder holding only "(", so cutting the last "OR" off it raises
    * `StringIndexOutOfBoundsException` (`None`). */
  method BuildExpressionGroupFilter(groups: seq<string>, expressionValues: AttributeMap) returns (expr: Option<string>)
    modifies expressionValues
    ensures expressionValues.values == old(expressionValues.values) + Bindings(GroupPrefix, groups)
    ensures groups == [] ==> expr.None?
    ensures groups != [] ==> expr == Some(GroupFilter(|groups|))
  {
    ghost var start := expressionValues.values;
    var expressionGroup := "(";
    var i := 0;
    while i < |groups|
      invariant 0 <= i <= |groups|
      invariant expressionValues.values == start + Bindings(GroupPrefix, groups[..i])
      invariant i == 0 ==> expressionGroup == "("
      invariant i > 0 ==> expressionGroup == "(" + MandateUtils.Join("OR", GroupClauses(i)) + "OR"
    {
      expressionValues.Put(Placeholder(GroupPrefix, i), S(groups[i]));
      BindingsStep(GroupPrefix, groups, i, start);
      GroupFilterStep(i);
      expressionGroup := expressionGroup + GroupClause(i) + "OR";
      i := i + 1;
    }
    assert groups[..i] == groups;
    if |expressionGroup| < 2 {
      expr := None;
    } else {
      GroupFilterFinish(i);
      expr := Some(expressionGroup[..|expressionGroup| - 2] + ")");
    }
  }

  /** The group filter binds one placeholder per group, each to its group,
    * and its clauses are exactly the tests for those placeholders. */
  lemma GroupFilterBindings(groups: seq<string>)
    ensures |Bindings(GroupPrefix, groups).Keys| == |groups|
    ensures forall k :: 0 <= k < |groups| ==>
      Placeholder(GroupPrefix, k) in Bindings(GroupPrefix, groups) &&
      Bindings(GroupPrefix, groups)[Placeholder(GroupPrefix, k)] == S(groups[k])
  {
    BindingsShape(GroupPrefix, groups);
    BindingsCount(GroupPrefix, groups);
  }

  /** The filters for one and for two groups. */
  lemma GroupFilterExamples()
    ensures GroupFilter(1) == "(" + " contains(a_groups,:group0) " + ")"
    ensures GroupFilter(2) == "(" + " contains(a_groups,:group0) " + "OR" + " contains(a_groups,:group1) " + ")"
  {
    assert NatToString(0) == "0" && NatToString(1) == "1";
    assert GroupClause(0) == " contains(a_groups,:group0) ";
    assert GroupClause(1) == " contains(a_groups,:group1) ";
    assert GroupClauses(1) == [GroupClause(0)];
    var cs := GroupClauses(2);
    assert cs == [GroupClause(0), GroupClause(1)] && cs[1..] == [GroupClause(1)];
  }

  /** `getGroupsForSecureFilter`: the groups a PG user may filter on. With
    * no caller groups the requested groups are used, with no requested
    * groups the caller's; when both are given the requested ones must all be
    * caller groups, otherwise `PnForbiddenException`. The result is never
    * null. */
  function GetGroupsForSecureFilter(groups: Option<seq<string>>, cxGroups: Option<seq<string>>): (r: Result<seq<string>, string>)
  {
    if IsEmpty(cxGroups) then Ok(if groups.None? then [] else groups.value)
    else if IsEmpty(groups) then Ok(cxGroups.value)
    else if forall g :: g in groups.value ==> g in cxGroups.value then Ok(groups.value)
    else Err("PnForbiddenException")
  }

  /** A caller restricted to groups only ever filters inside them, and is
    * refused exactly when it asks for a group outside them; a request
    * within them is kept as it is. */
  lemma SecureFilterStaysWithinCallerGroups(groups: Option<seq<string>>, cxGroups: Option<seq<string>>)
    ensures !IsEmpty(cxGroups) ==>
      (GetGroupsForSecureFilter(groups, cxGroups).Err? <==>
        groups.Some? && exists g :: g in groups.value && g !in cxGroups.value)
    ensures !IsEmpty(cxGroups) && GetGroupsForSecureFilter(groups, cxGroups).Ok? ==>
      forall g :: g in GetGroupsForSecureFilter(groups, cxGroups).value ==> g in cxGroups.value
    ensures !IsEmpty(cxGroups) && !IsEmpty(groups) && GetGroupsForSecureFilter(groups, cxGroups).Ok? ==>
      GetGroupsForSecureFilter(groups, cxGroups).value == groups.value
  {
  }

  /** Without caller groups the request passes unchanged (a null one as the
    * empty list); an empty request gets every caller group. */
  lemma SecureFilterDefaults(groups: Option<seq<string>>, cxGroups: Option<seq<string>>)
    ensures IsEmpty(cxGroups) ==> GetGroupsForSecureFilter(groups, cxGroups) == Ok(if groups.None? then [] else groups.value)
    ensures !IsEmpty(cxGroups) && IsEmpty(groups) ==> GetGroupsForSecureFilter(groups, cxGroups) == Ok(cxGroups.value)
  {
  }
}
