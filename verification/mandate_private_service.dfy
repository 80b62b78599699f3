/** The listing of mandates that other services ask for by delegator: only
  * active mandates, and for a company delegate asking on behalf of some of
  * its groups, only the mandates shared with one of those groups. */
module MandatePrivateService {
  import opened Wrappers
  import R = ReverseMandateStatusEnumMapper
  import PgUtils

  /** Whether the delegate is a person or a company. */
  datatype DelegateType = PF | PG

  /** The attributes of a stored mandate that the filter reads; `groups` is
    * absent for a mandate given to the whole company. */
  datatype Mandate = Mandate(mandateId: string, state: int, groups: Option<set<string>>)

  /** The group filter: the caller's groups as a set, empty when there are
    * none. */
  function FilterGroups(delegateGroups: Option<seq<string>>): (s: set<string>)
    ensures PgUtils.IsEmpty(delegateGroups) <==> s == {}
    ensures !PgUtils.IsEmpty(delegateGroups) ==> forall g :: g in s <==> g in delegateGroups.value
  {
    if PgUtils.IsEmpty(delegateGroups) then {}
    else
      var groups := set g | g in delegateGroups.value;
      assert delegateGroups.value[0] in groups;
      groups
  }

  /** The filter as written: `Collections.disjoint(filterGroups,
    * mandate.getGroups())` iterates the mandate's groups, so a mandate
    * without groups makes it throw a `NullPointerException` once the state
    * and delegate type checks let it through. */
  function KeepAsWritten(m: Mandate, delegateType: DelegateType, filterGroups: set<string>): (r: Result<bool, string>)
    ensures r.Err? <==> m.state == R.ActiveCode && delegateType == PG && filterGroups != {} && m.groups.None?
  {
    if m.state != R.ActiveCode then Ok(false)
    else if delegateType != PG || filterGroups == {} then Ok(true)
    else if m.groups.None? then Err("NullPointerException")
    else Ok(m.groups.value * filterGroups != {})
  }

  /** A mandate without groups, listed for a company asking on behalf of a
    * group, stops the whole listing. */
  lemma AsWrittenFailsWithoutGroups()
    ensures KeepAsWritten(Mandate("m", R.ActiveCode, None), PG, {"RECLAMI"}).Err?
  {
  }

  /** The filter: active mandates only and, for a company asking on behalf
    * of some groups, only mandates sharing one of them; a mandate without
    * groups shares none. */
  predicate Keep(m: Mandate, delegateType: DelegateType, filterGroups: set<string>)
  {
    && m.state == R.IntValFromStatus(R.ACTIVE)
    && (delegateType != PG || filterGroups == {} || (m.groups.Some? && m.groups.value * filterGroups != {}))
  }

  /** Wherever the filter as written answers, the corrected one agrees. */
  lemma KeepAgreesWithAsWritten(m: Mandate, delegateType: DelegateType, filterGroups: set<string>)
    ensures KeepAsWritten(m, delegateType, filterGroups).Ok? ==>
      KeepAsWritten(m, delegateType, filterGroups).value == Keep(m, delegateType, filterGroups)
  {
  }

  /** The rule of the filter, case by case. */
  lemma KeepRule(m: Mandate, delegateType: DelegateType, filterGroups: set<string>)
    ensures m.state != R.ActiveCode ==> !Keep(m, delegateType, filterGroups)
    ensures m.state == R.ActiveCode && (delegateType == PF || filterGroups == {}) ==> Keep(m, delegateType, filterGroups)
    ensures m.state == R.ActiveCode && delegateType == PG && filterGroups != {} ==>
      (Keep(m, delegateType, filterGroups) <==> exists g :: g in filterGroups && m.groups.Some? && g in m.groups.value)
  {
    if m.state == R.ActiveCode && delegateType == PG && filterGroups != {} && m.groups.Some? {
      if m.groups.value * filterGroups != {} {
        var g :| g in m.groups.value * filterGroups;
      }
      if exists g :: g in filterGroups && g in m.groups.value {
        var g :| g in filterGroups && g in m.groups.value;
        assert g in m.groups.value * filterGroups;
      }
    }
  }

  /** `listMandatesByDelegators`: the mandates found for the requested
    * delegators that pass the filter, in the order they were found. */
  function ListMandatesByDelegators(delegateType: DelegateType, delegateGroups: Option<seq<string>>,
                                    found: seq<Mandate>): (listed: seq<Mandate>)
    ensures |listed| <= |found|
    ensures forall i :: 0 <= i < |listed| ==> listed[i] in found && Keep(listed[i], delegateType, FilterGroups(delegateGroups))
    ensures forall i :: 0 <= i < |found| && Keep(found[i], delegateType, FilterGroups(delegateGroups)) ==> found[i] in listed
  {
    if found == [] then []
    else
      var prior := ListMandatesByDelegators(delegateType, delegateGroups, found[..|found| - 1]);
      var m := found[|found| - 1];
      assert forall i :: 0 <= i < |found| - 1 ==> found[..|found| - 1][i] == found[i];
      if Keep(m, delegateType, FilterGroups(delegateGroups)) then prior + [m] else prior
  }

  /** The listing keeps the order of the rows found: listing two batches in
    * a row is listing each batch. */
  lemma {:induction false} ListDistributes(delegateType: DelegateType, delegateGroups: Option<seq<string>>,
                                           a: seq<Mandate>, b: seq<Mandate>)
    ensures ListMandatesByDelegators(delegateType, delegateGroups, a + b) ==
      ListMandatesByDelegators(delegateType, delegateGroups, a) + ListMandatesByDelegators(delegateType, delegateGroups, b)
  {
    if b != [] {
      assert (a + b)[..|a + b| - 1] == a + b[..|b| - 1];
      ListDistributes(delegateType, delegateGroups, a, b[..|b| - 1]);
    } else {
      assert a + b == a;
    }
  }

  /** The listing as written: the first mandate that makes the filter throw
    * fails the whole listing. */
  function ListAsWritten(delegateType: DelegateType, delegateGroups: Option<seq<string>>,
                         found: seq<Mandate>): (r: Result<seq<Mandate>, string>)
    ensures r.Err? <==> exists i :: 0 <= i < |found| && KeepAsWritten(found[i], delegateType, FilterGroups(delegateGroups)).Err?
  {
    if found == [] then Ok([])
    else
      var prior := ListAsWritten(delegateType, delegateGroups, found[..|found| - 1]);
      var m := found[|found| - 1];
      var keep := KeepAsWritten(m, delegateType, FilterGroups(delegateGroups));
      assert forall i :: 0 <= i < |found| - 1 ==> found[..|found| - 1][i] == found[i];
      if prior.Err? then prior
      else if keep.Err? then Err(keep.error)
      else if keep.value then Ok(prior.value + [m]) else prior
  }

  /** Where the listing as written succeeds, the corrected listing gives the
    * same mandates. */
  lemma {:induction false} ListAgreesWithAsWritten(delegateType: DelegateType, delegateGroups: Option<seq<string>>,
                                                   found: seq<Mandate>)
    ensures ListAsWritten(delegateType, delegateGroups, found).Ok? ==>
      ListAsWritten(delegateType, delegateGroups, found).value == ListMandatesByDelegators(delegateType, delegateGroups, found)
  {
    if found != [] {
      ListAgreesWithAsWritten(delegateType, delegateGroups, found[..|found| - 1]);
      KeepAgreesWithAsWritten(found[|found| - 1], delegateType, FilterGroups(delegateGroups));
    }
  }

  /** Three mandates, filtered for a company on behalf of group RECLAMI: an
    * active one in RECLAMI, a pending one in RECLAMI and an active one in
    * PIPPO; only the first is listed. */
  lemma ListExample()
    ensures var m1 := Mandate("1", R.ActiveCode, Some({"RECLAMI"}));
      var m2 := Mandate("2", R.PendingCode, Some({"RECLAMI"}));
      var m3 := Mandate("3", R.ActiveCode, Some({"PIPPO"}));
      ListMandatesByDelegators(PG, Some(["RECLAMI"]), [m1, m2, m3]) == [m1]
  {
    var m1 := Mandate("1", R.ActiveCode, Some({"RECLAMI"}));
    var m2 := Mandate("2", R.PendingCode, Some({"RECLAMI"}));
    var m3 := Mandate("3", R.ActiveCode, Some({"PIPPO"}));
    var request := Some(["RECLAMI"]);
    var groups := FilterGroups(request);
    assert groups == {"RECLAMI"};
    assert "RECLAMI" in m1.groups.value * groups;
    assert "PIPPO" !in groups;
    assert m3.groups.value * groups == {};
    assert [m1][..0] == [];
    assert ListMandatesByDelegators(PG, request, [m1]) == [m1];
    assert [m1, m2][..1] == [m1];
    assert ListMandatesByDelegators(PG, request, [m1, m2]) == [m1];
    assert [m1, m2, m3][..2] == [m1, m2];
  }
}
