/** The mandate record of the main table. Its sort key is the mandate id
  * behind the "MANDATE#" prefix; instants are whole numbers on one time
  * scale, and a missing attribute is `None`. */
module MandateEntities {
  import opened Wrappers
  import W = WorkFlowTypes

  /** `MANDATE_PREFIX`. */
  const MandatePrefix: string := "MANDATE#"

  /** Whether `pat` occurs in `s` at position `i`. */
  predicate OccursAt(s: string, pat: string, i: int)
  {
    0 <= i && i + |pat| <= |s| && s[i..i + |pat|] == pat
  }

  /** Whether `pat` occurs in `s`. */
  predicate Contains(s: string, pat: string)
  {
    exists i :: 0 <= i <= |s| && OccursAt(s, pat, i)
  }

  /** `s.replace(pat, "")`: every occurrence of `pat` removed, scanning left
    * to right. */
  function RemoveAll(s: string, pat: string): (r: string)
    requires pat != []
    ensures |r| <= |s|
    decreases |s|
  {
    if |s| < |pat| then s
    else if s[..|pat|] == pat then RemoveAll(s[|pat|..], pat)
    else [s[0]] + RemoveAll(s[1..], pat)
  }

  /** A string without an occurrence of `pat` is left as it is. */
  lemma {:induction false} RemoveAllAbsent(s: string, pat: string)
    requires pat != [] && !Contains(s, pat)
    ensures RemoveAll(s, pat) == s
    decreases |s|
  {
    if |s| >= |pat| {
      assert !OccursAt(s, pat, 0);
      assert s[0..|pat|] == s[..|pat|];
      if Contains(s[1..], pat) {
        var i :| 0 <= i <= |s[1..]| && OccursAt(s[1..], pat, i);
        assert i + |pat| <= |s[1..]| && s[1..][i..i + |pat|] == pat;
        assert s[i + 1..i + 1 + |pat|] == s[1..][i..i + |pat|];
        assert OccursAt(s, pat, i + 1);
        assert false;
      }
      RemoveAllAbsent(s[1..], pat);
      assert RemoveAll(s, pat) == [s[0]] + s[1..];
    }
  }

  /** A string holding `pat` gets shorter. */
  lemma {:induction false} RemoveAllPresent(s: string, pat: string)
    requires pat != [] && Contains(s, pat)
    ensures |RemoveAll(s, pat)| < |s|
    decreases |s|
  {
    var i :| 0 <= i <= |s| && OccursAt(s, pat, i);
    assert i + |pat| <= |s| && s[i..i + |pat|] == pat;
    if s[..|pat|] != pat {
      assert s[0..|pat|] == s[..|pat|];
      assert i > 0;
      assert s[1..][i - 1..i - 1 + |pat|] == s[i..i + |pat|];
      assert OccursAt(s[1..], pat, i - 1);
      RemoveAllPresent(s[1..], pat);
    }
  }

  /** `getMandateId` on a sort key. */
  function MandateIdOf(sk: string): (id: string)
  {
    RemoveAll(sk, MandatePrefix)
  }

  /** The id written by `setMandateId` is read back exactly when it does not
    * itself contain the prefix. */
  lemma MandateIdRoundTrip(id: string)
    ensures MandateIdOf(MandatePrefix + id) == id <==> !Contains(id, MandatePrefix)
  {
    var sk := MandatePrefix + id;
    assert sk[..|MandatePrefix|] == MandatePrefix;
    assert sk[|MandatePrefix|..] == id;
    if Contains(id, MandatePrefix) {
      RemoveAllPresent(id, MandatePrefix);
    } else {
      RemoveAllAbsent(id, MandatePrefix);
    }
  }

  class MandateEntity {
    var delegator: string
    var sk: string
    var delegate: Option<string>
    var state: int
    var delegatorisperson: Option<bool>
    var delegateisperson: Option<bool>
    var validfrom: Option<int>
    var validto: Option<int>
    var created: Option<int>
    var accepted: Option<int>
    var rejected: Option<int>
    var revoked: Option<int>
    var validationcode: Option<string>
    var visibilityIds: Option<set<string>>
    var delegatorUid: Option<string>
    var groups: Option<set<string>>
    var ttl: Option<int>
    var workflowType: Option<W.WorkFlowType>
    var iuns: Option<set<string>>

    /** The record of one mandate of one delegator: the key and nothing
      * else. */
    constructor (delegator: string, mandateId: string)
      ensures this.delegator == delegator && sk == MandatePrefix + mandateId
      ensures delegate.None? && state == 0 && delegatorisperson.None? && delegateisperson.None?
      ensures validfrom.None? && validto.None? && created.None? && accepted.None? && rejected.None? && revoked.None?
      ensures validationcode.None? && visibilityIds.None? && delegatorUid.None? && groups.None? && ttl.None?
      ensures workflowType.None? && iuns.None?
    {
      this.delegator := delegator;
      sk := MandatePrefix + mandateId;
      delegate, state, delegatorisperson, delegateisperson := None, 0, None, None;
      validfrom, validto, created, accepted, rejected, revoked := None, None, None, None, None, None;
      validationcode, visibilityIds, delegatorUid, groups, ttl := None, None, None, None, None;
      workflowType, iuns := None, None;
    }

    /** The copy constructor: every bean attribute of `m`, the mandate id
      * passed through `getMandateId`/`setMandateId`, and the two sets copied
      * (sets are values here, so the copy never shares them). The workflow
      * type and the IUNs are not copied. */
    constructor Copy(m: MandateEntity)
      ensures delegator == m.delegator && sk == MandatePrefix + m.MandateId()
      ensures delegate == m.delegate && state == m.state
      ensures delegatorisperson == m.delegatorisperson && delegateisperson == m.delegateisperson
      ensures validfrom == m.validfrom && validto == m.validto && created == m.created
      ensures accepted == m.accepted && rejected == m.rejected && revoked == m.revoked
      ensures validationcode == m.validationcode && visibilityIds == m.visibilityIds
      ensures delegatorUid == m.delegatorUid && groups == m.groups && ttl == m.ttl
      ensures workflowType.None? && iuns.None?
    {
      delegator := m.delegator;
      sk := MandatePrefix + m.MandateId();
      delegate, state := m.delegate, m.state;
      delegatorisperson, delegateisperson := m.delegatorisperson, m.delegateisperson;
      validfrom, validto, created := m.validfrom, m.validto, m.created;
      accepted, rejected, revoked := m.accepted, m.rejected, m.revoked;
      validationcode, visibilityIds := m.validationcode, m.visibilityIds;
      delegatorUid, groups, ttl := m.delegatorUid, m.groups, m.ttl;
      workflowType, iuns := None, None;
    }

    /** `getMandateId`: the sort key with the prefix removed. */
    function MandateId(): (id: string)
      reads this
    {
      MandateIdOf(sk)
    }

    /** `setMandateId`: the sort key is the prefix followed by the id. */
    method SetMandateId(id: string)
      modifies this
      ensures sk == MandatePrefix + id
      ensures delegator == old(delegator) && state == old(state) && groups == old(groups)
      ensures unchanged(this`delegate, this`delegatorisperson, this`delegateisperson, this`validfrom, this`validto)
      ensures unchanged(this`created, this`accepted, this`rejected, this`revoked, this`validationcode)
      ensures unchanged(this`visibilityIds, this`delegatorUid, this`ttl, this`workflowType, this`iuns)
    {
      sk := MandatePrefix + id;
    }
  }

  /** A copy of a record whose id is free of the prefix keeps its sort key. */
  lemma CopyKeepsSortKey(id: string)
    requires !Contains(id, MandatePrefix)
    ensures MandatePrefix + MandateIdOf(MandatePrefix + id) == MandatePrefix + id
  {
    MandateIdRoundTrip(id);
  }
}
