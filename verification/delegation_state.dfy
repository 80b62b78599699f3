/** The delegation states with their numeric and textual values, looked up
  * by a linear search over the constants in declaration order. Here
  * revoked is 30 and rejected 40, the other way round from the status
  * codes the mandate table stores. */
module DelegationState {
  import opened Wrappers
  import ReverseMandateStatusEnumMapper

  datatype DelegationState = pending | active | revoked | rejected | expired

  /** The constants in declaration order (`getEnumConstants`). */
  const Constants: seq<DelegationState> := [pending, active, revoked, rejected, expired]

  function Value(s: DelegationState): (v: int)
  {
    match s
    case pending => 10
    case active => 20
    case revoked => 30
    case rejected => 40
    case expired => 50
  }

  function ValueConst(s: DelegationState): (v: string)
  {
    match s
    case pending => "pending"
    case active => "active"
    case revoked => "revoked"
    case rejected => "rejected"
    case expired => "expired"
  }

  /** The first of `cs` whose value is `val`. */
  function FindByValue(cs: seq<DelegationState>, val: int): (r: Option<DelegationState>)
    ensures r.Some? ==> r.value in cs && Value(r.value) == val
    ensures r.None? ==> forall i :: 0 <= i < |cs| ==> Value(cs[i]) != val
  {
    if cs == [] then None
    else if Value(cs[0]) == val then Some(cs[0])
    else FindByValue(cs[1..], val)
  }

  /** The first of `cs` whose textual value equals `val` (never a null
    * one). */
  function FindByValueConst(cs: seq<DelegationState>, val: Option<string>): (r: Option<DelegationState>)
    ensures r.Some? ==> r.value in cs && val == Some(ValueConst(r.value))
    ensures r.None? ==> forall i :: 0 <= i < |cs| ==> val != Some(ValueConst(cs[i]))
  {
    if cs == [] then None
    else if val == Some(ValueConst(cs[0])) then Some(cs[0])
    else FindByValueConst(cs[1..], val)
  }

  /** `fromValue`: `None` is `NoSuchElementException`. */
  function FromValue(val: int): (r: Option<DelegationState>)
  {
    FindByValue(Constants, val)
  }

  /** `fromValueConst`: `None` is `NoSuchElementException`. */
  function FromValueConst(val: Option<string>): (r: Option<DelegationState>)
  {
    FindByValueConst(Constants, val)
  }

  lemma AllConstants(s: DelegationState)
    ensures s in Constants
  {
    assert Constants[0] == pending && Constants[1] == active && Constants[2] == revoked;
    assert Constants[3] == rejected && Constants[4] == expired;
  }

  /** Each state is found again from its number; an unknown number finds
    * nothing. */
  lemma FromValueInverse(s: DelegationState, val: int)
    ensures FromValue(Value(s)) == Some(s)
    ensures FromValue(val).None? <==> val !in {10, 20, 30, 40, 50}
  {
    AllConstants(s);
    assert FromValue(Value(s)).Some?;
    if FromValue(val).None? {
      forall t: DelegationState ensures Value(t) != val {
        AllConstants(t);
      }
      assert Value(pending) != val && Value(active) != val && Value(revoked) != val;
      assert Value(rejected) != val && Value(expired) != val;
    }
  }

  /** Each state is found again from its name; an unknown or null name
    * finds nothing. */
  lemma FromValueConstInverse(s: DelegationState, name: Option<string>)
    ensures FromValueConst(Some(ValueConst(s))) == Some(s)
    ensures FromValueConst(name).None? <==> name !in {Some("pending"), Some("active"), Some("revoked"), Some("rejected"), Some("expired")}
  {
    AllConstants(s);
    assert FromValueConst(Some(ValueConst(s))).Some?;
    if FromValueConst(name).None? {
      forall t: DelegationState ensures name != Some(ValueConst(t)) {
        AllConstants(t);
      }
      assert name != Some(ValueConst(pending)) && name != Some(ValueConst(active));
      assert name != Some(ValueConst(revoked)) && name != Some(ValueConst(rejected)) && name != Some(ValueConst(expired));
    }
  }

  /** Revoked and rejected carry each other's status codes. */
  lemma RevokedRejectedSwapped()
    ensures Value(revoked) == ReverseMandateStatusEnumMapper.IntValFromStatus(ReverseMandateStatusEnumMapper.REJECTED)
    ensures Value(rejected) == ReverseMandateStatusEnumMapper.IntValFromStatus(ReverseMandateStatusEnumMapper.REVOKED)
  {
  }
}
