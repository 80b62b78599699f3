/** The mandate status as the API names it and the integer code stored in
  * the table. The codes grow along the lifecycle, and ACTIVE (20) is the
  * boundary between live mandates and historicised ones. */
module ReverseMandateStatusEnumMapper {
  import opened Wrappers

  /** The API's status enumeration. */
  datatype StatusEnum = PENDING | ACTIVE | REJECTED | REVOKED | EXPIRED

  /** Why a conversion fails: `NoSuchElementException` for an unknown code
    * or a null name, `IllegalArgumentException` for an unknown name. */
  datatype MapperError = NoSuchElement | IllegalArgument(value: string)

  const PendingCode: int := 10
  const ActiveCode: int := 20
  const RejectedCode: int := 30
  const RevokedCode: int := 40
  const ExpiredCode: int := 50

  /** `intValfromStatus`: the stored code of a status. */
  function IntValFromStatus(s: StatusEnum): (v: int)
    ensures v in {PendingCode, ActiveCode, RejectedCode, RevokedCode, ExpiredCode}
  {
    match s
    case PENDING => PendingCode
    case ACTIVE => ActiveCode
    case REJECTED => RejectedCode
    case REVOKED => RevokedCode
    case EXPIRED => ExpiredCode
  }

  /** `fromValue(int)`: the status of a stored code; any other number is
    * refused. */
  function FromValue(val: int): (r: Result<StatusEnum, MapperError>)
    ensures r.Err? ==> r.error == NoSuchElement
  {
    if val == PendingCode then Ok(PENDING)
    else if val == ActiveCode then Ok(ACTIVE)
    else if val == RejectedCode then Ok(REJECTED)
    else if val == RevokedCode then Ok(REVOKED)
    else if val == ExpiredCode then Ok(EXPIRED)
    else Err(NoSuchElement)
  }

  /** `fromValue` inverts `intValfromStatus`, and accepts exactly the five
    * codes. */
  lemma FromValueInverse(s: StatusEnum, val: int)
    ensures FromValue(IntValFromStatus(s)) == Ok(s)
    ensures FromValue(val).Ok? ==> IntValFromStatus(FromValue(val).value) == val
    ensures FromValue(val).Ok? <==> val in {PendingCode, ActiveCode, RejectedCode, RevokedCode, ExpiredCode}
  {
  }

  /** The position of a status in the lifecycle order of the enumeration. */
  function Ordinal(s: StatusEnum): (n: nat)
    ensures n < 5
  {
    match s
    case PENDING => 0
    case ACTIVE => 1
    case REJECTED => 2
    case REVOKED => 3
    case EXPIRED => 4
  }

  /** The codes grow with the lifecycle order, and a mandate is live
    * (pending or active) exactly when its code is at most ACTIVE's. */
  lemma CodesAscending(a: StatusEnum, b: StatusEnum)
    ensures Ordinal(a) < Ordinal(b) <==> IntValFromStatus(a) < IntValFromStatus(b)
    ensures (a == PENDING || a == ACTIVE) <==> IntValFromStatus(a) <= ActiveCode
  {
  }

  /** The API value of a status (its constant name). */
  function StatusValue(s: StatusEnum): (v: string)
    ensures v != []
  {
    match s
    case PENDING => "PENDING"
    case ACTIVE => "ACTIVE"
    case REJECTED => "REJECTED"
    case REVOKED => "REVOKED"
    case EXPIRED => "EXPIRED"
  }

  /** The API enumeration's `fromValue(String)`: the status with that
    * value, or `IllegalArgumentException`. */
  function StatusFromValue(v: string): (r: Result<StatusEnum, MapperError>)
    ensures r.Ok? ==> StatusValue(r.value) == v
    ensures r.Err? ==> r.error == IllegalArgument(v)
  {
    if v == "PENDING" then Ok(PENDING)
    else if v == "ACTIVE" then Ok(ACTIVE)
    else if v == "REJECTED" then Ok(REJECTED)
    else if v == "REVOKED" then Ok(REVOKED)
    else if v == "EXPIRED" then Ok(EXPIRED)
    else Err(IllegalArgument(v))
  }

  /** `fromValueConst`: a null name is refused before the lookup. */
  function FromValueConst(val: Option<string>): (r: Result<StatusEnum, MapperError>)
    ensures val.None? ==> r == Err(NoSuchElement)
  {
    if val.None? then Err(NoSuchElement) else StatusFromValue(val.value)
  }

  /** `intValfromValueConst`: the code of the named status. */
  function IntValFromValueConst(val: Option<string>): (r: Result<int, MapperError>)
  {
    var s := FromValueConst(val);
    if s.Err? then Err(s.error) else Ok(IntValFromStatus(s.value))
  }

  /** A status's own value converts back to it and to its code; a null
    * value is `NoSuchElementException`. */
  lemma ValueConstRoundTrip(s: StatusEnum)
    ensures FromValueConst(Some(StatusValue(s))) == Ok(s)
    ensures IntValFromValueConst(Some(StatusValue(s))) == Ok(IntValFromStatus(s))
    ensures IntValFromValueConst(None) == Err(NoSuchElement)
  {
  }
}
