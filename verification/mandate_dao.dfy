/** The lifecycle decisions of the mandate table: accepting, updating,
  * rejecting, revoking, expiring and creating a mandate. Each operation
  * receives the record its query found (`null` when there is none) and the
  * current instant, changes the record in place and reports what happens
  * next: saved, moved to the history table, left as it is, or an error. */
module MandateDao {
  import opened Wrappers
  import W = WorkFlowTypes
  import T = TypeSegregatorFilter
  import opened MandateEntities
  import R = ReverseMandateStatusEnumMapper
  import PgUtils

  /** The exceptions the lifecycle operations raise. */
  datatype DaoError =
    | MandateNotFound
    | MandateBadRequest
    | InvalidVerificationCode
    | MandatePendingExpired
    | InternalError(message: string, errorCode: string)
    | InvalidMandateStatus(message: string)
    | MandateAlreadyExists
    | NoSuchElement
    | NullPointer

  /** What a reject, revoke or expire does with the record when it does not
    * fail: moves it to the history table, or leaves it where it is. */
  datatype Outcome = Archived | Skipped

  /** The error raised when a mandate that is neither pending nor active is
    * accepted. */
  const NotAcceptable: DaoError :=
    InternalError("accept a expired mandate is not permitted", "PN_MANDATE_NOTACCEPTABLE")

  /** `isMandateStandardSegregation`: an untyped, standard or reverse
    * mandate. */
  predicate IsMandateStandardSegregation(t: Option<W.WorkFlowType>)
  {
    t.None? || t == Some(W.STANDARD) || t == Some(W.REVERSE)
  }

  /** The standard segregation is what the STANDARD filter admits. */
  lemma StandardSegregationIsStandardFilter(t: Option<W.WorkFlowType>)
    ensures IsMandateStandardSegregation(t) <==> T.IsIncluded(T.STANDARD, t)
    ensures IsMandateStandardSegregation(t) <==> t != Some(W.CIE)
  {
    T.IsIncludedTable(T.STANDARD, t);
  }

  /** `isSelfPgMandate`: a legal person delegating to itself. */
  predicate IsSelfPgMandate(delegatorisperson: Option<bool>, delegator: string, delegate: Option<string>)
  {
    delegatorisperson == Some(false) && delegate == Some(delegator)
  }

  /** Whether the stored verification code equals the given one (a
    * missing given code never does). */
  predicate CodeMatches(stored: Option<string>, given: Option<string>)
  {
    stored.Some? && stored == given
  }

  /** The earlier of a pending deadline and an optional end of validity. */
  function PendingSupportExpiry(pendingExpired: int, validto: Option<int>): (ttl: int)
    ensures ttl <= pendingExpired && (validto.Some? ==> ttl <= validto.value)
    ensures ttl == pendingExpired || (validto.Some? && ttl == validto.value)
  {
    if validto.Some? && pendingExpired < validto.value then pendingExpired
    else if validto.Some? then validto.value
    else pendingExpired
  }

  class MandateDao {
    /** How long a mandate may stay pending, and how long a CIE one may. */
    const pendingExpire: int
    const ciePendingExpire: int

    constructor (pendingExpire: int, ciePendingExpire: int)
      ensures this.pendingExpire == pendingExpire && this.ciePendingExpire == ciePendingExpire
    {
      this.pendingExpire := pendingExpire;
      this.ciePendingExpire := ciePendingExpire;
    }

    /** `chooseExpiredConfig`: the pending duration of a workflow; only CIE
      * mandates get their own. */
    function ChooseExpiredConfig(t: Option<W.WorkFlowType>): (d: int)
      ensures d == (if t == Some(W.CIE) then ciePendingExpire else pendingExpire)
    {
      if t.None? || t == Some(W.STANDARD) || t == Some(W.REVERSE) then pendingExpire
      else assert t.value.CIE?; ciePendingExpire
    }

    /** `editMandateState`: the verification code is checked first; a PG
      * delegate's non-empty groups are then stored; a pending mandate
      * becomes active (unless its pending period has passed), an active one
      * is accepted silently and any other is refused. On an error the state
      * and acceptance instant are left as they were. */
    method EditMandateState(mandate: MandateEntity, verificationCode: Option<string>,
                            cxType: Option<PgUtils.CxTypeAuthFleet>, groups: Option<seq<string>>, now: int)
        returns (error: Option<DaoError>)
      modifies mandate
      ensures mandate.validationcode.None? ==> error == Some(NullPointer) && unchanged(mandate)
      ensures mandate.validationcode.Some? && Some(mandate.validationcode.value) != verificationCode ==>
        error == Some(InvalidVerificationCode) && unchanged(mandate)
      ensures CodeMatches(old(mandate.validationcode), verificationCode) ==>
        mandate.groups == (if cxType == Some(PgUtils.PG) && !PgUtils.IsEmpty(groups)
                           then Some(set g | g in groups.value) else old(mandate.groups))
      ensures CodeMatches(old(mandate.validationcode), verificationCode) && old(mandate.state) == R.PendingCode ==>
        if old(mandate.created).None? then error == Some(NullPointer) && mandate.state == old(mandate.state)
        else if old(mandate.created).value + pendingExpire < now then
          error == Some(MandatePendingExpired) && mandate.state == old(mandate.state) && mandate.accepted == old(mandate.accepted)
        else error.None? && mandate.state == R.ActiveCode && mandate.accepted == Some(now)
      ensures CodeMatches(old(mandate.validationcode), verificationCode) && old(mandate.state) == R.ActiveCode ==>
        error.None? && mandate.state == R.ActiveCode && mandate.accepted == old(mandate.accepted)
      ensures (CodeMatches(old(mandate.validationcode), verificationCode) &&
               old(mandate.state) != R.PendingCode && old(mandate.state) != R.ActiveCode) ==>
        error == Some(NotAcceptable) && mandate.state == old(mandate.state) && mandate.accepted == old(mandate.accepted)
      ensures unchanged(mandate`delegator, mandate`sk, mandate`delegate, mandate`validto, mandate`created)
      ensures unchanged(mandate`rejected, mandate`revoked, mandate`validationcode, mandate`ttl, mandate`workflowType)
      ensures unchanged(mandate`delegatorisperson, mandate`delegateisperson, mandate`validfrom, mandate`visibilityIds,
                        mandate`delegatorUid, mandate`iuns)
    {
      if mandate.validationcode.None? {
        return Some(NullPointer);
      }
      if Some(mandate.validationcode.value) != verificationCode {
        return Some(InvalidVerificationCode);
      }
      if cxType == Some(PgUtils.PG) && !PgUtils.IsEmpty(groups) {
        mandate.groups := Some(set g | g in groups.value);
      }
      if mandate.state == R.IntValFromStatus(R.PENDING) {
        if mandate.created.None? {
          return Some(NullPointer);
        }
        var pendingExpiredInstant := mandate.created.value + pendingExpire;
        if pendingExpiredInstant < now {
          return Some(MandatePendingExpired);
        }
        mandate.accepted := Some(now);
        mandate.state := R.IntValFromStatus(R.ACTIVE);
        error := None;
      } else if mandate.state == R.IntValFromStatus(R.ACTIVE) {
        error := None;
      } else {
        error := Some(NotAcceptable);
      }
    }

    /** `acceptMandate`: a missing mandate is not found and a CIE one is a
      * bad request; otherwise the state is edited and, if that succeeds,
      * the record is saved as it now is, always active. */
    method AcceptMandate(mandate: MandateEntity?, verificationCode: Option<string>, groups: Option<seq<string>>,
                         cxType: Option<PgUtils.CxTypeAuthFleet>, now: int)
        returns (r: Result<MandateEntity, DaoError>)
      modifies mandate
      ensures mandate == null ==> r == Err(MandateNotFound)
      ensures mandate != null && !IsMandateStandardSegregation(mandate.workflowType) ==>
        r == Err(MandateBadRequest) && unchanged(mandate)
      ensures mandate != null && IsMandateStandardSegregation(mandate.workflowType) ==>
        if old(mandate.validationcode).None? then r == Err(NullPointer) && unchanged(mandate)
        else if old(mandate.validationcode) != verificationCode then r == Err(InvalidVerificationCode) && unchanged(mandate)
        else if old(mandate.state) == R.PendingCode then
          if old(mandate.created).None? then r == Err(NullPointer) && mandate.state == old(mandate.state)
          else if old(mandate.created).value + pendingExpire < now then
            r == Err(MandatePendingExpired) && mandate.state == old(mandate.state) && mandate.accepted == old(mandate.accepted)
          else r == Ok(mandate) && mandate.state == R.ActiveCode && mandate.accepted == Some(now)
        else if old(mandate.state) == R.ActiveCode then
          r == Ok(mandate) && mandate.state == R.ActiveCode && mandate.accepted == old(mandate.accepted)
        else r == Err(NotAcceptable) && mandate.state == old(mandate.state) && mandate.accepted == old(mandate.accepted)
      ensures mandate != null && IsMandateStandardSegregation(mandate.workflowType) &&
              CodeMatches(old(mandate.validationcode), verificationCode) ==>
        mandate.groups == (if cxType == Some(PgUtils.PG) && !PgUtils.IsEmpty(groups)
                           then Some(set g | g in groups.value) else old(mandate.groups))
      ensures r.Ok? ==> r.value == mandate && mandate.state == R.ActiveCode
      ensures mandate != null ==> unchanged(mandate`delegator, mandate`sk, mandate`delegate, mandate`validto, mandate`created,
                                            mandate`rejected, mandate`revoked, mandate`validationcode, mandate`ttl,
                                            mandate`workflowType, mandate`delegatorisperson, mandate`delegateisperson,
                                            mandate`validfrom, mandate`visibilityIds, mandate`delegatorUid, mandate`iuns)
    {
      if mandate == null {
        return Err(MandateNotFound);
      }
      if !IsMandateStandardSegregation(mandate.workflowType) {
        return Err(MandateBadRequest);
      }
      var error := EditMandateState(mandate, verificationCode, cxType, groups, now);
      if error.Some? {
        return Err(error.value);
      }
      r := Ok(mandate);
    }

    /** `updateMandate`: only an active, standard, still valid mandate may
      * change its groups; the result pairs a copy of the record before the
      * change with the saved record. */
    method UpdateMandate(mandate: MandateEntity?, groups: Option<set<string>>, now: int)
        returns (r: Result<(MandateEntity, MandateEntity), DaoError>)
      modifies mandate
      ensures mandate == null ==> r == Err(MandateNotFound)
      ensures mandate != null && !IsMandateStandardSegregation(mandate.workflowType) ==> r == Err(MandateBadRequest)
      ensures (mandate != null && IsMandateStandardSegregation(mandate.workflowType) &&
               R.FromValue(old(mandate.state)).Err?) ==> r == Err(NoSuchElement)
      ensures (mandate != null && IsMandateStandardSegregation(mandate.workflowType) &&
               R.FromValue(old(mandate.state)).Ok? && old(mandate.state) != R.ActiveCode) ==>
        r == Err(InvalidMandateStatus("update an inactive mandate is not permitted"))
      ensures mandate != null && old(mandate.state) == R.ActiveCode && IsMandateStandardSegregation(mandate.workflowType) ==>
        (r.Ok? <==> mandate.validto.None? || mandate.validto.value >= now)
      ensures mandate != null && r.Err? ==> unchanged(mandate)
      ensures r.Ok? ==> r.value.1 == mandate && mandate.groups == groups && mandate.state == R.ActiveCode
      ensures r.Ok? ==> fresh(r.value.0) && r.value.0.groups == old(mandate.groups) && r.value.0.state == mandate.state
      ensures r.Ok? ==> unchanged(mandate`delegator, mandate`sk, mandate`state, mandate`validto, mandate`accepted)
      ensures r.Ok? ==> unchanged(mandate`created, mandate`rejected, mandate`revoked, mandate`ttl, mandate`visibilityIds,
                                  mandate`delegate, mandate`delegatorUid, mandate`validationcode, mandate`validfrom,
                                  mandate`delegatorisperson, mandate`delegateisperson, mandate`workflowType, mandate`iuns)
      ensures r.Ok? ==> var c := r.value.0;
        && c.delegator == old(mandate.delegator) && c.sk == MandatePrefix + old(mandate.MandateId())
        && c.delegate == old(mandate.delegate) && c.state == old(mandate.state)
        && c.delegatorisperson == old(mandate.delegatorisperson) && c.delegateisperson == old(mandate.delegateisperson)
        && c.validfrom == old(mandate.validfrom) && c.validto == old(mandate.validto) && c.created == old(mandate.created)
        && c.accepted == old(mandate.accepted) && c.rejected == old(mandate.rejected) && c.revoked == old(mandate.revoked)
        && c.validationcode == old(mandate.validationcode) && c.visibilityIds == old(mandate.visibilityIds)
        && c.delegatorUid == old(mandate.delegatorUid) && c.ttl == old(mandate.ttl)
        && c.workflowType.None? && c.iuns.None?
      ensures (mandate != null && old(mandate.state) == R.ActiveCode && IsMandateStandardSegregation(mandate.workflowType) &&
               old(mandate.validto).Some? && old(mandate.validto).value < now) ==> r == Err(MandateNotFound)
    {
      if mandate == null {
        return Err(MandateNotFound);
      }
      if !IsMandateStandardSegregation(mandate.workflowType) {
        return Err(MandateBadRequest);
      }
      var status := R.FromValue(mandate.state);
      if status.Err? {
        return Err(NoSuchElement);
      }
      if status.value != R.ACTIVE {
        return Err(InvalidMandateStatus("update an inactive mandate is not permitted"));
      }
      if mandate.validto.Some? && mandate.validto.value < now {
        return Err(MandateNotFound);
      }
      var oldCopyOfMandate := new MandateEntity.Copy(mandate);
      mandate.groups := groups;
      r := Ok((oldCopyOfMandate, mandate));
    }

    /** `saveHistoryAndDeleteFromMain`: the record keeps ten more years in
      * the history table (`historyTtl` is that instant, in epoch seconds). */
    method SaveHistoryAndDeleteFromMain(mandate: MandateEntity, historyTtl: int)
      modifies mandate
      ensures mandate.ttl == Some(historyTtl)
      ensures unchanged(mandate`delegator, mandate`sk, mandate`delegate, mandate`state, mandate`validto, mandate`created)
      ensures unchanged(mandate`accepted, mandate`rejected, mandate`revoked, mandate`groups, mandate`workflowType)
      ensures unchanged(mandate`delegatorisperson, mandate`delegateisperson, mandate`validfrom, mandate`validationcode,
                        mandate`visibilityIds, mandate`delegatorUid, mandate`iuns)
    {
      mandate.ttl := Some(historyTtl);
    }

    /** `rejectMandate`: a pending or active mandate becomes rejected and is
      * archived; any other state is left alone without an error. */
    method RejectMandate(mandate: MandateEntity?, now: int, historyTtl: int) returns (r: Result<Outcome, DaoError>)
      modifies mandate
      ensures mandate == null ==> r == Err(MandateNotFound)
      ensures mandate != null && !IsMandateStandardSegregation(mandate.workflowType) ==>
        r == Err(MandateBadRequest) && unchanged(mandate)
      ensures mandate != null && IsMandateStandardSegregation(mandate.workflowType) ==>
        if old(mandate.state) == R.PendingCode || old(mandate.state) == R.ActiveCode then
          r == Ok(Archived) && mandate.state == R.RejectedCode && mandate.rejected == Some(now) && mandate.ttl == Some(historyTtl)
        else r == Ok(Skipped) && unchanged(mandate)
      ensures mandate != null ==> unchanged(mandate`delegator, mandate`sk, mandate`delegate, mandate`validto, mandate`created,
                                            mandate`accepted, mandate`revoked, mandate`validationcode, mandate`groups,
                                            mandate`workflowType, mandate`delegatorisperson, mandate`delegateisperson,
                                            mandate`validfrom, mandate`visibilityIds, mandate`delegatorUid, mandate`iuns)
    {
      if mandate == null {
        return Err(MandateNotFound);
      }
      if !IsMandateStandardSegregation(mandate.workflowType) {
        return Err(MandateBadRequest);
      }
      if mandate.state == R.IntValFromStatus(R.PENDING) || mandate.state == R.IntValFromStatus(R.ACTIVE) {
        mandate.rejected := Some(now);
        mandate.state := R.IntValFromStatus(R.REJECTED);
        SaveHistoryAndDeleteFromMain(mandate, historyTtl);
        return Ok(Archived);
      }
      r := Ok(Skipped);
    }

    /** `revokeMandate`: a missing mandate is skipped without an error; one
      * outside the allowed segregation is a bad request; a pending or
      * active one becomes revoked and is archived; any other is left as it
      * is. */
    method RevokeMandate(mandate: MandateEntity?, allowedSegregator: T.TypeSegregatorFilter, now: int, historyTtl: int)
        returns (r: Result<Outcome, DaoError>)
      modifies mandate
      ensures mandate == null ==> r == Ok(Skipped)
      ensures mandate != null && !T.IsIncluded(allowedSegregator, mandate.workflowType) ==>
        r == Err(MandateBadRequest) && unchanged(mandate)
      ensures mandate != null && T.IsIncluded(allowedSegregator, mandate.workflowType) ==>
        if old(mandate.state) == R.PendingCode || old(mandate.state) == R.ActiveCode then
          r == Ok(Archived) && mandate.state == R.RevokedCode && mandate.revoked == Some(now) && mandate.ttl == Some(historyTtl)
        else r == Ok(Skipped) && unchanged(mandate)
      ensures mandate != null ==> unchanged(mandate`delegator, mandate`sk, mandate`delegate, mandate`validto, mandate`created,
                                            mandate`accepted, mandate`rejected, mandate`validationcode, mandate`groups,
                                            mandate`workflowType, mandate`delegatorisperson, mandate`delegateisperson,
                                            mandate`validfrom, mandate`visibilityIds, mandate`delegatorUid, mandate`iuns)
    {
      if mandate == null {
        return Ok(Skipped);
      }
      if !T.IsIncluded(allowedSegregator, mandate.workflowType) {
        return Err(MandateBadRequest);
      }
      if mandate.state == R.IntValFromStatus(R.PENDING) || mandate.state == R.IntValFromStatus(R.ACTIVE) {
        mandate.revoked := Some(now);
        mandate.state := R.IntValFromStatus(R.REVOKED);
        SaveHistoryAndDeleteFromMain(mandate, historyTtl);
        return Ok(Archived);
      }
      r := Ok(Skipped);
    }

    /** The end of an active mandate's validity: its `validto`, or the end
      * of the pending period after its creation. */
    function ValidToOf(validto: Option<int>, created: Option<int>): (t: Option<int>)
      ensures validto.Some? ==> t == validto
      ensures validto.None? && created.Some? ==> t == Some(created.value + pendingExpire)
      ensures t.None? <==> validto.None? && created.None?
    {
      if validto.Some? then validto
      else if created.Some? then Some(created.value + pendingExpire)
      else None
    }

    /** `expireMandate`: a missing mandate is not found. An active mandate
      * past its validity becomes expired and is archived, one still valid
      * was accepted in the meantime and is left alone. A mandate in any
      * other state (a pending one whose acceptance period ended) is
      * archived as it is. */
    method ExpireMandate(mandate: MandateEntity?, now: int, historyTtl: int) returns (r: Result<Outcome, DaoError>)
      modifies mandate
      ensures mandate == null ==> r == Err(MandateNotFound)
      ensures mandate != null && old(mandate.state) == R.ActiveCode ==>
        var validTo := ValidToOf(old(mandate.validto), old(mandate.created));
        if validTo.None? then r == Err(NullPointer) && unchanged(mandate)
        else if now > validTo.value then
          r == Ok(Archived) && mandate.state == R.ExpiredCode && mandate.ttl == Some(historyTtl)
        else r == Ok(Skipped) && unchanged(mandate)
      ensures mandate != null && old(mandate.state) != R.ActiveCode ==>
        r == Ok(Archived) && mandate.state == old(mandate.state) && mandate.ttl == Some(historyTtl)
      ensures mandate != null ==> unchanged(mandate`delegator, mandate`sk, mandate`delegate, mandate`validto, mandate`created,
                                            mandate`accepted, mandate`rejected, mandate`revoked, mandate`validationcode,
                                            mandate`groups, mandate`workflowType, mandate`delegatorisperson,
                                            mandate`delegateisperson, mandate`validfrom, mandate`visibilityIds,
                                            mandate`delegatorUid, mandate`iuns)
    {
      if mandate == null {
        return Err(MandateNotFound);
      }
      var skipHistory := false;
      if mandate.state == R.IntValFromStatus(R.ACTIVE) {
        var validTo := ValidToOf(mandate.validto, mandate.created);
        if validTo.None? {
          return Err(NullPointer);
        }
        if now > validTo.value {
          mandate.state := R.IntValFromStatus(R.EXPIRED);
        } else {
          skipHistory := true;
        }
      }
      if skipHistory {
        r := Ok(Skipped);
      } else {
        SaveHistoryAndDeleteFromMain(mandate, historyTtl);
        r := Ok(Archived);
      }
    }

    /** `savePendingWithExpireSupport`: a missing creation instant becomes
      * now, and the support record that ends the pending period gets the
      * earlier of the pending deadline (by workflow) and the end of
      * validity. */
    method SavePendingWithExpireSupport(mandate: MandateEntity, now: int) returns (supportTtl: int)
      modifies mandate
      ensures mandate.created == Some(if old(mandate.created).None? then now else old(mandate.created).value)
      ensures supportTtl == PendingSupportExpiry(mandate.created.value + ChooseExpiredConfig(mandate.workflowType), mandate.validto)
      ensures unchanged(mandate`state, mandate`validto, mandate`workflowType, mandate`groups)
    {
      if mandate.created.None? {
        mandate.created := Some(now);
      }
      var created := mandate.created.value;
      var pendingExpiredInstant := created + ChooseExpiredConfig(mandate.workflowType);
      if mandate.validto.Some? && pendingExpiredInstant < mandate.validto.value {
        supportTtl := pendingExpiredInstant;
      } else {
        supportTtl := if mandate.validto.Some? then mandate.validto.value else pendingExpiredInstant;
      }
    }

    /** `createMandate`: allowed when the pair has no live mandate
      * (`total`, the count of the filter's query) or when a legal person
      * delegates to itself; otherwise the mandate already exists. */
    method CreateMandate(mandate: MandateEntity, total: int, now: int) returns (r: Result<int, DaoError>)
      modifies mandate
      ensures r.Ok? <==> total == 0 || IsSelfPgMandate(old(mandate.delegatorisperson), old(mandate.delegator), old(mandate.delegate))
      ensures r.Err? ==> r.error == MandateAlreadyExists && unchanged(mandate)
      ensures r.Ok? ==> (mandate.created.Some? &&
        r.value == PendingSupportExpiry(mandate.created.value + ChooseExpiredConfig(mandate.workflowType), mandate.validto))
    {
      if total == 0 || IsSelfPgMandate(mandate.delegatorisperson, mandate.delegator, mandate.delegate) {
        var supportTtl := SavePendingWithExpireSupport(mandate, now);
        r := Ok(supportTtl);
      } else {
        r := Err(MandateAlreadyExists);
      }
    }
  }

  /** The pending support record never outlives the pending deadline nor
    * the end of validity, and is the deadline when there is no end of
    * validity. */
  lemma PendingSupportExpiryIsMin(pendingExpired: int, validto: Option<int>)
    ensures validto.None? ==> PendingSupportExpiry(pendingExpired, validto) == pendingExpired
    ensures validto.Some? ==>
      PendingSupportExpiry(pendingExpired, validto) == (if pendingExpired < validto.value then pendingExpired else validto.value)
  {
  }
}
