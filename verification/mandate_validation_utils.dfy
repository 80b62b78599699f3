/** The guard clauses run on mandate requests before anything is read or
  * written: each check either passes or names the first thing wrong with the
  * request. A passing request is returned unchanged. */
module MandateValidationUtils {
  import opened Wrappers
  import opened Dates
  import PgUtils
  import MandateUtils
  import R = ReverseMandateStatusEnumMapper

  /** The generic error codes the checks report. */
  datatype ErrorCode = Required | InvalidParameter | Pattern | AssertEnum

  /** What a failed check throws. */
  datatype ValidationError =
    | UnsupportedFilter(code: ErrorCode, field: string)
    | InvalidGroupCode
    | InvalidVisibilityId
    | InvalidVerificationCode
    | MandateNotFound
    | MandateByHimself
    | InvalidInput(code: ErrorCode, field: string)
    | InvalidSearchInput(delegateId: Option<string>, problems: seq<string>)
    | DateTimeParse(text: string)
    | Forbidden
    | NullPointer

  const DelegateField: string := "delegate"
  const DelegatorField: string := "delegator"
  const DelegateFiscalCodeField: string := "delegate.fiscalCode"
  const DelegatorFiscalCodeField: string := "delegator.fiscalCode"
  const DelegatePersonField: string := "delegate.person"
  const DelegatorPersonField: string := "delegator.person"
  const VerificationCodeField: string := "verificationCode"
  const DateToField: string := "dateTo"

  /** `validateCountRequest`: only the pending status can be counted. */
  function ValidateCountRequest(status: Option<string>): (error: Option<ValidationError>)
    ensures error.None? <==> status == Some("PENDING")
    ensures error.Some? ==> error.value == UnsupportedFilter(AssertEnum, "status")
  {
    if status.None? || status.value != R.StatusValue(R.PENDING) then Some(UnsupportedFilter(AssertEnum, "status"))
    else None
  }

  /** The `for` loop of `validatePGGroups`: the first group that is not among
    * the institution's active groups, if any. */
  function FirstInactive(groups: seq<string>, active: set<string>): (i: Option<nat>)
    ensures i.Some? ==> (i.value < |groups| && groups[i.value] !in active &&
      forall j :: 0 <= j < i.value ==> groups[j] in active)
    ensures i.None? ==> forall j :: 0 <= j < |groups| ==> groups[j] in active
  {
    if groups == [] then None
    else if groups[0] !in active then Some(0)
    else
      var rest := FirstInactive(groups[1..], active);
      if rest.None? then None else Some(rest.value + 1)
  }

  /** `validatePGGroups`: null or empty groups pass; otherwise every group
    * must be the id of one of the institution's active groups, fetched from
    * the registry (`activeGroups`). */
  function ValidatePGGroups(groups: Option<seq<string>>, activeGroups: set<string>): (error: Option<ValidationError>)
  {
    if PgUtils.IsEmpty(groups) then None
    else if FirstInactive(groups.value, activeGroups).Some? then Some(InvalidGroupCode)
    else None
  }

  /** The groups pass exactly when each is active; without groups the
    * registry's answer does not matter, so no lookup is needed. */
  lemma PGGroupsRule(groups: Option<seq<string>>, activeGroups: set<string>, otherGroups: set<string>)
    ensures ValidatePGGroups(groups, activeGroups).None? <==>
      PgUtils.IsEmpty(groups) || forall g :: g in groups.value ==> g in activeGroups
    ensures ValidatePGGroups(groups, activeGroups).Some? ==> ValidatePGGroups(groups, activeGroups).value == InvalidGroupCode
    ensures PgUtils.IsEmpty(groups) ==> ValidatePGGroups(groups, activeGroups) == ValidatePGGroups(groups, otherGroups)
  {
    if !PgUtils.IsEmpty(groups) {
      var i := FirstInactive(groups.value, activeGroups);
      if i.Some? {
        assert groups.value[i.value] in groups.value;
      } else {
        forall g | g in groups.value ensures g in activeGroups {
          var j :| 0 <= j < |groups.value| && groups.value[j] == g;
        }
      }
    }
  }

  /** `validateVisibilityId`: no ids pass; otherwise the check fails when the
    * registry reports any of them (`reported`, what `checkAooUoIds` emits). */
  function ValidateVisibilityId(visibilityIds: Option<seq<string>>, reported: seq<string>): (error: Option<ValidationError>)
    ensures error.None? <==> PgUtils.IsEmpty(visibilityIds) || reported == []
    ensures error.Some? ==> error.value == InvalidVisibilityId
  {
    if PgUtils.IsEmpty(visibilityIds) then None
    else if reported != [] then Some(InvalidVisibilityId)
    else None
  }

  /** The body of an acceptance request. */
  datatype AcceptRequest = AcceptRequest(verificationCode: Option<string>)

  /** `validateAcceptMandateRequest`: a missing body or code is checked
    * before a missing mandate id. */
  function ValidateAcceptMandateRequest(mandateId: Option<string>, m: Option<AcceptRequest>): (r: Result<AcceptRequest, ValidationError>)
    ensures r.Ok? <==> mandateId.Some? && m.Some? && m.value.verificationCode.Some?
    ensures r.Ok? ==> r.value == m.value
    ensures (m.None? || m.value.verificationCode.None?) ==> r == Err(InvalidVerificationCode)
    ensures (m.Some? && m.value.verificationCode.Some? && mandateId.None?) ==> r == Err(MandateNotFound)
  {
    if m.None? || m.value.verificationCode.None? then Err(InvalidVerificationCode)
    else if mandateId.None? then Err(MandateNotFound)
    else Ok(m.value)
  }

  /** `validateCreationRequestHimself`: only a PG may delegate itself (its
    * users act for the company). Comparing a null delegate id is a
    * `NullPointerException`. */
  function ValidateCreationRequestHimself(cxType: Option<PgUtils.CxTypeAuthFleet>, requester: Option<string>,
                                          delegate: Option<string>): (error: Option<ValidationError>)
    ensures error == Some(MandateByHimself) <==> cxType != Some(PgUtils.PG) && delegate.Some? && requester == delegate
    ensures error == Some(NullPointer) <==> cxType != Some(PgUtils.PG) && delegate.None?
    ensures error.None? <==> cxType == Some(PgUtils.PG) || (delegate.Some? && requester != delegate)
  {
    if cxType == Some(PgUtils.PG) then None
    else if delegate.None? then Some(NullPointer)
    else if requester == delegate then Some(MandateByHimself)
    else None
  }

  /** The delegate or delegator of a request. */
  datatype UserDto = UserDto(fiscalCode: Option<string>, person: Option<bool>, firstName: Option<string>,
                             lastName: Option<string>, companyName: Option<string>)

  /** The fields of a creation request the checks read. */
  datatype MandateDto = MandateDto(delegate: Option<UserDto>, verificationCode: Option<string>, dateto: Option<string>)

  /** `String.matches("\\d\\d\\d\\d\\d")`: exactly five ASCII digits. */
  predicate FiveDigits(code: string)
  {
    |code| == MandateUtils.CodeLength && forall i :: 0 <= i < |code| ==> IsAsciiDigit(code[i])
  }

  /** The codes the service generates are exactly the codes the check
    * accepts. */
  lemma GeneratedCodesAccepted(randomNumber: nat, code: string)
    requires randomNumber < 100000
    ensures FiveDigits(MandateUtils.GenerateRandomCode(randomNumber))
    ensures FiveDigits(code) ==> MandateUtils.GenerateRandomCode(MandateUtils.DecimalValue(code)) == code
  {
    if FiveDigits(code) {
      MandateUtils.EveryCodeIsGenerated(code);
    }
  }

  /** `Character.isWhitespace`. */
  predicate IsWhitespace(c: char)
  {
    || c == ' ' || c == '\t' || c == '\n' || c == '\U{000B}' || c == '\U{000C}' || c == '\r'
    || ('\U{001C}' <= c <= '\U{001F}')
    || c == '\U{1680}' || ('\U{2000}' <= c <= '\U{2006}') || ('\U{2008}' <= c <= '\U{200A}')
    || c == '\U{2028}' || c == '\U{2029}' || c == '\U{205F}' || c == '\U{3000}'
  }

  /** `StringUtils.hasText`: present and holding a character that is not
    * whitespace. */
  predicate HasText(s: Option<string>)
  {
    s.Some? && exists i :: 0 <= i < |s.value| && !IsWhitespace(s.value[i])
  }

  /** A person needs a first and a last name, a company its name. */
  predicate NamesComplete(user: UserDto)
    requires user.person.Some?
  {
    if user.person.value then user.firstName.Some? && user.lastName.Some? else user.companyName.Some?
  }

  /** The checks on the delegate or delegator, in their order: present, a
    * tax id, the person flag, the names, then (after the verification code
    * checks for a creation request, which the caller runs in between) the
    * tax id's syntax for a person or a company. */
  function CheckUser(user: Option<UserDto>, field: string, fiscalCodeField: string, personField: string): (error: Option<ValidationError>)
  {
    if user.None? then Some(InvalidInput(Required, field))
    else if user.value.fiscalCode.None? then Some(InvalidInput(Required, fiscalCodeField))
    else if user.value.person.None? then Some(InvalidInput(Required, personField))
    else if !NamesComplete(user.value) then Some(InvalidInput(InvalidParameter, field))
    else None
  }

  /** The tax id check: `validateUtils.validate(taxId, isPerson, false)`,
    * given as `taxIdValid`. */
  function CheckTaxId(user: UserDto, fiscalCodeField: string, taxIdValid: (string, bool) -> bool): (error: Option<ValidationError>)
    requires user.fiscalCode.Some? && user.person.Some?
  {
    if !taxIdValid(user.fiscalCode.value, user.person.value) then Some(InvalidInput(Pattern, fiscalCodeField)) else None
  }

  /** `validateCreationRequest`. */
  function ValidateCreationRequest(dto: MandateDto, taxIdValid: (string, bool) -> bool): (r: Result<MandateDto, ValidationError>)
    ensures r.Ok? <==> WellFormedCreation(dto, taxIdValid)
    ensures r.Ok? ==> r.value == dto
  {
    var userError := CheckUser(dto.delegate, DelegateField, DelegateFiscalCodeField, DelegatePersonField);
    if userError.Some? then Err(userError.value)
    else if dto.verificationCode.None? then Err(InvalidInput(Required, VerificationCodeField))
    else if !FiveDigits(dto.verificationCode.value) then Err(InvalidInput(Pattern, VerificationCodeField))
    else
      var taxIdError := CheckTaxId(dto.delegate.value, DelegateFiscalCodeField, taxIdValid);
      if taxIdError.Some? then Err(taxIdError.value)
      else if !HasText(dto.dateto) then Err(InvalidInput(Required, DateToField))
      else Ok(dto)
  }

  /** A well-formed creation request, stated field by field. */
  predicate WellFormedCreation(dto: MandateDto, taxIdValid: (string, bool) -> bool)
  {
    && dto.delegate.Some?
    && dto.delegate.value.fiscalCode.Some?
    && dto.delegate.value.person.Some?
    && (dto.delegate.value.person.value ==> dto.delegate.value.firstName.Some? && dto.delegate.value.lastName.Some?)
    && (!dto.delegate.value.person.value ==> dto.delegate.value.companyName.Some?)
    && dto.verificationCode.Some? && FiveDigits(dto.verificationCode.value)
    && taxIdValid(dto.delegate.value.fiscalCode.value, dto.delegate.value.person.value)
    && HasText(dto.dateto)
  }

  /** The checks run in order: a missing delegate is reported whatever else
    * is wrong, and a verification code is only judged once the delegate is
    * complete. */
  lemma CreationFirstFailureDecides(dto: MandateDto, taxIdValid: (string, bool) -> bool)
    ensures dto.delegate.None? ==> ValidateCreationRequest(dto, taxIdValid) == Err(InvalidInput(Required, DelegateField))
    ensures (CheckUser(dto.delegate, DelegateField, DelegateFiscalCodeField, DelegatePersonField).None? &&
      dto.verificationCode.Some? && !FiveDigits(dto.verificationCode.value)) ==>
      ValidateCreationRequest(dto, taxIdValid) == Err(InvalidInput(Pattern, VerificationCodeField))
    ensures ValidateCreationRequest(dto, taxIdValid) == Err(InvalidInput(Required, DateToField)) ==>
      !HasText(dto.dateto) && WellFormedCreation(dto.(dateto := Some("2099-01-01")), taxIdValid)
  {
    if ValidateCreationRequest(dto, taxIdValid) == Err(InvalidInput(Required, DateToField)) {
      var fixed := Some("2099-01-01");
      assert !IsWhitespace(fixed.value[0]);
    }
  }

  /** A person delegate lacking a name, or a company lacking its name, is
    * refused as an invalid delegate. */
  lemma DelegateNamesRule(dto: MandateDto, taxIdValid: (string, bool) -> bool)
    requires dto.delegate.Some? && dto.delegate.value.fiscalCode.Some? && dto.delegate.value.person.Some?
    ensures !NamesComplete(dto.delegate.value) <==>
      ValidateCreationRequest(dto, taxIdValid) == Err(InvalidInput(InvalidParameter, DelegateField))
  {
  }

  /** The verification code must be five ASCII digits: "01234" passes,
    * "1234", "123456" and "12a45" do not. */
  lemma VerificationCodeExamples()
    ensures FiveDigits("01234")
    ensures !FiveDigits("1234") && !FiveDigits("123456") && !FiveDigits("12a45")
  {
    assert "12a45"[2] == 'a';
  }

  /** The day after `d`. */
  function NextDay(d: Date): (n: Date)
    requires Valid(d)
    ensures Valid(n) && IsBefore(d, n)
  {
    if d.day < MonthLength(d.year, d.month) then Date(d.year, d.month, d.day + 1)
    else if d.month < 12 then Date(d.year, d.month + 1, 1)
    else Date(d.year + 1, 1, 1)
  }

  /** No valid date lies strictly between a date and the next day. */
  lemma NextDayIsNext(d: Date, e: Date)
    requires Valid(d) && Valid(e)
    ensures IsBefore(d, e) <==> !IsBefore(e, NextDay(d))
  {
  }

  predicate AllDigits(s: string)
  {
    forall i :: 0 <= i < |s| ==> IsAsciiDigit(s[i])
  }

  /** `LocalDate.parse` (`ISO_LOCAL_DATE`, strict) of a four-digit-year date
    * `yyyy-MM-dd`; anything else, or a day the month does not have, is a
    * `DateTimeParseException` (`None`). */
  function ParseIsoDate(s: string): (r: Option<Date>)
    ensures r.Some? ==> Valid(r.value) && 0 <= r.value.year < 10000
  {
    if |s| != 10 || s[4] != '-' || s[7] != '-' || !AllDigits(s[..4]) || !AllDigits(s[5..7]) || !AllDigits(s[8..]) then None
    else
      var d := Date(MandateUtils.DecimalValue(s[..4]), MandateUtils.DecimalValue(s[5..7]), MandateUtils.DecimalValue(s[8..]));
      if 1 <= d.month <= 12 && 1 <= d.day <= MonthLength(d.year, d.month) then Some(d) else None
  }

  /** `LocalDate.toString` of a date with a four-digit year. */
  function FormatIsoDate(d: Date): (s: string)
    requires Valid(d) && 0 <= d.year < 10000
    ensures |s| == 10
  {
    MandateUtils.ZeroPadded(d.year, 4) + "-" + MandateUtils.ZeroPadded(d.month, 2) + "-" + MandateUtils.ZeroPadded(d.day, 2)
  }

  /** Every date with a four-digit year is read back from its ISO text. */
  lemma ParseFormatRoundTrip(d: Date)
    requires Valid(d) && 0 <= d.year < 10000
    ensures ParseIsoDate(FormatIsoDate(d)) == Some(d)
  {
    var s := FormatIsoDate(d);
    assert s[..4] == MandateUtils.ZeroPadded(d.year, 4);
    assert s[5..7] == MandateUtils.ZeroPadded(d.month, 2);
    assert s[8..] == MandateUtils.ZeroPadded(d.day, 2);
    MandateUtils.DecimalValueOfZeroPadded(d.year, 4);
    MandateUtils.DecimalValueOfZeroPadded(d.month, 2);
    MandateUtils.DecimalValueOfZeroPadded(d.day, 2);
  }

  /** A text `ParseIsoDate` accepts is the ISO form of the date it reads. */
  lemma FormatParseRoundTrip(s: string)
    requires ParseIsoDate(s).Some?
    ensures FormatIsoDate(ParseIsoDate(s).value) == s
  {
    var d := ParseIsoDate(s).value;
    MandateUtils.ZeroPaddedOfDecimalValue(s[..4]);
    MandateUtils.ZeroPaddedOfDecimalValue(s[5..7]);
    MandateUtils.ZeroPaddedOfDecimalValue(s[8..]);
    assert s == s[..4] + "-" + s[5..7] + "-" + s[8..];
  }

  /** A creation request of a reverse mandate: the delegator's fields and the
    * end date. */
  datatype MandateDtoRequest = MandateDtoRequest(delegator: Option<UserDto>, dateto: Option<string>)

  /** `validateReverseMandateCreationRequest`, on `today` (`LocalDate.now()`):
    * the delegator's checks, an end date, and an end date not before
    * tomorrow. */
  function ValidateReverseMandateCreationRequest(dto: MandateDtoRequest, taxIdValid: (string, bool) -> bool, today: Date): (r: Result<MandateDtoRequest, ValidationError>)
    requires Valid(today)
  {
    var userError := CheckUser(dto.delegator, DelegatorField, DelegatorFiscalCodeField, DelegatorPersonField);
    if userError.Some? then Err(userError.value)
    else
      var taxIdError := CheckTaxId(dto.delegator.value, DelegatorFiscalCodeField, taxIdValid);
      if taxIdError.Some? then Err(taxIdError.value)
      else if !HasText(dto.dateto) then Err(InvalidInput(Required, DateToField))
      else
        var dateTo := ParseIsoDate(dto.dateto.value);
        if dateTo.None? then Err(DateTimeParse(dto.dateto.value))
        else if IsBefore(dateTo.value, NextDay(today)) then Err(InvalidInput(Pattern, DateToField))
        else Ok(dto)
  }

  /** A reverse request with a complete delegator and a readable end date
    * passes exactly when the end date is after today, and is then returned
    * unchanged; an end date of today or earlier is refused. */
  lemma ReverseEndDateRule(dto: MandateDtoRequest, taxIdValid: (string, bool) -> bool, today: Date)
    requires Valid(today)
    requires CheckUser(dto.delegator, DelegatorField, DelegatorFiscalCodeField, DelegatorPersonField).None?
    requires CheckTaxId(dto.delegator.value, DelegatorFiscalCodeField, taxIdValid).None?
    requires HasText(dto.dateto) && ParseIsoDate(dto.dateto.value).Some?
    ensures var r := ValidateReverseMandateCreationRequest(dto, taxIdValid, today);
      (r.Ok? <==> IsAfter(ParseIsoDate(dto.dateto.value).value, today)) &&
      (r.Ok? ==> r.value == dto) &&
      (r.Err? ==> r.error == InvalidInput(Pattern, DateToField))
  {
    NextDayIsNext(today, ParseIsoDate(dto.dateto.value).value);
  }

  /** An end date that is not an ISO date is a parse failure, reported after
    * every other check. */
  lemma ReverseUnreadableDate(dto: MandateDtoRequest, taxIdValid: (string, bool) -> bool, today: Date)
    requires Valid(today)
    requires CheckUser(dto.delegator, DelegatorField, DelegatorFiscalCodeField, DelegatorPersonField).None?
    requires CheckTaxId(dto.delegator.value, DelegatorFiscalCodeField, taxIdValid).None?
    requires HasText(dto.dateto) && ParseIsoDate(dto.dateto.value).None?
    ensures ValidateReverseMandateCreationRequest(dto, taxIdValid, today) == Err(DateTimeParse(dto.dateto.value))
  {
  }

  /** `validateSearchRequest`: the bean constraints of the search input are
    * checked by the validation framework, whose findings (`violations`) are
    * reported against the delegate id. */
  function ValidateSearchRequest(delegateId: Option<string>, violations: seq<string>): (error: Option<ValidationError>)
    ensures error.None? <==> violations == []
    ensures error.Some? ==> error.value == InvalidSearchInput(delegateId, violations)
  {
    if violations != [] then Some(InvalidSearchInput(delegateId, violations)) else None
  }

  /** `validateListMandatesByDelegateRequest`: a PG cannot list the mandates
    * it was given this way. */
  function ValidateListMandatesByDelegateRequest(cxType: Option<PgUtils.CxTypeAuthFleet>): (error: Option<ValidationError>)
    ensures error.Some? <==> cxType == Some(PgUtils.PG)
    ensures error.Some? ==> error.value == Forbidden
  {
    if cxType == Some(PgUtils.PG) then Some(Forbidden) else None
  }
}
