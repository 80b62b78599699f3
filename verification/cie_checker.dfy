/** The CIE checker's validation of a mandate acceptance: the input checks,
  * the removal of the 4-byte prefix of a security object, the data-group
  * integrity check, the delegator's tax code, the card's expiry, and the
  * mapping of every failure to a result code. The cryptographic steps (CMS
  * parsing, signatures, trust chain, passive authentication, the nonce
  * challenge), the security-object decoder and the TLV tag parser are
  * parameters. */
module CieChecker {
  import opened Wrappers
  import opened Dates
  import opened CieResults
  import opened CieModel
  import CieDataGroupBuilder

  /** The digest algorithms a security object may name. */
  const CompatibleAlgos: set<string> := {"SHA-1", "SHA-256", "SHA-384", "SHA-512"}

  /** `Character.isWhitespace`. */
  predicate IsWhitespace(c: char) {
    c == ' ' || '\t' <= c <= '\r' || '\U{1C}' <= c <= '\U{1F}'
    || c == '\U{1680}' || '\U{2000}' <= c <= '\U{2006}' || '\U{2008}' <= c <= '\U{200A}'
    || c == '\U{2028}' || c == '\U{2029}' || c == '\U{205F}' || c == '\U{3000}'
  }

  /** `String.isBlank`: empty or whitespace only. */
  predicate IsBlank(s: string) {
    forall i :: 0 <= i < |s| ==> IsWhitespace(s[i])
  }

  /** A byte array that is `null` or empty. */
  predicate MissingBytes(b: Option<seq<byte>>) {
    b.None? || |b.value| == 0
  }

  // ---- validateDataInput ----

  /** Everything `validateDataInput` demands: both card applications are
    * present, every byte array and the nonce are non-empty, and the tax code
    * is not blank. */
  predicate InputComplete(data: CieValidationData?)
    reads data, if data != null then {data.cieIas, data.cieMrtd} else {}
  {
    data != null && data.cieIas != null && data.cieMrtd != null
    && !MissingBytes(data.cieIas.sod) && !MissingBytes(data.cieIas.nis) && !MissingBytes(data.cieIas.publicKey)
    && !MissingBytes(data.signedNonce) && data.nonce.Some? && |data.nonce.value| > 0
    && !MissingBytes(data.cieMrtd.sod) && !MissingBytes(data.cieMrtd.dg1) && !MissingBytes(data.cieMrtd.dg11)
    && data.codFiscDelegante.Some? && !IsBlank(data.codFiscDelegante.value)
  }

  /** `validateDataInput`: `None` when the input passes, otherwise the code of
    * the exception it throws. */
  function ValidateDataInput(data: CieValidationData?): (r: Option<ResultCieChecker>)
    reads data, if data != null then {data.cieIas, data.cieMrtd} else {}
    ensures r.None? <==> InputComplete(data)
  {
    if data == null || data.cieIas == null || data.cieMrtd == null then Some(KO_EXC_INPUT_PARAMETER_NULL)
    else if MissingBytes(data.cieIas.sod) then Some(KO_EXC_INVALID_PARAMETER_CIESOD)
    else if MissingBytes(data.cieIas.nis) then Some(KO_EXC_INVALID_PARAMETER_CIENIS)
    else if MissingBytes(data.cieIas.publicKey) then Some(KO_EXC_INVALID_PARAMETER_PUBLICKEY)
    else if MissingBytes(data.signedNonce) then Some(KO_EXC_INVALID_PARAMETER_SIGNEDNONCE)
    else if data.nonce.None? || |data.nonce.value| == 0 then Some(KO_EXC_INVALID_PARAMETER_NONCE)
    else if MissingBytes(data.cieMrtd.sod) then Some(KO_EXC_INVALID_PARAMETER_MRTDSOD)
    else if MissingBytes(data.cieMrtd.dg1) then Some(KO_EXC_INVALID_PARAMETER_MRTDDG1)
    else if MissingBytes(data.cieMrtd.dg11) then Some(KO_EXC_INVALID_PARAMETER_MRTDDG11)
    else if data.codFiscDelegante.None? || IsBlank(data.codFiscDelegante.value) then Some(KO_EXC_INVALID_PARAMETER_CODFISCDELEGANTE)
    else None
  }

  /** A check that passes or names the code it fails with. */
  datatype Check = Check(passes: bool, code: ResultCieChecker)

  /** The code of the first check that fails, if any. */
  function FirstFailure(checks: seq<Check>): (r: Option<ResultCieChecker>)
    ensures r.None? <==> forall i :: 0 <= i < |checks| ==> checks[i].passes
    ensures r.Some? ==> exists i :: 0 <= i < |checks| && !checks[i].passes && checks[i].code == r.value
                                    && forall j :: 0 <= j < i ==> checks[j].passes
  {
    if checks == [] then None
    else if !checks[0].passes then Some(checks[0].code)
    else
      var rest := FirstFailure(checks[1..]);
      if rest.Some? then
        var i :| 0 <= i < |checks[1..]| && !checks[1..][i].passes && checks[1..][i].code == rest.value
                  && forall j :: 0 <= j < i ==> checks[1..][j].passes;
        assert !checks[i + 1].passes && forall j :: 0 <= j < i + 1 ==> checks[j].passes;
        rest
      else rest
  }

  /** The input checks as a table, in the order the source runs them. */
  function InputChecks(data: CieValidationData?): (checks: seq<Check>)
    reads data, if data != null then {data.cieIas, data.cieMrtd} else {}
    ensures |checks| == 10
  {
    var present := data != null && data.cieIas != null && data.cieMrtd != null;
    [ Check(present, KO_EXC_INPUT_PARAMETER_NULL),
      Check(present && !MissingBytes(data.cieIas.sod), KO_EXC_INVALID_PARAMETER_CIESOD),
      Check(present && !MissingBytes(data.cieIas.nis), KO_EXC_INVALID_PARAMETER_CIENIS),
      Check(present && !MissingBytes(data.cieIas.publicKey), KO_EXC_INVALID_PARAMETER_PUBLICKEY),
      Check(present && !MissingBytes(data.signedNonce), KO_EXC_INVALID_PARAMETER_SIGNEDNONCE),
      Check(present && data.nonce.Some? && |data.nonce.value| > 0, KO_EXC_INVALID_PARAMETER_NONCE),
      Check(present && !MissingBytes(data.cieMrtd.sod), KO_EXC_INVALID_PARAMETER_MRTDSOD),
      Check(present && !MissingBytes(data.cieMrtd.dg1), KO_EXC_INVALID_PARAMETER_MRTDDG1),
      Check(present && !MissingBytes(data.cieMrtd.dg11), KO_EXC_INVALID_PARAMETER_MRTDDG11),
      Check(present && data.codFiscDelegante.Some? && !IsBlank(data.codFiscDelegante.value),
            KO_EXC_INVALID_PARAMETER_CODFISCDELEGANTE) ]
  }

  /** The first failing check decides. */
  lemma {:induction false} FirstFailureAt(checks: seq<Check>, k: nat)
    requires k < |checks| && !checks[k].passes
    requires forall j :: 0 <= j < k ==> checks[j].passes
    ensures FirstFailure(checks) == Some(checks[k].code)
  {
    if k > 0 {
      FirstFailureAt(checks[1..], k - 1);
    }
  }

  /** `validateDataInput` reports the first failing check of the table. */
  lemma ValidateDataInputIsFirstFailure(data: CieValidationData?)
    ensures ValidateDataInput(data) == FirstFailure(InputChecks(data))
  {
    var checks := InputChecks(data);
    if data == null || data.cieIas == null || data.cieMrtd == null { FirstFailureAt(checks, 0); }
    else if MissingBytes(data.cieIas.sod) { FirstFailureAt(checks, 1); }
    else if MissingBytes(data.cieIas.nis) { FirstFailureAt(checks, 2); }
    else if MissingBytes(data.cieIas.publicKey) { FirstFailureAt(checks, 3); }
    else if MissingBytes(data.signedNonce) { FirstFailureAt(checks, 4); }
    else if data.nonce.None? || |data.nonce.value| == 0 { FirstFailureAt(checks, 5); }
    else if MissingBytes(data.cieMrtd.sod) { FirstFailureAt(checks, 6); }
    else if MissingBytes(data.cieMrtd.dg1) { FirstFailureAt(checks, 7); }
    else if MissingBytes(data.cieMrtd.dg11) { FirstFailureAt(checks, 8); }
    else if data.codFiscDelegante.None? || IsBlank(data.codFiscDelegante.value) { FirstFailureAt(checks, 9); }
  }

  /** Every input check has its own code, so the code names the field. */
  lemma InputCodesDistinct(data: CieValidationData?)
    ensures forall i, j :: 0 <= i < j < |InputChecks(data)| ==> InputChecks(data)[i].code != InputChecks(data)[j].code
  {
  }

  // ---- truncSodBytes ----

  /** `truncSodBytes`: drops the 4-byte prefix; a shorter array makes
    * `Arrays.copyOfRange` throw. */
  function TruncSodBytes(sod: seq<byte>): (r: Result<seq<byte>, Failure>)
    ensures r.Ok? <==> |sod| >= 4
    ensures r.Ok? ==> |r.value| == |sod| - 4 && sod == sod[..4] + r.value
    ensures r.Err? ==> r.error == RuntimeException
  {
    if |sod| < 4 then Err(RuntimeException) else Ok(sod[4..])
  }

  // ---- verifyCodFiscDelegante ----

  /** `verifyCodFiscDelegante`: `personalNumber` is what the TLV parser reads
    * under tag 5F10 of DG11 (or the exception it throws). */
  function VerifyCodFiscDelegante(codFiscDelegante: string, personalNumber: Result<string, Failure>)
    : (r: Result<ResultCieChecker, Failure>)
    ensures r.Ok? <==> personalNumber == Ok(codFiscDelegante)
    ensures r.Ok? ==> r.value == OK
    ensures personalNumber.Err? ==> r == Err(personalNumber.error)
    ensures personalNumber.Ok? && personalNumber.value != codFiscDelegante ==>
      r == Err(CieCheckerException(KO_EXC_CODFISCALE_NOT_VERIFIED))
  {
    match personalNumber
    case Err(e) => Err(e)
    case Ok(number) =>
      if codFiscDelegante == number then Ok(OK) else Err(CieCheckerException(KO_EXC_CODFISCALE_NOT_VERIFIED))
  }

  // ---- verifyExpirationCie ----

  /** Where the expiry date sits in the element read from DG1. */
  const ExpiryStart: nat := 38
  const ExpiryEnd: nat := 44

  /** `verifyExpirationCie`: `dataElement` is what the TLV parser reads under
    * tag 5F1F of DG1 (or the exception it throws); characters 38..43 are the
    * expiry in `yyMMdd`; `today` is the current date. A too short element
    * makes `substring` throw. */
  function VerifyExpirationCie(dataElement: Result<string, Failure>, today: Date): (r: Result<ResultCieChecker, Failure>)
    ensures r == Ok(OK) <==>
      && dataElement.Ok? && |dataElement.value| >= ExpiryEnd
      && ParseYYMMDD(dataElement.value[ExpiryStart..ExpiryEnd]).Some?
      && IsAfter(ParseYYMMDD(dataElement.value[ExpiryStart..ExpiryEnd]).value, today)
    ensures r.Ok? ==> r.value == OK || r.value == KO_EXC_EXPIRATIONDATE
    ensures (dataElement.Ok? && |dataElement.value| >= ExpiryEnd
             && ParseYYMMDD(dataElement.value[ExpiryStart..ExpiryEnd]).None?) ==>
            r == Err(CieCheckerException(KO_EXC_INVALID_EXPIRATIONDATE))
    ensures (dataElement.Ok? && |dataElement.value| >= ExpiryEnd
             && ParseYYMMDD(dataElement.value[ExpiryStart..ExpiryEnd]).Some?
             && !IsAfter(ParseYYMMDD(dataElement.value[ExpiryStart..ExpiryEnd]).value, today)) ==>
            r == Ok(KO_EXC_EXPIRATIONDATE)
    ensures dataElement.Ok? && |dataElement.value| < ExpiryEnd ==> r == Err(RuntimeException)
    ensures dataElement.Err? ==> r == Err(dataElement.error)
  {
    match dataElement
    case Err(e) => Err(e)
    case Ok(element) =>
      if |element| < ExpiryEnd then Err(RuntimeException)
      else
        match ParseYYMMDD(element[ExpiryStart..ExpiryEnd])
        case None => Err(CieCheckerException(KO_EXC_INVALID_EXPIRATIONDATE))
        case Some(inputDate) => if IsAfter(inputDate, today) then Ok(OK) else Ok(KO_EXC_EXPIRATIONDATE)
  }

  /** A zone written by the data-group builder passes the expiry check
    * exactly when its expiry date is after today (for expiry dates in the
    * 2000..2099 window of the two-digit year). */
  lemma ExpiryOfBuiltMrz(data: CieDataGroupBuilder.MrzData, today: Date)
    requires Valid(data.birthDate) && Valid(data.expiryDate) && 2000 <= data.expiryDate.year <= 2099
    ensures VerifyExpirationCie(Ok(CieDataGroupBuilder.BuildMrz(data)), today)
            == Ok(if IsAfter(data.expiryDate, today) then OK else KO_EXC_EXPIRATIONDATE)
  {
    CieDataGroupBuilder.MrzExpiry(data);
    ParseFormat(data.expiryDate);
  }

  /** A card is expired on its expiry day: the date must be strictly after
    * today. */
  lemma ExpiredOnExpiryDay(element: string, today: Date)
    requires |element| >= ExpiryEnd && ParseYYMMDD(element[ExpiryStart..ExpiryEnd]) == Some(today)
    ensures VerifyExpirationCie(Ok(element), today) == Ok(KO_EXC_EXPIRATIONDATE)
  {
  }

  // ---- verifyIntegrity ----

  /** What the security-object decoder extracts: the digest algorithm's
    * name (`null` when the identifier is unknown) and the expected hash of
    * each data group (`null` when absent). */
  datatype SodSummary = SodSummary(digestName: Option<string>, expectedHashes: Option<map<int, seq<byte>>>)

  /** `Map.get`: `null` for a missing key. */
  function Get(m: map<int, seq<byte>>, k: int): (r: Option<seq<byte>>)
    ensures r.Some? <==> k in m
  {
    if k in m then Some(m[k]) else None
  }

  /** `verifyDigestList`: `isVerifyDigest(algorithm, dg, expected)` compares
    * the digest of the group with the expected hash. `None` when they match,
    * else the code thrown: DG1 has its own, every other group shares DG11's. */
  function VerifyDigestList(algorithm: string, dg: Option<seq<byte>>, expectedHashes: map<int, seq<byte>>, dgNum: int,
                            isVerifyDigest: (string, Option<seq<byte>>, Option<seq<byte>>) -> bool)
    : (r: Option<ResultCieChecker>)
    ensures r.None? <==> isVerifyDigest(algorithm, dg, Get(expectedHashes, dgNum))
    ensures r.Some? && dgNum == 1 ==> r.value == KO_EXC_NOT_SAME_DIGEST1
    ensures r.Some? && dgNum != 1 ==> r.value == KO_EXC_NOT_SAME_DIGEST11
  {
    if isVerifyDigest(algorithm, dg, Get(expectedHashes, dgNum)) then None
    else if dgNum == 1 then Some(KO_EXC_NOT_SAME_DIGEST1)
    else Some(KO_EXC_NOT_SAME_DIGEST11)
  }

  /** The algorithm checks of `verifyIntegrityCore`: a name is required, and
    * it must be one of the compatible digests. */
  predicate AlgorithmAccepted(name: Option<string>) {
    name.Some? && !IsBlank(name.value) && name.value in CompatibleAlgos
  }

  /** `verifyIntegrityCore`: decode the security object, check the digest
    * algorithm and the expected hashes, then compare DG1 and DG11 in that
    * order. */
  function VerifyIntegrityCore(sodBytes: seq<byte>, dg1: Option<seq<byte>>, dg11: Option<seq<byte>>,
                               decodeSod: seq<byte> -> Result<SodSummary, Failure>,
                               isVerifyDigest: (string, Option<seq<byte>>, Option<seq<byte>>) -> bool)
    : (r: Result<ResultCieChecker, Failure>)
    ensures r.Ok? ==> r.value == OK
    ensures r.Ok? <==>
      && decodeSod(sodBytes).Ok?
      && AlgorithmAccepted(decodeSod(sodBytes).value.digestName)
      && decodeSod(sodBytes).value.expectedHashes.Some? && |decodeSod(sodBytes).value.expectedHashes.value| > 0
      && isVerifyDigest(decodeSod(sodBytes).value.digestName.value, dg1, Get(decodeSod(sodBytes).value.expectedHashes.value, 1))
      && isVerifyDigest(decodeSod(sodBytes).value.digestName.value, dg11, Get(decodeSod(sodBytes).value.expectedHashes.value, 11))
  {
    match decodeSod(sodBytes)
    case Err(e) => Err(e)
    case Ok(summary) =>
      var name := summary.digestName;
      if name.None? || IsBlank(name.value) then Err(CieCheckerException(KO_EXC_NO_HASH_ALGORITHM_SOD))
      else if name.value !in CompatibleAlgos then Err(CieCheckerException(KO_EXC_UNSUPPORTED_ALGORITHM_SOD))
      else if summary.expectedHashes.None? || |summary.expectedHashes.value| == 0 then
        Err(CieCheckerException(KO_EXC_NOTFOUND_EXPECTED_HASHES_SOD))
      else
        var hashes := summary.expectedHashes.value;
        match VerifyDigestList(name.value, dg1, hashes, 1, isVerifyDigest)
        case Some(code) => Err(CieCheckerException(code))
        case None =>
          match VerifyDigestList(name.value, dg11, hashes, 11, isVerifyDigest)
          case Some(code) => Err(CieCheckerException(code))
          case None => Ok(OK)
  }

  /** An algorithm outside SHA-1/256/384/512 is refused before any hash is
    * looked at, and so is an empty table of expected hashes. */
  lemma IntegrityRefusals(sodBytes: seq<byte>, dg1: Option<seq<byte>>, dg11: Option<seq<byte>>,
                          decodeSod: seq<byte> -> Result<SodSummary, Failure>,
                          isVerifyDigest: (string, Option<seq<byte>>, Option<seq<byte>>) -> bool)
    requires decodeSod(sodBytes).Ok?
    ensures var s := decodeSod(sodBytes).value;
      s.digestName.Some? && !IsBlank(s.digestName.value) && s.digestName.value !in CompatibleAlgos ==>
      VerifyIntegrityCore(sodBytes, dg1, dg11, decodeSod, isVerifyDigest) == Err(CieCheckerException(KO_EXC_UNSUPPORTED_ALGORITHM_SOD))
    ensures var s := decodeSod(sodBytes).value;
      AlgorithmAccepted(s.digestName) && s.expectedHashes == Some(map[]) ==>
      VerifyIntegrityCore(sodBytes, dg1, dg11, decodeSod, isVerifyDigest) == Err(CieCheckerException(KO_EXC_NOTFOUND_EXPECTED_HASHES_SOD))
  {
  }

  /** `verifyIntegrity`: a missing security object has its own code; a
    * checker exception keeps its code; any other exception becomes
    * `KO_EXC_DIGEST_NOT_VERIFIED`. */
  function VerifyIntegrity(sod: Option<seq<byte>>, dg1: Option<seq<byte>>, dg11: Option<seq<byte>>,
                           decodeSod: seq<byte> -> Result<SodSummary, Failure>,
                           isVerifyDigest: (string, Option<seq<byte>>, Option<seq<byte>>) -> bool)
    : (r: Result<ResultCieChecker, Failure>)
    ensures r.Err? ==> r.error.CieCheckerException?
    ensures sod.None? ==> r == Err(CieCheckerException(KO_EXC_NOTFOUND_MRTD_SOD))
    ensures sod.Some? ==> match VerifyIntegrityCore(sod.value, dg1, dg11, decodeSod, isVerifyDigest)
      case Ok(v) => r == Ok(v)
      case Err(CieCheckerException(code)) => r == Err(CieCheckerException(code))
      case Err(_) => r == Err(CieCheckerException(KO_EXC_DIGEST_NOT_VERIFIED))
  {
    if sod.None? then Err(CieCheckerException(KO_EXC_NOTFOUND_MRTD_SOD))
    else
      match VerifyIntegrityCore(sod.value, dg1, dg11, decodeSod, isVerifyDigest)
      case Ok(v) => Ok(v)
      case Err(CieCheckerException(code)) => Err(CieCheckerException(code))
      case Err(_) => Err(CieCheckerException(KO_EXC_DIGEST_NOT_VERIFIED))
  }

  // ---- validateMandate ----

  /** The collaborators of `validateMandate` that this model does not
    * interpret: the outcome of the IAS cryptographic checks (CMS parsing
    * of the IAS security object, its signature and trust chain, passive
    * authentication of the NIS, the nonce challenge), the outcome of
    * parsing and verifying the MRTD security object's signature, the
    * security-object decoder, the digest comparison, and the TLV values
    * read from DG11 and DG1. `None` is a step that passes. */
  datatype Collaborators = Collaborators(
    iasCrypto: Option<Failure>,
    mrtdSignature: Option<Failure>,
    decodeSod: seq<byte> -> Result<SodSummary, Failure>,
    isVerifyDigest: (string, Option<seq<byte>>, Option<seq<byte>>) -> bool,
    personalNumber: Result<string, Failure>,
    expiryElement: Result<string, Failure>)

  /** The collaborators raise checker exceptions only for failures: none
    * carries `OK`. */
  ghost predicate NeverThrowsOk(c: Collaborators) {
    && c.iasCrypto != Some(CieCheckerException(OK))
    && c.mrtdSignature != Some(CieCheckerException(OK))
    && (forall sod :: c.decodeSod(sod) != Err(CieCheckerException(OK)))
    && c.personalNumber != Err(CieCheckerException(OK))
    && c.expiryElement != Err(CieCheckerException(OK))
  }

  /** The result `validateMandate` returns for an exception it catches. */
  function ResultOf(f: Failure): (r: ResultCieChecker)
    ensures f.CieCheckerException? ==> r == f.result
    ensures f.CMSException? ==> r == KO_EXC_GENERATE_CMSSIGNEDDATA
    ensures f.RuntimeException? ==> r == KO
  {
    match f
    case CieCheckerException(result) => result
    case CMSException => KO_EXC_GENERATE_CMSSIGNEDDATA
    case RuntimeException => KO
  }

  /** The steps of `validateMandate`, in order, up to the first exception. */
  function Pipeline(data: CieValidationData?, today: Date, c: Collaborators): (r: Result<ResultCieChecker, Failure>)
    reads data, if data != null then {data.cieIas, data.cieMrtd} else {}
  {
    match ValidateDataInput(data)
    case Some(code) => Err(CieCheckerException(code))
    case None =>
      match TruncSodBytes(data.cieIas.sod.value)
      case Err(e) => Err(e)
      case Ok(_) =>
        if c.iasCrypto.Some? then Err(c.iasCrypto.value)
        else
          match TruncSodBytes(data.cieMrtd.sod.value)
          case Err(e) => Err(e)
          case Ok(mrtdSod) =>
            match VerifyIntegrity(Some(mrtdSod), data.cieMrtd.dg1, data.cieMrtd.dg11, c.decodeSod, c.isVerifyDigest)
            case Err(e) => Err(e)
            case Ok(_) =>
              if c.mrtdSignature.Some? then Err(c.mrtdSignature.value)
              else
                match VerifyCodFiscDelegante(data.codFiscDelegante.value, c.personalNumber)
                case Err(e) => Err(e)
                case Ok(_) => VerifyExpirationCie(c.expiryElement, today)
  }

  /** The result `validateMandate` returns: the expiry check's result, or the
    * result of the exception that stopped it. */
  function MandateOutcome(data: CieValidationData?, today: Date, c: Collaborators): (r: ResultCieChecker)
    reads data, if data != null then {data.cieIas, data.cieMrtd} else {}
  {
    match Pipeline(data, today, c)
    case Ok(result) => result
    case Err(f) => ResultOf(f)
  }

  /** Whether `validateMandate` reaches the point where it replaces the MRTD
    * security object with its truncation. */
  predicate TruncatesMrtdSod(data: CieValidationData?, c: Collaborators)
    reads data, if data != null then {data.cieIas, data.cieMrtd} else {}
  {
    ValidateDataInput(data).None? && |data.cieIas.sod.value| >= 4 && c.iasCrypto.None? && |data.cieMrtd.sod.value| >= 4
  }

  /** An accepted mandate has passed every step: complete input, the IAS and
    * MRTD cryptographic checks, matching digests, the delegator's tax code,
    * and an expiry date after today. */
  lemma AcceptedMeansAllChecksPassed(data: CieValidationData?, today: Date, c: Collaborators)
    requires NeverThrowsOk(c)
    requires MandateOutcome(data, today, c) == OK
    ensures InputComplete(data)
    ensures c.iasCrypto.None? && c.mrtdSignature.None?
    ensures |data.cieIas.sod.value| >= 4 && |data.cieMrtd.sod.value| >= 4
    ensures VerifyIntegrityCore(data.cieMrtd.sod.value[4..], data.cieMrtd.dg1, data.cieMrtd.dg11, c.decodeSod, c.isVerifyDigest) == Ok(OK)
    ensures c.personalNumber == Ok(data.codFiscDelegante.value)
    ensures VerifyExpirationCie(c.expiryElement, today) == Ok(OK)
  {

  }

  /** An incomplete input gives the code of its first failing check. */
  lemma IncompleteInputReported(data: CieValidationData?, today: Date, c: Collaborators)
    requires ValidateDataInput(data).Some?
    ensures MandateOutcome(data, today, c) == ValidateDataInput(data).value
  {
  }

  /** An IAS security object shorter than its 4-byte prefix is not a checker
    * exception: it ends in the generic `KO`. */
  lemma ShortIasSodGivesKo(data: CieValidationData?, today: Date, c: Collaborators)
    requires InputComplete(data) && |data.cieIas.sod.value| < 4
    ensures MandateOutcome(data, today, c) == KO
  {
  }

  /** `validateMandate`: runs the steps in order, replacing the MRTD security
    * object by its truncation on the way, and returns a result code for
    * every outcome: it never throws. */
  method ValidateMandate(data: CieValidationData?, today: Date, c: Collaborators) returns (r: ResultCieChecker)
    modifies if data != null && data.cieMrtd != null then {data.cieMrtd} else {}
    ensures r == old(MandateOutcome(data, today, c))
    ensures data != null && data.cieMrtd != null ==>
      data.cieMrtd.sod == (if old(TruncatesMrtdSod(data, c)) then Some(old(data.cieMrtd.sod.value[4..])) else old(data.cieMrtd.sod))
    ensures data != null && data.cieMrtd != null ==>
      data.cieMrtd.dg1 == old(data.cieMrtd.dg1) && data.cieMrtd.dg11 == old(data.cieMrtd.dg11)
  {
    var invalid := ValidateDataInput(data);
    if invalid.Some? {
      return ResultOf(CieCheckerException(invalid.value));
    }
    var iasSod := TruncSodBytes(data.cieIas.sod.value);
    if iasSod.Err? {
      return ResultOf(iasSod.error);
    }
    if c.iasCrypto.Some? {
      return ResultOf(c.iasCrypto.value);
    }
    var mrtdSod := TruncSodBytes(data.cieMrtd.sod.value);
    if mrtdSod.Err? {
      return ResultOf(mrtdSod.error);
    }
    data.cieMrtd.sod := Some(mrtdSod.value);
    var integrity := VerifyIntegrity(data.cieMrtd.sod, data.cieMrtd.dg1, data.cieMrtd.dg11, c.decodeSod, c.isVerifyDigest);
    if integrity.Err? {
      return ResultOf(integrity.error);
    }
    if c.mrtdSignature.Some? {
      return ResultOf(c.mrtdSignature.value);
    }
    var codFisc := VerifyCodFiscDelegante(data.codFiscDelegante.value, c.personalNumber);
    if codFisc.Err? {
      return ResultOf(codFisc.error);
    }
    var expiry := VerifyExpirationCie(c.expiryElement, today);
    if expiry.Err? {
      return ResultOf(expiry.error);
    }
    r := expiry.value;
  }
}
