/** The table that turns a non-OK result of the CIE checker into the
  * exception the mandate service raises: a verification-code error for a
  * nonce mismatch, an invalid-CIE-data error carrying one or two error
  * categories for the other registered results, and an internal error for
  * anything unregistered. */
module CieExceptionMapper {
  import opened Wrappers
  import opened CieResults

  /** The error categories an invalid-CIE-data error carries. */
  datatype CieErrorCategory =
    | CIE_INVALID_INPUT
    | CIE_SIGNATURE_ERROR
    | CIE_EXPIRED_ERROR
    | CIE_NOT_RELATED_TO_DELEGATOR_ERROR
    | CIE_INTEGRITY_ERROR
    | CIE_CHECKER_SERVER_ERROR

  /** The exceptions of the mandate service met while accepting a mandate
    * with a CIE; `OtherException` is any other throwable. */
  datatype MandateException =
    | PnCieInvalidVerificationCodeException(result: ResultCieChecker)
    | PnInvalidCieDataException(result: ResultCieChecker, errorCategories: seq<CieErrorCategory>)
    | PnInternalException(message: string, errorCode: string)
    | PnMandatePendingExpiredException
    | PnInvalidMandateStatusException
    | PnMandateNotFoundException
    | OtherException

  /** The results classified as integrity errors. */
  const IntegrityResults: set<ResultCieChecker> :=
    {KO_EXC_INVALID_PARAMETER_CIESOD, KO_EXC_INVALID_PARAMETER_CIENIS, KO_EXC_INVALID_PARAMETER_PUBLICKEY,
     KO_EXC_INVALID_PARAMETER_SIGNEDNONCE, KO_EXC_INVALID_PARAMETER_NONCE, KO_EXC_INVALID_PARAMETER_MRTDSOD,
     KO_EXC_INVALID_PARAMETER_MRTDDG1, KO_EXC_INVALID_PARAMETER_MRTDDG11,
     KO_EXC_INVALID_PARAMETER_CODFISCDELEGANTE, KO_EXC_NOTFOUND_CERTIFICATES, KO_EXC_NOTFOUND_CMSSIGNEDDATA,
     KO_EXC_GENERATE_CMSSIGNEDDATA, KO_EXC_NO_HASH_ALGORITHM_SOD, KO_EXC_NO_HASH_SIGNED_DATA,
     KO_EXC_NOTFOUND_EXPECTED_HASHES_SOD, KO_EXC_NOTFOUND_DIGEST_SOD, KO_EXC_NOTFOUND_MRTD_SOD,
     KO_EXC_EXTRACTION_PUBLICKEY, KO_EXC_NO_SIGNATURES_SIGNED_DATA, KO_EXC_NO_HASH_CONTENT_MATCH,
     KO_EXC_NO_SIGNED_ATTRIBUTE, KO_EXC_NO_MATCH_NIS_HASHES_DATAGROUP, KO_EXC_INVALID_CMSTYPEDDATA,
     KO_EXC_NO_CMSTYPEDDATA, KO_EXC_NO_NIS_HASHES_DATAGROUP, KO_EXC_ERROR_CREATE_VERIFIER,
     KO_EXC_ERROR_SOD_DECODE, KO_EXC_DECODER_ERROR, KO_EXC_NOFOUND_CODFISCALE_DG11,
     KO_EXC_NOFOUND_EXPIRE_DATE_DG1, KO_EXC_INVALID_EXPIRATIONDATE}

  /** The results classified as signature errors. */
  const SignatureResults: set<ResultCieChecker> :=
    {KO_EXC_CERTIFICATE_NOT_SIGNED, KO_EXC_NO_SIGNERINFORMATION, KO_EXC_PARSING_CERTIFICATION,
     KO_EXC_GENERATE_CERTIFICATE, KO_EXC_UNSUPPORTED_ALGORITHM_SOD, KO_EXC_GENERATE_PUBLICKEY,
     KO_EXC_INVALID_CRYPTOGRAPHIC_OPERATION, KO_EXC_NO_MESSAGEDIGESTSPI_SUPPORTED,
     KO_EXC_NOVALID_DIGITAL_SIGNATURE, KO_EXC_NOT_SAME_DIGEST1, KO_EXC_NOT_SAME_DIGEST11,
     KO_EXC_DIGEST_NOT_VERIFIED, KO_EXC_INVALID_VERIFIER, KO_EXC_INVALID_SIGNATURE}

  /** The results classified as both signature and integrity errors. */
  const SignatureAndIntegrityResults: set<ResultCieChecker> :=
    {KO_EXC_VALIDATE_CERTIFICATE, KO_EXC_NO_SUPPORTED_CERTIFICATEPATHVALIDATOR,
     KO_EXC_INVALID_PARAMETER_CERTPATHVALIDATOR, KO_EXC_NO_SIGNERINFORMATIONSTORE}

  /** The results classified as invalid input. */
  const InvalidInputResults: set<ResultCieChecker> :=
    {KO_EXC_INVALID_ALGORITHM, KO_EXC_INVALID_PUBLICKEY}

  /** The categories an invalid-CIE-data error carries for each result,
    * category by category; empty for the results that do not raise one. */
  function Categories(r: ResultCieChecker): (cs: seq<CieErrorCategory>)
    ensures CIE_CHECKER_SERVER_ERROR !in cs
  {
    if r == KO_EXC_EXPIRATIONDATE then [CIE_EXPIRED_ERROR]
    else if r == KO_EXC_CODFISCALE_NOT_VERIFIED then [CIE_NOT_RELATED_TO_DELEGATOR_ERROR]
    else if r in InvalidInputResults then [CIE_INVALID_INPUT]
    else if r in SignatureAndIntegrityResults then [CIE_SIGNATURE_ERROR, CIE_INTEGRITY_ERROR]
    else if r in SignatureResults then [CIE_SIGNATURE_ERROR]
    else if r in IntegrityResults then [CIE_INTEGRITY_ERROR]
    else []
  }

  /** The results left out of the table: success, the generic failure,
    * and the two codes the cleaning and input checks use internally. */
  const UnmappedResults: set<ResultCieChecker> := {OK, KO, KO_EXC_INPUT_PARAMETER_NULL, KO_EXC_CLEANING}

  /** The internal error for a result with no registration. */
  function ServerError(result: ResultCieChecker): (e: MandateException)
    ensures e.PnInternalException? && e.errorCode == "CIE_CHECKER_SERVER_ERROR"
  {
    PnInternalException("CIE Checker server error for code: " + Name(result), "CIE_CHECKER_SERVER_ERROR")
  }

  /** The exception the table registers for a result it maps: a nonce
    * mismatch is a verification-code error, any other result an
    * invalid-CIE-data error with its categories. */
  function Classified(r: ResultCieChecker): (e: MandateException)
    ensures e.PnCieInvalidVerificationCodeException? || e.PnInvalidCieDataException?
  {
    if r == KO_EXC_NO_MATCH_NONCE_SIGNATURE then PnCieInvalidVerificationCodeException(r)
    else PnInvalidCieDataException(r, Categories(r))
  }

  /** Every result but the unmapped ones and the nonce mismatch has one or
    * two categories. */
  lemma CategoriesPresent(r: ResultCieChecker)
    requires r !in UnmappedResults && r != KO_EXC_NO_MATCH_NONCE_SIGNATURE
    ensures 1 <= |Categories(r)| <= 2
  {
  }

  /** One call of `buildExceptionMap`: a `putCustomException` with its
    * exception, or a `putInvalidCieDataException` with its categories. */
  datatype Registration =
    | Custom(result: ResultCieChecker, exception: MandateException)
    | InvalidCieData(result: ResultCieChecker, categories: seq<CieErrorCategory>)

  /** The exception a registration stores. */
  function Registered(row: Registration): (e: MandateException)
    ensures row.InvalidCieData? ==> e == PnInvalidCieDataException(row.result, row.categories)
  {
    match row
    case Custom(_, e) => e
    case InvalidCieData(r, cs) => PnInvalidCieDataException(r, cs)
  }

  const RowCount: nat := 54

  /** The registrations of `buildExceptionMap`, in source order: row `i`
    * is its `i`-th call. */
  function Row(i: nat): (row: Registration)
    requires i < RowCount
  {
    match i
    case 0 => Custom(KO_EXC_NO_MATCH_NONCE_SIGNATURE, PnCieInvalidVerificationCodeException(KO_EXC_NO_MATCH_NONCE_SIGNATURE))
    case 1 => InvalidCieData(KO_EXC_INVALID_PARAMETER_CIESOD, [CIE_INTEGRITY_ERROR])
    case 2 => InvalidCieData(KO_EXC_INVALID_PARAMETER_CIENIS, [CIE_INTEGRITY_ERROR])
    case 3 => InvalidCieData(KO_EXC_INVALID_PARAMETER_PUBLICKEY, [CIE_INTEGRITY_ERROR])
    case 4 => InvalidCieData(KO_EXC_INVALID_PARAMETER_SIGNEDNONCE, [CIE_INTEGRITY_ERROR])
    case 5 => InvalidCieData(KO_EXC_INVALID_PARAMETER_NONCE, [CIE_INTEGRITY_ERROR])
    case 6 => InvalidCieData(KO_EXC_INVALID_PARAMETER_MRTDSOD, [CIE_INTEGRITY_ERROR])
    case 7 => InvalidCieData(KO_EXC_INVALID_PARAMETER_MRTDDG1, [CIE_INTEGRITY_ERROR])
    case 8 => InvalidCieData(KO_EXC_INVALID_PARAMETER_MRTDDG11, [CIE_INTEGRITY_ERROR])
    case 9 => InvalidCieData(KO_EXC_INVALID_PARAMETER_CODFISCDELEGANTE, [CIE_INTEGRITY_ERROR])
    case 10 => InvalidCieData(KO_EXC_NOTFOUND_CERTIFICATES, [CIE_INTEGRITY_ERROR])
    case 11 => InvalidCieData(KO_EXC_NOTFOUND_CMSSIGNEDDATA, [CIE_INTEGRITY_ERROR])
    case 12 => InvalidCieData(KO_EXC_CERTIFICATE_NOT_SIGNED, [CIE_SIGNATURE_ERROR])
    case 13 => InvalidCieData(KO_EXC_NO_SIGNERINFORMATION, [CIE_SIGNATURE_ERROR])
    case 14 => InvalidCieData(KO_EXC_PARSING_CERTIFICATION, [CIE_SIGNATURE_ERROR])
    case 15 => InvalidCieData(KO_EXC_GENERATE_CERTIFICATE, [CIE_SIGNATURE_ERROR])
    case 16 => InvalidCieData(KO_EXC_GENERATE_CMSSIGNEDDATA, [CIE_INTEGRITY_ERROR])
    case 17 => InvalidCieData(KO_EXC_VALIDATE_CERTIFICATE, [CIE_SIGNATURE_ERROR, CIE_INTEGRITY_ERROR])
    case 18 => InvalidCieData(KO_EXC_NO_SUPPORTED_CERTIFICATEPATHVALIDATOR, [CIE_SIGNATURE_ERROR, CIE_INTEGRITY_ERROR])
    case 19 => InvalidCieData(KO_EXC_INVALID_PARAMETER_CERTPATHVALIDATOR, [CIE_SIGNATURE_ERROR, CIE_INTEGRITY_ERROR])
    case 20 => InvalidCieData(KO_EXC_NO_HASH_ALGORITHM_SOD, [CIE_INTEGRITY_ERROR])
    case 21 => InvalidCieData(KO_EXC_NO_HASH_SIGNED_DATA, [CIE_INTEGRITY_ERROR])
    case 22 => InvalidCieData(KO_EXC_UNSUPPORTED_ALGORITHM_SOD, [CIE_SIGNATURE_ERROR])
    case 23 => InvalidCieData(KO_EXC_NOTFOUND_EXPECTED_HASHES_SOD, [CIE_INTEGRITY_ERROR])
    case 24 => InvalidCieData(KO_EXC_NOTFOUND_DIGEST_SOD, [CIE_INTEGRITY_ERROR])
    case 25 => InvalidCieData(KO_EXC_NOTFOUND_MRTD_SOD, [CIE_INTEGRITY_ERROR])
    case 26 => InvalidCieData(KO_EXC_GENERATE_PUBLICKEY, [CIE_SIGNATURE_ERROR])
    case 27 => InvalidCieData(KO_EXC_EXTRACTION_PUBLICKEY, [CIE_INTEGRITY_ERROR])
    case 28 => InvalidCieData(KO_EXC_INVALID_CRYPTOGRAPHIC_OPERATION, [CIE_SIGNATURE_ERROR])
    case 29 => InvalidCieData(KO_EXC_NO_SIGNATURES_SIGNED_DATA, [CIE_INTEGRITY_ERROR])
    case 30 => InvalidCieData(KO_EXC_NO_SIGNERINFORMATIONSTORE, [CIE_SIGNATURE_ERROR, CIE_INTEGRITY_ERROR])
    case 31 => InvalidCieData(KO_EXC_NO_MESSAGEDIGESTSPI_SUPPORTED, [CIE_SIGNATURE_ERROR])
    case 32 => InvalidCieData(KO_EXC_NO_HASH_CONTENT_MATCH, [CIE_INTEGRITY_ERROR])
    case 33 => InvalidCieData(KO_EXC_NO_SIGNED_ATTRIBUTE, [CIE_INTEGRITY_ERROR])
    case 34 => InvalidCieData(KO_EXC_NO_MATCH_NIS_HASHES_DATAGROUP, [CIE_INTEGRITY_ERROR])
    case 35 => InvalidCieData(KO_EXC_INVALID_CMSTYPEDDATA, [CIE_INTEGRITY_ERROR])
    case 36 => InvalidCieData(KO_EXC_NO_CMSTYPEDDATA, [CIE_INTEGRITY_ERROR])
    case 37 => InvalidCieData(KO_EXC_NO_NIS_HASHES_DATAGROUP, [CIE_INTEGRITY_ERROR])
    case 38 => InvalidCieData(KO_EXC_ERROR_CREATE_VERIFIER, [CIE_INTEGRITY_ERROR])
    case 39 => InvalidCieData(KO_EXC_NOVALID_DIGITAL_SIGNATURE, [CIE_SIGNATURE_ERROR])
    case 40 => InvalidCieData(KO_EXC_NOT_SAME_DIGEST1, [CIE_SIGNATURE_ERROR])
    case 41 => InvalidCieData(KO_EXC_NOT_SAME_DIGEST11, [CIE_SIGNATURE_ERROR])
    case 42 => InvalidCieData(KO_EXC_DIGEST_NOT_VERIFIED, [CIE_SIGNATURE_ERROR])
    case 43 => InvalidCieData(KO_EXC_ERROR_SOD_DECODE, [CIE_INTEGRITY_ERROR])
    case 44 => InvalidCieData(KO_EXC_INVALID_VERIFIER, [CIE_SIGNATURE_ERROR])
    case 45 => InvalidCieData(KO_EXC_INVALID_SIGNATURE, [CIE_SIGNATURE_ERROR])
    case 46 => InvalidCieData(KO_EXC_INVALID_ALGORITHM, [CIE_INVALID_INPUT])
    case 47 => InvalidCieData(KO_EXC_INVALID_PUBLICKEY, [CIE_INVALID_INPUT])
    case 48 => InvalidCieData(KO_EXC_DECODER_ERROR, [CIE_INTEGRITY_ERROR])
    case 49 => InvalidCieData(KO_EXC_NOFOUND_CODFISCALE_DG11, [CIE_INTEGRITY_ERROR])
    case 50 => InvalidCieData(KO_EXC_NOFOUND_EXPIRE_DATE_DG1, [CIE_INTEGRITY_ERROR])
    case 51 => InvalidCieData(KO_EXC_INVALID_EXPIRATIONDATE, [CIE_INTEGRITY_ERROR])
    case 52 => InvalidCieData(KO_EXC_EXPIRATIONDATE, [CIE_EXPIRED_ERROR])
    case _ => InvalidCieData(KO_EXC_CODFISCALE_NOT_VERIFIED, [CIE_NOT_RELATED_TO_DELEGATOR_ERROR])
  }

  /** Row `i` registers the constant declared at position `i + 4`, with
    * the exception the classification gives it. */
  predicate RowFits(i: nat)
    requires i < RowCount
  {
    Row(i).result as int == i + 4 && Registered(Row(i)) == Classified(Row(i).result)
  }

  // The table is checked nine rows at a time, which keeps each proof small.

  lemma RowsFit0To9()
    ensures forall i | 0 <= i < 9 :: RowFits(i)
  {
  }

  lemma RowsFit9To18()
    ensures forall i | 9 <= i < 18 :: RowFits(i)
  {
  }

  lemma RowsFit18To27()
    ensures forall i | 18 <= i < 27 :: RowFits(i)
  {
  }

  lemma RowsFit27To36()
    ensures forall i | 27 <= i < 36 :: RowFits(i)
  {
  }

  lemma RowsFit36To45()
    ensures forall i | 36 <= i < 45 :: RowFits(i)
  {
  }

  lemma RowsFit45To54()
    ensures forall i | 45 <= i < 54 :: RowFits(i)
  {
  }

  /** Every row fits: the rows register the constants after the first four
    * in declaration order, so no result is registered twice. */
  lemma RowsFit()
    ensures forall i | 0 <= i < RowCount :: RowFits(i)
  {
    RowsFit0To9();
    RowsFit9To18();
    RowsFit18To27();
    RowsFit27To36();
    RowsFit36To45();
    RowsFit45To54();
  }

  /** What the loop of `buildExceptionMap` needs of its current row. */
  lemma RowFitsAt(i: nat)
    requires i < RowCount
    ensures RowFits(i)
  {
    RowsFit();
  }

  /** The unmapped results are the first four constants. */
  lemma UnmappedAreFirst(r: ResultCieChecker)
    ensures r in UnmappedResults <==> r < 4
  {
  }

  /** Registering all rows registers every result but the unmapped ones. */
  lemma AllRowsRegistered(keys: set<ResultCieChecker>)
    requires forall x :: x in keys <==> 4 <= x as int < RowCount + 4
    ensures forall x :: x in keys <==> x !in UnmappedResults
  {
    forall x
      ensures x in keys <==> x !in UnmappedResults
    {
      UnmappedAreFirst(x);
    }
  }

  /** Every registered exception is the one the classification gives. */
  ghost predicate AllClassified(m: map<ResultCieChecker, MandateException>)
  {
    forall x :: x in m ==> m[x] == Classified(x)
  }

  /** Registering a row whose exception is the classified one keeps the
    * map classified. */
  lemma RegisteringKeepsClassified(m: map<ResultCieChecker, MandateException>, row: Registration)
    requires AllClassified(m) && Registered(row) == Classified(row.result)
    ensures AllClassified(m[row.result := Registered(row)])
  {
  }

  /** The mapper: the registered suppliers, keyed by result. */
  class ExceptionMapper {
    var resultToException: map<ResultCieChecker, MandateException>

    /** The state the constructor leaves: exactly the results outside
      * `UnmappedResults` are registered, each as the classification says. */
    ghost predicate Built()
      reads this
    {
      && (forall r :: r in resultToException <==> r !in UnmappedResults)
      && AllClassified(resultToException)
    }

    /** `putCustomException`: refuses (`thrown`, the `IllegalStateException`)
      * a result that is already registered, otherwise registers it. */
    method PutCustomException(result: ResultCieChecker, exception: MandateException) returns (thrown: bool)
      modifies this
      ensures thrown <==> result in old(resultToException)
      ensures resultToException == if thrown then old(resultToException) else old(resultToException)[result := exception]
    {
      if result in resultToException {
        return true;
      }
      resultToException := resultToException[result := exception];
      thrown := false;
    }

    /** `putInvalidCieDataException`: registers an invalid-CIE-data error
      * carrying the given categories. */
    method PutInvalidCieDataException(result: ResultCieChecker, categories: seq<CieErrorCategory>) returns (thrown: bool)
      modifies this
      ensures thrown <==> result in old(resultToException)
      ensures resultToException ==
        if thrown then old(resultToException) else old(resultToException)[result := PnInvalidCieDataException(result, categories)]
    {
      thrown := PutCustomException(result, PnInvalidCieDataException(result, categories));
    }

    /** Row `i` of the table, with what the proof needs of it. */
    static method RowAt(i: nat) returns (row: Registration)
      requires i < RowCount
      ensures row == Row(i)
      ensures row.result as int == i + 4 && Registered(row) == Classified(row.result)
    {
      row := Row(i);
      RowFitsAt(i);
    }

    /** `buildExceptionMap`: the registrations, in order; none is refused,
      * so the constructor never throws. */
    method BuildExceptionMap() returns (thrown: bool)
      modifies this
      requires resultToException == map[]
      ensures !thrown && Built()
    {
      thrown := false;
      var i := 0;
      while i < RowCount
        invariant 0 <= i <= RowCount && !thrown
        invariant forall x :: x in resultToException <==> 4 <= x as int < i + 4
        invariant AllClassified(resultToException)
        decreases RowCount - i
      {
        var row := RowAt(i);
        RegisteringKeepsClassified(resultToException, row);
        if row.Custom? {
          thrown := PutCustomException(row.result, row.exception);
        } else {
          thrown := PutInvalidCieDataException(row.result, row.categories);
        }
        i := i + 1;
      }
      AllRowsRegistered(resultToException.Keys);
    }

    /** The constructor builds the table. */
    constructor ()
      ensures Built()
    {
      resultToException := map[];
      new;
      var thrown := BuildExceptionMap();
    }

    /** `mapToException`: the registered exception, or an internal server
      * error naming the result. */
    function MapToException(result: ResultCieChecker): (e: MandateException)
      reads this
      ensures result !in resultToException ==> e == ServerError(result)
      ensures result in resultToException ==> e == resultToException[result]
    {
      if result in resultToException then resultToException[result] else ServerError(result)
    }
  }

  /** A built mapper classifies every result as the table says, and maps
    * exactly the unmapped results to an internal server error. */
  lemma MapperClassifies(m: ExceptionMapper, r: ResultCieChecker)
    requires m.Built()
    ensures r in UnmappedResults ==> m.MapToException(r) == ServerError(r)
    ensures r !in UnmappedResults ==> m.MapToException(r) == Classified(r)
    ensures r in UnmappedResults <==> m.MapToException(r).PnInternalException?
  {
  }

  /** The three named cases: a nonce mismatch is a verification-code error,
    * an expired card is `CIE_EXPIRED_ERROR`, a tax-code mismatch is
    * `CIE_NOT_RELATED_TO_DELEGATOR_ERROR`. */
  lemma NamedCases()
    ensures Classified(KO_EXC_NO_MATCH_NONCE_SIGNATURE) == PnCieInvalidVerificationCodeException(KO_EXC_NO_MATCH_NONCE_SIGNATURE)
    ensures Classified(KO_EXC_EXPIRATIONDATE) == PnInvalidCieDataException(KO_EXC_EXPIRATIONDATE, [CIE_EXPIRED_ERROR])
    ensures Classified(KO_EXC_CODFISCALE_NOT_VERIFIED)
            == PnInvalidCieDataException(KO_EXC_CODFISCALE_NOT_VERIFIED, [CIE_NOT_RELATED_TO_DELEGATOR_ERROR])
  {
  }
}
