/** The analysis of the CIE checker's verdict when a mandate is accepted:
  * success returns, anything else raises the mapper's exception, and the
  * acceptance code reported for that exception follows from the result. */
module CieResultAnalyzer {
  import opened Wrappers
  import opened CieResults
  import opened CieExceptionMapper
  import opened CieAcceptanceErrorCategory
  import MandateUtils

  /** The error raised when the checker returns no result at all. */
  const NullResultError: MandateException :=
    PnInternalException("CIE Checker returned a null result", "CIE_CHECKER_NULL_RESULT")

  /** `analyzeResult`: `None` when it returns normally, otherwise the
    * exception it throws. A null result is an internal error, OK returns,
    * and every other result throws what the mapper maps it to. */
  function AnalyzeResult(mapper: ExceptionMapper, checkerResult: Option<ResultCieChecker>): (thrown: Option<MandateException>)
    reads mapper
    ensures thrown.None? <==> checkerResult == Some(OK)
    ensures checkerResult.None? ==> thrown == Some(NullResultError)
    ensures checkerResult.Some? && checkerResult.value != OK ==>
      thrown == Some(mapper.MapToException(checkerResult.value))
  {
    if checkerResult.None? then Some(NullResultError)
    else if checkerResult.value == OK then None
    else Some(mapper.MapToException(checkerResult.value))
  }

  /** With the mapper the constructor builds, a failed check raises a
    * verification-code error exactly for a nonce mismatch, an internal error
    * exactly for a null result or an unregistered one, and an
    * invalid-CIE-data error carrying the result's categories otherwise. */
  lemma AnalyzeResultClassifies(mapper: ExceptionMapper, r: Option<ResultCieChecker>)
    requires mapper.Built()
    requires r != Some(OK)
    ensures AnalyzeResult(mapper, r).Some?
    ensures AnalyzeResult(mapper, r).value.PnInternalException? <==> r.None? || r.value in UnmappedResults
    ensures AnalyzeResult(mapper, r).value.PnCieInvalidVerificationCodeException? <==>
      r == Some(KO_EXC_NO_MATCH_NONCE_SIGNATURE)
    ensures r.Some? && r.value !in UnmappedResults && r.value != KO_EXC_NO_MATCH_NONCE_SIGNATURE ==>
      AnalyzeResult(mapper, r).value == PnInvalidCieDataException(r.value, Categories(r.value))
  {
    if r.Some? {
      MapperClassifies(mapper, r.value);
    }
  }

  /** The acceptance code reported for what `analyzeResult` throws. */
  function AcceptanceCode(mapper: ExceptionMapper, r: Option<ResultCieChecker>): (code: string)
    reads mapper
    requires r != Some(OK)
  {
    FromThrowable(AnalyzeResult(mapper, r).value)
  }

  /** A null or unregistered result is a technical failure, a nonce mismatch
    * an anti-cloning failure, an expired card FR02 and a tax-code mismatch
    * FR03. */
  lemma AcceptanceCodeOfNamedResults(mapper: ExceptionMapper, r: Option<ResultCieChecker>)
    requires mapper.Built()
    requires r != Some(OK)
    ensures r.None? || r.value in UnmappedResults ==> AcceptanceCode(mapper, r) == "TECH"
    ensures r == Some(KO_EXC_NO_MATCH_NONCE_SIGNATURE) ==> AcceptanceCode(mapper, r) == "FR01"
    ensures r == Some(KO_EXC_EXPIRATIONDATE) ==> AcceptanceCode(mapper, r) == "FR02"
    ensures r == Some(KO_EXC_CODFISCALE_NOT_VERIFIED) ==> AcceptanceCode(mapper, r) == "FR03"
  {
    AnalyzeResultClassifies(mapper, r);
    if r.Some? {
      MapperClassifies(mapper, r.value);
      if r.value == KO_EXC_NO_MATCH_NONCE_SIGNATURE {
        assert CodesOf([CIE_SIGNATURE_ERROR]) == ["FR01"];
      } else if r.value == KO_EXC_EXPIRATIONDATE {
        assert CodesOf([CIE_EXPIRED_ERROR]) == ["FR02"];
      } else if r.value == KO_EXC_CODFISCALE_NOT_VERIFIED {
        assert CodesOf([CIE_NOT_RELATED_TO_DELEGATOR_ERROR]) == ["FR03"];
      }
    }
  }

  /** Every other registered result reports the codes of its categories,
    * each once, and never a technical failure. */
  lemma AcceptanceCodeOfDataErrors(mapper: ExceptionMapper, r: ResultCieChecker)
    requires mapper.Built()
    requires r !in UnmappedResults && r != KO_EXC_NO_MATCH_NONCE_SIGNATURE
    ensures MandateUtils.Split(AcceptanceCode(mapper, Some(r)), ',') == Distinct(CodesOf(Categories(r)))
    ensures "TECH" !in MandateUtils.Split(AcceptanceCode(mapper, Some(r)), ',')
  {
    AnalyzeResultClassifies(mapper, Some(r));
    CategoriesPresent(r);
    var e := PnInvalidCieDataException(r, Categories(r));
    assert ErrorCategories(e) == Categories(r);
    FromThrowableOfInvalidCieData(e);
  }
}
