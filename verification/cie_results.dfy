/** The outcome codes of the CIE checker (`ResultCieChecker`): `OK`, the
  * generic `KO`, and one `KO_EXC_*` code per check that can fail. The
  * constant names are those of the Java enum. */
module CieResults {

  /** The enum's constants, each standing for its ordinal (the position
    * of its declaration). */
  newtype ResultCieChecker = n: int | 0 <= n < 58

  const OK: ResultCieChecker := 0
  const KO: ResultCieChecker := 1
  const KO_EXC_INPUT_PARAMETER_NULL: ResultCieChecker := 2
  const KO_EXC_CLEANING: ResultCieChecker := 3
  const KO_EXC_NO_MATCH_NONCE_SIGNATURE: ResultCieChecker := 4
  const KO_EXC_INVALID_PARAMETER_CIESOD: ResultCieChecker := 5
  const KO_EXC_INVALID_PARAMETER_CIENIS: ResultCieChecker := 6
  const KO_EXC_INVALID_PARAMETER_PUBLICKEY: ResultCieChecker := 7
  const KO_EXC_INVALID_PARAMETER_SIGNEDNONCE: ResultCieChecker := 8
  const KO_EXC_INVALID_PARAMETER_NONCE: ResultCieChecker := 9
  const KO_EXC_INVALID_PARAMETER_MRTDSOD: ResultCieChecker := 10
  const KO_EXC_INVALID_PARAMETER_MRTDDG1: ResultCieChecker := 11
  const KO_EXC_INVALID_PARAMETER_MRTDDG11: ResultCieChecker := 12
  const KO_EXC_INVALID_PARAMETER_CODFISCDELEGANTE: ResultCieChecker := 13
  const KO_EXC_NOTFOUND_CERTIFICATES: ResultCieChecker := 14
  const KO_EXC_NOTFOUND_CMSSIGNEDDATA: ResultCieChecker := 15
  const KO_EXC_CERTIFICATE_NOT_SIGNED: ResultCieChecker := 16
  const KO_EXC_NO_SIGNERINFORMATION: ResultCieChecker := 17
  const KO_EXC_PARSING_CERTIFICATION: ResultCieChecker := 18
  const KO_EXC_GENERATE_CERTIFICATE: ResultCieChecker := 19
  const KO_EXC_GENERATE_CMSSIGNEDDATA: ResultCieChecker := 20
  const KO_EXC_VALIDATE_CERTIFICATE: ResultCieChecker := 21
  const KO_EXC_NO_SUPPORTED_CERTIFICATEPATHVALIDATOR: ResultCieChecker := 22
  const KO_EXC_INVALID_PARAMETER_CERTPATHVALIDATOR: ResultCieChecker := 23
  const KO_EXC_NO_HASH_ALGORITHM_SOD: ResultCieChecker := 24
  const KO_EXC_NO_HASH_SIGNED_DATA: ResultCieChecker := 25
  const KO_EXC_UNSUPPORTED_ALGORITHM_SOD: ResultCieChecker := 26
  const KO_EXC_NOTFOUND_EXPECTED_HASHES_SOD: ResultCieChecker := 27
  const KO_EXC_NOTFOUND_DIGEST_SOD: ResultCieChecker := 28
  const KO_EXC_NOTFOUND_MRTD_SOD: ResultCieChecker := 29
  const KO_EXC_GENERATE_PUBLICKEY: ResultCieChecker := 30
  const KO_EXC_EXTRACTION_PUBLICKEY: ResultCieChecker := 31
  const KO_EXC_INVALID_CRYPTOGRAPHIC_OPERATION: ResultCieChecker := 32
  const KO_EXC_NO_SIGNATURES_SIGNED_DATA: ResultCieChecker := 33
  const KO_EXC_NO_SIGNERINFORMATIONSTORE: ResultCieChecker := 34
  const KO_EXC_NO_MESSAGEDIGESTSPI_SUPPORTED: ResultCieChecker := 35
  const KO_EXC_NO_HASH_CONTENT_MATCH: ResultCieChecker := 36
  const KO_EXC_NO_SIGNED_ATTRIBUTE: ResultCieChecker := 37
  const KO_EXC_NO_MATCH_NIS_HASHES_DATAGROUP: ResultCieChecker := 38
  const KO_EXC_INVALID_CMSTYPEDDATA: ResultCieChecker := 39
  const KO_EXC_NO_CMSTYPEDDATA: ResultCieChecker := 40
  const KO_EXC_NO_NIS_HASHES_DATAGROUP: ResultCieChecker := 41
  const KO_EXC_ERROR_CREATE_VERIFIER: ResultCieChecker := 42
  const KO_EXC_NOVALID_DIGITAL_SIGNATURE: ResultCieChecker := 43
  const KO_EXC_NOT_SAME_DIGEST1: ResultCieChecker := 44
  const KO_EXC_NOT_SAME_DIGEST11: ResultCieChecker := 45
  const KO_EXC_DIGEST_NOT_VERIFIED: ResultCieChecker := 46
  const KO_EXC_ERROR_SOD_DECODE: ResultCieChecker := 47
  const KO_EXC_INVALID_VERIFIER: ResultCieChecker := 48
  const KO_EXC_INVALID_SIGNATURE: ResultCieChecker := 49
  const KO_EXC_INVALID_ALGORITHM: ResultCieChecker := 50
  const KO_EXC_INVALID_PUBLICKEY: ResultCieChecker := 51
  const KO_EXC_DECODER_ERROR: ResultCieChecker := 52
  const KO_EXC_NOFOUND_CODFISCALE_DG11: ResultCieChecker := 53
  const KO_EXC_NOFOUND_EXPIRE_DATE_DG1: ResultCieChecker := 54
  const KO_EXC_INVALID_EXPIRATIONDATE: ResultCieChecker := 55
  const KO_EXC_EXPIRATIONDATE: ResultCieChecker := 56
  const KO_EXC_CODFISCALE_NOT_VERIFIED: ResultCieChecker := 57

  /** The constant's name, as `Enum.name()` gives it. */
  function Name(r: ResultCieChecker): string
  {
    if r == OK then "OK"
    else if r == KO then "KO"
    else if r == KO_EXC_INPUT_PARAMETER_NULL then "KO_EXC_INPUT_PARAMETER_NULL"
    else if r == KO_EXC_CLEANING then "KO_EXC_CLEANING"
    else if r == KO_EXC_NO_MATCH_NONCE_SIGNATURE then "KO_EXC_NO_MATCH_NONCE_SIGNATURE"
    else if r == KO_EXC_INVALID_PARAMETER_CIESOD then "KO_EXC_INVALID_PARAMETER_CIESOD"
    else if r == KO_EXC_INVALID_PARAMETER_CIENIS then "KO_EXC_INVALID_PARAMETER_CIENIS"
    else if r == KO_EXC_INVALID_PARAMETER_PUBLICKEY then "KO_EXC_INVALID_PARAMETER_PUBLICKEY"
    else if r == KO_EXC_INVALID_PARAMETER_SIGNEDNONCE then "KO_EXC_INVALID_PARAMETER_SIGNEDNONCE"
    else if r == KO_EXC_INVALID_PARAMETER_NONCE then "KO_EXC_INVALID_PARAMETER_NONCE"
    else if r == KO_EXC_INVALID_PARAMETER_MRTDSOD then "KO_EXC_INVALID_PARAMETER_MRTDSOD"
    else if r == KO_EXC_INVALID_PARAMETER_MRTDDG1 then "KO_EXC_INVALID_PARAMETER_MRTDDG1"
    else if r == KO_EXC_INVALID_PARAMETER_MRTDDG11 then "KO_EXC_INVALID_PARAMETER_MRTDDG11"
    else if r == KO_EXC_INVALID_PARAMETER_CODFISCDELEGANTE then "KO_EXC_INVALID_PARAMETER_CODFISCDELEGANTE"
    else if r == KO_EXC_NOTFOUND_CERTIFICATES then "KO_EXC_NOTFOUND_CERTIFICATES"
    else if r == KO_EXC_NOTFOUND_CMSSIGNEDDATA then "KO_EXC_NOTFOUND_CMSSIGNEDDATA"
    else if r == KO_EXC_CERTIFICATE_NOT_SIGNED then "KO_EXC_CERTIFICATE_NOT_SIGNED"
    else if r == KO_EXC_NO_SIGNERINFORMATION then "KO_EXC_NO_SIGNERINFORMATION"
    else if r == KO_EXC_PARSING_CERTIFICATION then "KO_EXC_PARSING_CERTIFICATION"
    else if r == KO_EXC_GENERATE_CERTIFICATE then "KO_EXC_GENERATE_CERTIFICATE"
    else if r == KO_EXC_GENERATE_CMSSIGNEDDATA then "KO_EXC_GENERATE_CMSSIGNEDDATA"
    else if r == KO_EXC_VALIDATE_CERTIFICATE then "KO_EXC_VALIDATE_CERTIFICATE"
    else if r == KO_EXC_NO_SUPPORTED_CERTIFICATEPATHVALIDATOR then "KO_EXC_NO_SUPPORTED_CERTIFICATEPATHVALIDATOR"
    else if r == KO_EXC_INVALID_PARAMETER_CERTPATHVALIDATOR then "KO_EXC_INVALID_PARAMETER_CERTPATHVALIDATOR"
    else if r == KO_EXC_NO_HASH_ALGORITHM_SOD then "KO_EXC_NO_HASH_ALGORITHM_SOD"
    else if r == KO_EXC_NO_HASH_SIGNED_DATA then "KO_EXC_NO_HASH_SIGNED_DATA"
    else if r == KO_EXC_UNSUPPORTED_ALGORITHM_SOD then "KO_EXC_UNSUPPORTED_ALGORITHM_SOD"
    else if r == KO_EXC_NOTFOUND_EXPECTED_HASHES_SOD then "KO_EXC_NOTFOUND_EXPECTED_HASHES_SOD"
    else if r == KO_EXC_NOTFOUND_DIGEST_SOD then "KO_EXC_NOTFOUND_DIGEST_SOD"
    else if r == KO_EXC_NOTFOUND_MRTD_SOD then "KO_EXC_NOTFOUND_MRTD_SOD"
    else if r == KO_EXC_GENERATE_PUBLICKEY then "KO_EXC_GENERATE_PUBLICKEY"
    else if r == KO_EXC_EXTRACTION_PUBLICKEY then "KO_EXC_EXTRACTION_PUBLICKEY"
    else if r == KO_EXC_INVALID_CRYPTOGRAPHIC_OPERATION then "KO_EXC_INVALID_CRYPTOGRAPHIC_OPERATION"
    else if r == KO_EXC_NO_SIGNATURES_SIGNED_DATA then "KO_EXC_NO_SIGNATURES_SIGNED_DATA"
    else if r == KO_EXC_NO_SIGNERINFORMATIONSTORE then "KO_EXC_NO_SIGNERINFORMATIONSTORE"
    else if r == KO_EXC_NO_MESSAGEDIGESTSPI_SUPPORTED then "KO_EXC_NO_MESSAGEDIGESTSPI_SUPPORTED"
    else if r == KO_EXC_NO_HASH_CONTENT_MATCH then "KO_EXC_NO_HASH_CONTENT_MATCH"
    else if r == KO_EXC_NO_SIGNED_ATTRIBUTE then "KO_EXC_NO_SIGNED_ATTRIBUTE"
    else if r == KO_EXC_NO_MATCH_NIS_HASHES_DATAGROUP then "KO_EXC_NO_MATCH_NIS_HASHES_DATAGROUP"
    else if r == KO_EXC_INVALID_CMSTYPEDDATA then "KO_EXC_INVALID_CMSTYPEDDATA"
    else if r == KO_EXC_NO_CMSTYPEDDATA then "KO_EXC_NO_CMSTYPEDDATA"
    else if r == KO_EXC_NO_NIS_HASHES_DATAGROUP then "KO_EXC_NO_NIS_HASHES_DATAGROUP"
    else if r == KO_EXC_ERROR_CREATE_VERIFIER then "KO_EXC_ERROR_CREATE_VERIFIER"
    else if r == KO_EXC_NOVALID_DIGITAL_SIGNATURE then "KO_EXC_NOVALID_DIGITAL_SIGNATURE"
    else if r == KO_EXC_NOT_SAME_DIGEST1 then "KO_EXC_NOT_SAME_DIGEST1"
    else if r == KO_EXC_NOT_SAME_DIGEST11 then "KO_EXC_NOT_SAME_DIGEST11"
    else if r == KO_EXC_DIGEST_NOT_VERIFIED then "KO_EXC_DIGEST_NOT_VERIFIED"
    else if r == KO_EXC_ERROR_SOD_DECODE then "KO_EXC_ERROR_SOD_DECODE"
    else if r == KO_EXC_INVALID_VERIFIER then "KO_EXC_INVALID_VERIFIER"
    else if r == KO_EXC_INVALID_SIGNATURE then "KO_EXC_INVALID_SIGNATURE"
    else if r == KO_EXC_INVALID_ALGORITHM then "KO_EXC_INVALID_ALGORITHM"
    else if r == KO_EXC_INVALID_PUBLICKEY then "KO_EXC_INVALID_PUBLICKEY"
    else if r == KO_EXC_DECODER_ERROR then "KO_EXC_DECODER_ERROR"
    else if r == KO_EXC_NOFOUND_CODFISCALE_DG11 then "KO_EXC_NOFOUND_CODFISCALE_DG11"
    else if r == KO_EXC_NOFOUND_EXPIRE_DATE_DG1 then "KO_EXC_NOFOUND_EXPIRE_DATE_DG1"
    else if r == KO_EXC_INVALID_EXPIRATIONDATE then "KO_EXC_INVALID_EXPIRATIONDATE"
    else if r == KO_EXC_EXPIRATIONDATE then "KO_EXC_EXPIRATIONDATE"
    else "KO_EXC_CODFISCALE_NOT_VERIFIED"
  }

  /** The exceptions that can leave the checker's helpers: a
    * `CieCheckerException` carrying its result, a `CMSException` from the
    * parsing of a signed security object, or another exception (an index
    * out of bounds, a negative array size, ...). */
  datatype Failure = CieCheckerException(result: ResultCieChecker) | CMSException | RuntimeException
}
