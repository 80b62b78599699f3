# pn-mandate core, modelled in Dafny

pn-mandate is the service that manages the delegations ("mandates") of the
Italian digital-notification platform: a delegator (a person or a company,
"PG") lets a delegate read its notifications. This project models the
service's core decision logic and proves what it promises:

- **Mandate lifecycle** (`mandate_dao.dfy`). Accept, update, reject, revoke,
  expire and create are methods on a `MandateEntity` object that change its
  state code, its timestamps and its TTL in place. It also models the choice
  of the pending-expiry TTL and the workflow segregation.
- **Entities and status codes** (`mandate_entity.dfy`,
  `reverse_mandate_status_enum_mapper.dfy`, `delegation_state.dfy`). The
  `MANDATE#` sort-key encoding, the copy constructor, and the status ↔ integer
  tables with their inverses.
- **DynamoDB filter builders** (`mandate_dao_filters.dfy`, `pg_utils.dfy`,
  `type_segregator_filter.dfy`, `expression_values.dfy`). Index loops append
  clauses to a `StringBuilder` and bind numbered placeholders (`:group0`,
  `:type1`, ...) in the caller's map. The text they build and the bindings
  they add are proved.
- **Access checks and request validators** (`pg_utils.dfy`,
  `mandate_validation_utils.dfy`, `base64_validator.dfy`): the first failing
  check decides the error.
- **Paginated search by delegate** (`mandate_search_service.dfy`):
  - status partitions read in ascending order;
  - the required size `size * maxPageNumber + 1`;
  - continuation keys, the `more` flag and the first page.
- **Private listing by delegators** (`mandate_private_service.dfy`): only
  active mandates and, for a company acting for some groups, only mandates
  shared with one of them.
- **CIE checker** (`cie_checker.dfy`, `cie_clean_utils.dfy`,
  `cie_data_group_builder.dfy`, `nis_builder.dfy`). Covered:
  - the input checks and the result mapping of `validateMandate`;
  - SOD truncation, the expiry and tax-code checks, and the digest-list check;
  - the DER length trimmer (section 8.1.3 of ITU-T X.690) and the NIS trimmer;
  - the TD1 machine-readable zone with the check digits of section 4.9 of
    ICAO Doc 9303 Part 3;
  - the DG11 tag list and the NIS generators.
- **Error classification** (`cie_exception_mapper.dfy`,
  `cie_acceptance_error_category.dfy`, `cie_result_analyzer.dfy`). A checker
  result maps to an exception, the exception to CIE error categories, and the
  categories to acceptance codes (`FR01`…`FR04`, `TECH`, …).
- **CSCA master-list synchronisation Lambda** (`masterlist_sync.dfy`):
  - a download with at most three attempts and a closed retry classification;
  - a SHA-256 gate that returns NOT_MODIFIED without writing;
  - otherwise S3, SSM and ECS writes in that order.

Clocks, random numbers, hashes, `fetch`, the AWS calls and the external
validators are parameters: each call's answer is supplied by the caller.

## Model

| member | source | states |
|---|---|---|
| MasterlistSync.IsRetryable | functions/CscaMasterlistSync/src/app/eventHandler.js:18-28 | An error is retryable exactly when its name is TimeoutError or AbortError, or its own code or its cause's code is ECONNRESET, ENOTFOUND or ECONNREFUSED |
| MasterlistSync.HttpErrorNotRetryable | functions/CscaMasterlistSync/src/app/eventHandler.js:52-53 | The error thrown for a bad HTTP status carries no code and no cause, so the catch block never retries it |
| MasterlistSync.Settle | functions/CscaMasterlistSync/src/app/eventHandler.js:50-65 | One attempt succeeds exactly for a 2xx response and then gives its body; any other status fails with that status code; a rejected fetch fails with its own error |
| MasterlistSync.CallsFrom | functions/CscaMasterlistSync/src/app/eventHandler.js:39-76 | Counted from attempt k, the calls stop within 3; every attempt before the last was retried; fewer than 3 calls means the last one was not retried |
| MasterlistSync.Calls | functions/CscaMasterlistSync/src/app/eventHandler.js:37-39 | A download makes between 1 and 3 fetch calls |
| MasterlistSync.BaseDelay | functions/CscaMasterlistSync/src/app/eventHandler.js:56-68 | The wait before a retry is at least 1000 ms (without the random jitter) |
| MasterlistSync.StopsAtFirstNonRetried | functions/CscaMasterlistSync/src/app/eventHandler.js:55-74 | When attempt k is the first one not retried, the download makes exactly k+1 calls and settles as attempt k does |
| MasterlistSync.OkReturnsAtOnce | functions/CscaMasterlistSync/src/app/eventHandler.js:50-65 | A 2xx response at attempt k ends the download at once with its body |
| MasterlistSync.NonRetryableStatusFails | functions/CscaMasterlistSync/src/app/eventHandler.js:36-62 | A non-2xx status outside 408/429/500/502/503/504 fails after its attempt, with that status |
| MasterlistSync.LastAttemptPropagates | functions/CscaMasterlistSync/src/app/eventHandler.js:55-74 | When the first two attempts are retried, the third is the last, and its outcome (even a retryable one) is the download's result |
| MasterlistSync.DownloadFile | functions/CscaMasterlistSync/src/app/eventHandler.js:35-79 | The loop makes Calls(fetch) calls and settles as the last one; the fallback "all retries failed" error is never reached; one back-off wait per retry |
| MasterlistSync.Fetches | functions/CscaMasterlistSync/src/app/eventHandler.js:41 | The effects of n attempts are n fetches of the configured URL |
| MasterlistSync.Handler | functions/CscaMasterlistSync/src/app/eventHandler.js:87-132 | A missing setting fails before any effect; a failed download stops before any read or write; a matching non-empty stored hash gives NOT_MODIFIED with no write; otherwise S3 save, SSM update with the new hash, then ECS redeploy, in that order, and SUCCESS |
| CieDataGroupBuilder.Nz | src/main/java/it/pagopa/pn/ciechecker/generator/dg/CieDataGroupBuilder.java:106-108 | A null string reads as the empty string |
| CieDataGroupBuilder.ToUpper | src/main/java/it/pagopa/pn/ciechecker/generator/dg/CieDataGroupBuilder.java:61-66 | Upper-casing keeps the length and upper-cases each character on its own |
| CieDataGroupBuilder.SpacesToFiller | src/main/java/it/pagopa/pn/ciechecker/generator/dg/CieDataGroupBuilder.java:61-66 | Replacing ' ' by '<' keeps the length and changes only the spaces |
| CieDataGroupBuilder.Clean | src/main/java/it/pagopa/pn/ciechecker/generator/dg/CieDataGroupBuilder.java:64-66 | A cleaned field keeps the length of the raw text and holds no space |
| CieDataGroupBuilder.SanitizeOpt | src/main/java/it/pagopa/pn/ciechecker/generator/dg/CieDataGroupBuilder.java:110-112 | The optional fields are cleaned exactly like the mandatory ones: null or empty gives "", anything else is upper-cased with spaces turned into '<' |
| CieDataGroupBuilder.PadRight | src/main/java/it/pagopa/pn/ciechecker/generator/dg/CieDataGroupBuilder.java:204-209 | The result has exactly `length` characters: the input cut to length, or the input followed by pad characters |
| CieDataGroupBuilder.CharValue | src/main/java/it/pagopa/pn/ciechecker/generator/dg/CieDataGroupBuilder.java:214-220 | A digit counts as its value, A–Z as 10–35 and any other character (the filler included) as 0; every value is below 36 |
| CieDataGroupBuilder.Weight | src/main/java/it/pagopa/pn/ciechecker/generator/dg/CieDataGroupBuilder.java:212-219 | The weights cycle through 7, 3, 1 |
| CieDataGroupBuilder.CheckDigit | src/main/java/it/pagopa/pn/ciechecker/generator/dg/CieDataGroupBuilder.java:211-224 | The check digit is in 0..9 |
| CieDataGroupBuilder.ComputeCheckDigit | src/main/java/it/pagopa/pn/ciechecker/generator/dg/CieDataGroupBuilder.java:211-224 | The accumulating loop returns the weighted sum of character values modulo 10 |
| CieDataGroupBuilder.WeightedSumChange | src/main/java/it/pagopa/pn/ciechecker/generator/dg/CieDataGroupBuilder.java:215-221 | Changing one character changes the weighted sum by its weight times the change of value |
| CieDataGroupBuilder.WeightedChangeNotMultipleOfTen | src/main/java/it/pagopa/pn/ciechecker/generator/dg/CieDataGroupBuilder.java:212 | A weight of 7, 3 or 1 times a change of 1..9 is never a multiple of 10 |
| CieDataGroupBuilder.ShiftChangesLastDigit | src/main/java/it/pagopa/pn/ciechecker/generator/dg/CieDataGroupBuilder.java:222 | Adding a non-multiple of 10 changes the last decimal digit |
| CieDataGroupBuilder.SingleDigitErrorDetected | src/main/java/it/pagopa/pn/ciechecker/generator/dg/CieDataGroupBuilder.java:211-224 | Replacing one digit by another digit always changes the check digit |
| CieDataGroupBuilder.CheckChar | src/main/java/it/pagopa/pn/ciechecker/generator/dg/CieDataGroupBuilder.java:81-91 | The character written for a check digit is the ASCII digit of that check digit |
| CieDataGroupBuilder.SexChar | src/main/java/it/pagopa/pn/ciechecker/generator/dg/CieDataGroupBuilder.java:70 | Sex is kept when it is 'M' or 'F', and otherwise becomes '<' |
| CieDataGroupBuilder.DocNumberBlock | src/main/java/it/pagopa/pn/ciechecker/generator/dg/CieDataGroupBuilder.java:76 | The document-number block has 9 characters |
| CieDataGroupBuilder.Line1 | src/main/java/it/pagopa/pn/ciechecker/generator/dg/CieDataGroupBuilder.java:73-84 | Line 1 has 30 characters |
| CieDataGroupBuilder.Line2 | src/main/java/it/pagopa/pn/ciechecker/generator/dg/CieDataGroupBuilder.java:87-96 | Line 2 has 30 characters |
| CieDataGroupBuilder.Line3 | src/main/java/it/pagopa/pn/ciechecker/generator/dg/CieDataGroupBuilder.java:99-100 | Line 3 has 30 characters |
| CieDataGroupBuilder.BuildMrz | src/main/java/it/pagopa/pn/ciechecker/generator/dg/CieDataGroupBuilder.java:59-103 | The machine-readable zone has exactly 90 characters |
| CieDataGroupBuilder.Line1Layout | src/main/java/it/pagopa/pn/ciechecker/generator/dg/CieDataGroupBuilder.java:73-84 | Line 1 is document code (2), issuing state (3), document number (9), its check digit at position 14, then optional data 1 (15) |
| CieDataGroupBuilder.Line2Slices | src/main/java/it/pagopa/pn/ciechecker/generator/dg/CieDataGroupBuilder.java:93-95 | Where each field of line 2 sits: birth date, check digit, sex, expiry, check digit, nationality, optional data 2, composite digit |
| CieDataGroupBuilder.Line2Layout | src/main/java/it/pagopa/pn/ciechecker/generator/dg/CieDataGroupBuilder.java:87-96 | Line 2 holds birth date and expiry date with their check digits, and its last character is the check digit of document number + digit + birth date + digit + expiry + digit + optional data 2 |
| CieDataGroupBuilder.MrzLines | src/main/java/it/pagopa/pn/ciechecker/generator/dg/CieDataGroupBuilder.java:102 | The zone is line 1, line 2 and line 3, 30 characters each |
| CieDataGroupBuilder.MrzExpiry | src/main/java/it/pagopa/pn/ciechecker/generator/dg/CieDataGroupBuilder.java:69-93 | Characters 38..43 are the expiry date as yyMMdd and character 44 is its check digit (where the checker reads it) |
| CieDataGroupBuilder.NameLine | src/main/java/it/pagopa/pn/ciechecker/generator/dg/CieDataGroupBuilder.java:65-100 | Line 3 is the cleaned surname, "<<" and the cleaned given names, padded with '<' to 30 or, when longer, cut to its first 30 characters; when it fits, each field sits at its place and the rest is '<' |
| CieDataGroupBuilder.Presence | src/main/java/it/pagopa/pn/ciechecker/generator/dg/CieDataGroupBuilder.java:149-177 | One presence flag per DG11 field, in the fixed field order |
| CieDataGroupBuilder.Select | src/main/java/it/pagopa/pn/ciechecker/generator/dg/CieDataGroupBuilder.java:146-177 | The selected tags are no more than the tags |
| CieDataGroupBuilder.CountPresent | src/main/java/it/pagopa/pn/ciechecker/generator/dg/CieDataGroupBuilder.java:179 | The number of present fields is at most the number of fields |
| CieDataGroupBuilder.SelectSpec | src/main/java/it/pagopa/pn/ciechecker/generator/dg/CieDataGroupBuilder.java:146-177 | The list holds one tag per present field, and each present field's tag sits at the position given by the present fields before it |
| CieDataGroupBuilder.SelectTwoBytes | src/main/java/it/pagopa/pn/ciechecker/generator/dg/CieDataGroupBuilder.java:151-176 | Every tag in the list has 2 bytes |
| CieDataGroupBuilder.FlattenPairs | src/main/java/it/pagopa/pn/ciechecker/generator/dg/CieDataGroupBuilder.java:179-185 | Concatenating 2-byte tags gives 2 bytes per tag, tag k at bytes 2k..2k+1 |
| CieDataGroupBuilder.TagListLayout | src/main/java/it/pagopa/pn/ciechecker/generator/dg/CieDataGroupBuilder.java:146-185 | The tag list has 2 bytes per non-null field, each field's tag in fixed field order |
| CieDataGroupBuilder.TagListValue | src/main/java/it/pagopa/pn/ciechecker/generator/dg/CieDataGroupBuilder.java:179-185 | The copy loop over a moving offset fills the array with the concatenation of the tags |
| CieDataGroupBuilder.FlattenPrefix | src/main/java/it/pagopa/pn/ciechecker/generator/dg/CieDataGroupBuilder.java:182-185 | After copying the first n tags, the bytes written are a prefix of the final tag list |
| CieCleanUtils.Int32 | src/main/java/it/pagopa/pn/ciechecker/utils/CieCleanUtils.java:112-116 | Java `int` wrap-around: the result is in the 32-bit range and equals the input when the input fits |
| CieCleanUtils.DeclaredLength | src/main/java/it/pagopa/pn/ciechecker/utils/CieCleanUtils.java:100-117 | Short form gives 2+byte1; long form with k length bytes gives 2+k+the big-endian number in bytes 2..k+1, and fails when the k bytes are not there |
| CieCleanUtils.CleanAsn1 | src/main/java/it/pagopa/pn/ciechecker/utils/CieCleanUtils.java:89-133 | Null gives null; under 2 bytes is returned unchanged; otherwise the prefix of the declared length, or KO_EXC_CLEANING when that exceeds the field; never a non-checker exception |
| CieCleanUtils.DeclaredLengthOfPrefix | src/main/java/it/pagopa/pn/ciechecker/utils/CieCleanUtils.java:100-117 | A field cut to its declared length declares the same length |
| CieCleanUtils.CleanAsn1Idempotent | src/main/java/it/pagopa/pn/ciechecker/utils/CieCleanUtils.java:124 | Cleaning a cleaned field changes nothing |
| CieCleanUtils.CleanAsn1OrTlvField | src/main/java/it/pagopa/pn/ciechecker/utils/CieCleanUtils.java:89-133 | The loop over the length bytes computes CleanAsn1 |
| CieCleanUtils.ValueLengthAsWritten | src/main/java/it/pagopa/pn/ciechecker/utils/CieCleanUtils.java:112-115 | The 32-bit accumulation of the length bytes stays in the `int` range |
| CieCleanUtils.Int32Multiple256 | src/main/java/it/pagopa/pn/ciechecker/utils/CieCleanUtils.java:114 | A 32-bit `<< 8` leaves a multiple of 256, so the `\|` adds the byte |
| CieCleanUtils.CleanAsn1AsWritten | src/main/java/it/pagopa/pn/ciechecker/utils/CieCleanUtils.java:89-133 | With 32-bit lengths, a successful clean is a field no longer than the input |
| CieCleanUtils.ValueLengthExact | src/main/java/it/pagopa/pn/ciechecker/utils/CieCleanUtils.java:112-115 | The 32-bit loop is exact while the length fits in an `int` |
| CieCleanUtils.AsWrittenAgreesWhenLengthFits | src/main/java/it/pagopa/pn/ciechecker/utils/CieCleanUtils.java:106-124 | When the declared total fits in an `int`, the code as written and CleanAsn1 agree |
| CieCleanUtils.AsWrittenAgreesOnShortForm | src/main/java/it/pagopa/pn/ciechecker/utils/CieCleanUtils.java:90-104 | On null, short input and short-form lengths, the code as written and CleanAsn1 agree |
| CieCleanUtils.AsWrittenAcceptsGarbledLength | src/main/java/it/pagopa/pn/ciechecker/utils/CieCleanUtils.java:112-124 | `30 84 FF FF FF FF` is cut to 5 bytes as written, but refused by CleanAsn1 |
| CieCleanUtils.AsWrittenThrowsNegativeArraySize | src/main/java/it/pagopa/pn/ciechecker/utils/CieCleanUtils.java:112-124 | `30 84 80 00 00 00` throws a non-checker exception as written, but gives KO_EXC_CLEANING in CleanAsn1 |
| CieCleanUtils.CleanNis | src/main/java/it/pagopa/pn/ciechecker/utils/CieCleanUtils.java:135-153 | Null gives null; 12 bytes or more gives the first 12; fewer fails with KO_EXC_CLEANING |
| CieCleanUtils.CleanNisIdempotent | src/main/java/it/pagopa/pn/ciechecker/utils/CieCleanUtils.java:135-153 | A 12-byte NIS is unchanged, and cleaning twice equals cleaning once |
| CieCleanUtils.CleanedIasAllSteps | src/main/java/it/pagopa/pn/ciechecker/utils/CieCleanUtils.java:48-66 | When no step fails, the public key is cleaned as a TLV and the NIS cut to 12 bytes |
| CieCleanUtils.CleanedIasStopsAtPublicKey | src/main/java/it/pagopa/pn/ciechecker/utils/CieCleanUtils.java:21-27 | A failure on the public key is swallowed and leaves both fields as they were |
| CieCleanUtils.CleanIas | src/main/java/it/pagopa/pn/ciechecker/utils/CieCleanUtils.java:15-29 | The procedure updates the public key and NIS in place as CleanedIas says, and never replaces the SOD |
| CieCleanUtils.CleanedMrtdKeepsDg1 | src/main/java/it/pagopa/pn/ciechecker/utils/CieCleanUtils.java:37-43 | When DG1 cleans but DG11 does not, DG1 is cleaned and DG11 left as it was |
| CieCleanUtils.CleanedMrtdIdempotent | src/main/java/it/pagopa/pn/ciechecker/utils/CieCleanUtils.java:31-45 | Cleaning the MRTD data twice equals cleaning it once |
| CieCleanUtils.CleanMrtd | src/main/java/it/pagopa/pn/ciechecker/utils/CieCleanUtils.java:31-45 | The procedure updates DG1 and DG11 in place as CleanedMrtd says, and never replaces the SOD |
| NisBuilder.GenerateNumeric | src/main/java/it/pagopa/pn/ciechecker/generator/ias/NisBuilder.java:49-59 | Length ≤ 0 fails with "Length must be > 0"; otherwise exactly `length` ASCII digits, digit i being the i-th random draw |
| NisBuilder.GenerateRandom | src/main/java/it/pagopa/pn/ciechecker/generator/ias/NisBuilder.java:66-73 | Outside 1..64 fails with "NIS length must be 1..64"; otherwise a fresh array of that length filled from the random stream |
| NisBuilder.GeneratedLengthValid | src/main/java/it/pagopa/pn/ciechecker/generator/ias/NisBuilder.java:98-100 | isValid holds for 8 ≤ length ≤ 64, and the default length 12 is accepted by generateRandom and isValid |
| NisBuilder.TrimStart | src/main/java/it/pagopa/pn/ciechecker/generator/ias/NisBuilder.java:86 | Trimming the front drops exactly the leading characters ≤ ' ' |
| NisBuilder.TrimEnd | src/main/java/it/pagopa/pn/ciechecker/generator/ias/NisBuilder.java:86 | Trimming the back drops exactly the trailing characters ≤ ' ' |
| NisBuilder.TrimOfTrimmed | src/main/java/it/pagopa/pn/ciechecker/generator/ias/NisBuilder.java:86 | A string with no control or space at either end is its own trim |
| NisBuilder.NormalizeIdempotent | src/main/java/it/pagopa/pn/ciechecker/generator/ias/NisBuilder.java:86 | Trimming and upper-casing twice equals doing it once |
| NisBuilder.TrimKeepsEnds | src/main/java/it/pagopa/pn/ciechecker/generator/ias/NisBuilder.java:86 | A trimmed string is empty or starts and ends with a character above U+0020 |
| NisBuilder.UpperOfUpper | src/main/java/it/pagopa/pn/ciechecker/generator/ias/NisBuilder.java:86 | Upper-casing text with no lower-case letter leaves it as it is |
| NisBuilder.Piece | src/main/java/it/pagopa/pn/ciechecker/generator/ias/NisBuilder.java:85-88 | A non-null part contributes its bytes followed by a 0x00 separator |
| NisBuilder.NormalizedParts | src/main/java/it/pagopa/pn/ciechecker/generator/ias/NisBuilder.java:84-89 | The normalised parts keep only present parts |
| NisBuilder.SeedMessageNormalized | src/main/java/it/pagopa/pn/ciechecker/generator/ias/NisBuilder.java:84-89 | Normalising the parts first gives the same digest input |
| NisBuilder.SeedMessageAppend | src/main/java/it/pagopa/pn/ciechecker/generator/ias/NisBuilder.java:84-89 | The digest input of two lists of parts is the concatenation of theirs |
| NisBuilder.CopyOf | src/main/java/it/pagopa/pn/ciechecker/generator/ias/NisBuilder.java:91 | `Arrays.copyOf`: exactly `length` bytes, the hash cut or padded with zeros |
| NisBuilder.GenerateFromSeed | src/main/java/it/pagopa/pn/ciechecker/generator/ias/NisBuilder.java:79-96 | Outside 1..64 fails; otherwise the SHA-256 of the normalised, 0-separated parts, cut or zero-padded to `length` bytes |
| NisBuilder.SeedNormalisation | src/main/java/it/pagopa/pn/ciechecker/generator/ias/NisBuilder.java:84-91 | Two lists of parts with the same normalised parts give the same NIS |
| NisBuilder.SeededTailIsZero | src/main/java/it/pagopa/pn/ciechecker/generator/ias/NisBuilder.java:91 | Bytes beyond the hash length are zero |
| CieChecker.ValidateDataInput | src/main/java/it/pagopa/pn/ciechecker/CieCheckerImpl.java:149-165 | No error exactly when every required field is present and non-empty (the tax code non-blank) |
| CieChecker.FirstFailure | src/main/java/it/pagopa/pn/ciechecker/CieCheckerImpl.java:152-161 | No failure exactly when every check passes; otherwise the code of the first failing check |
| CieChecker.InputChecks | src/main/java/it/pagopa/pn/ciechecker/CieCheckerImpl.java:152-161 | There are ten input checks, the null-object check included |
| CieChecker.FirstFailureAt | src/main/java/it/pagopa/pn/ciechecker/CieCheckerImpl.java:152-161 | When check k is the first to fail, its code is reported |
| CieChecker.ValidateDataInputIsFirstFailure | src/main/java/it/pagopa/pn/ciechecker/CieCheckerImpl.java:149-165 | validateDataInput reports the first failing check, in the fixed order |
| CieChecker.InputCodesDistinct | src/main/java/it/pagopa/pn/ciechecker/CieCheckerImpl.java:152-161 | Each input check has its own result code |
| CieChecker.TruncSodBytes | src/main/java/it/pagopa/pn/ciechecker/CieCheckerImpl.java:167-169 | Exactly the first 4 bytes are dropped; a SOD shorter than 4 bytes makes copyOfRange throw |
| CieChecker.VerifyCodFiscDelegante | src/main/java/it/pagopa/pn/ciechecker/CieCheckerImpl.java:177-188 | OK exactly when the DG11 personal number equals the given tax code, else KO_EXC_CODFISCALE_NOT_VERIFIED; a DG11 parse failure propagates |
| CieChecker.VerifyExpirationCie | src/main/java/it/pagopa/pn/ciechecker/CieCheckerImpl.java:190-215 | OK exactly when the yyMMdd date at 38..43 parses and is strictly after today; a date not after today gives KO_EXC_EXPIRATIONDATE; an unparsable one gives KO_EXC_INVALID_EXPIRATIONDATE; an element shorter than 44 characters makes `substring` throw; a DG1 parse failure propagates |
| CieChecker.ExpiryOfBuiltMrz | src/main/java/it/pagopa/pn/ciechecker/CieCheckerImpl.java:196-209 | On a zone built by buildMrz, the checker reads back the expiry date that was written (years 2000–2099) |
| CieChecker.ExpiredOnExpiryDay | src/main/java/it/pagopa/pn/ciechecker/CieCheckerImpl.java:205-209 | A document whose expiry date is today is already refused |
| CieChecker.Get | src/main/java/it/pagopa/pn/ciechecker/CieCheckerImpl.java:433 | `Map.get` gives a value exactly for a present key |
| CieChecker.VerifyDigestList | src/main/java/it/pagopa/pn/ciechecker/CieCheckerImpl.java:432-440 | A matching digest passes; a mismatch gives NOT_SAME_DIGEST1 for DG1 and NOT_SAME_DIGEST11 for any other group |
| CieChecker.VerifyIntegrityCore | src/main/java/it/pagopa/pn/ciechecker/CieCheckerImpl.java:398-430 | OK exactly when the SOD decodes, names a compatible digest algorithm, has expected hashes, and DG1 then DG11 match them |
| CieChecker.IntegrityRefusals | src/main/java/it/pagopa/pn/ciechecker/CieCheckerImpl.java:405-421 | A non-blank algorithm outside SHA-1/256/384/512 gives KO_EXC_UNSUPPORTED_ALGORITHM_SOD; an accepted algorithm with an empty hash map gives KO_EXC_NOTFOUND_EXPECTED_HASHES_SOD |
| CieChecker.VerifyIntegrity | src/main/java/it/pagopa/pn/ciechecker/CieCheckerImpl.java:367-385 | A missing SOD gives KO_EXC_NOTFOUND_MRTD_SOD; checker errors keep their code; any other error becomes KO_EXC_DIGEST_NOT_VERIFIED |
| CieChecker.ResultOf | src/main/java/it/pagopa/pn/ciechecker/CieCheckerImpl.java:136-146 | A checker exception gives its result; a CMS exception gives KO_EXC_GENERATE_CMSSIGNEDDATA; anything else gives KO |
| CieChecker.AcceptedMeansAllChecksPassed | src/main/java/it/pagopa/pn/ciechecker/CieCheckerImpl.java:99-135 | OK means complete input, both signature checks passed, both SODs truncated, integrity OK, tax code matched and not expired |
| CieChecker.IncompleteInputReported | src/main/java/it/pagopa/pn/ciechecker/CieCheckerImpl.java:103-142 | Incomplete input gives the code of its first failing input check |
| CieChecker.ShortIasSodGivesKo | src/main/java/it/pagopa/pn/ciechecker/CieCheckerImpl.java:106-146 | An IAS SOD shorter than 4 bytes gives KO |
| CieChecker.ValidateMandate | src/main/java/it/pagopa/pn/ciechecker/CieCheckerImpl.java:99-147 | Returns the result of the checking pipeline and never throws; it overwrites the MRTD SOD with its truncation, as the source does, and leaves DG1 and DG11 unchanged |
| CieExceptionMapper.Categories | src/main/java/it/pagopa/pn/mandate/utils/CieExceptionMapper.java:32-84 | The table's categories for a result never include CIE_CHECKER_SERVER_ERROR |
| CieExceptionMapper.ServerError | src/main/java/it/pagopa/pn/mandate/utils/CieExceptionMapper.java:110-111 | An unmapped result gives a PnInternalException with code CIE_CHECKER_SERVER_ERROR |
| CieExceptionMapper.Classified | src/main/java/it/pagopa/pn/mandate/utils/CieExceptionMapper.java:31-84 | A registered result gives a verification-code exception or an invalid-CIE-data exception |
| CieExceptionMapper.CategoriesPresent | src/main/java/it/pagopa/pn/mandate/utils/CieExceptionMapper.java:32-84 | Every registered invalid-data result has one or two categories |
| CieExceptionMapper.Registered | src/main/java/it/pagopa/pn/mandate/utils/CieExceptionMapper.java:87-93 | An invalid-data row registers an exception with its result and categories |
| CieExceptionMapper.RowsFit | src/main/java/it/pagopa/pn/mandate/utils/CieExceptionMapper.java:31-84 | Row i of the table registers result i+4 and classifies it as the table says |
| CieExceptionMapper.UnmappedAreFirst | src/main/java/it/pagopa/pn/mandate/utils/CieExceptionMapper.java:26-85 | The results the table leaves out are exactly the first four constants |
| CieExceptionMapper.AllRowsRegistered | src/main/java/it/pagopa/pn/mandate/utils/CieExceptionMapper.java:26-85 | After the table is built, a result is a key exactly when it is not among the unmapped ones |
| CieExceptionMapper.RegisteringKeepsClassified | src/main/java/it/pagopa/pn/mandate/utils/CieExceptionMapper.java:95-101 | Registering a table row keeps every entry classified |
| CieExceptionMapper.ExceptionMapper.PutCustomException | src/main/java/it/pagopa/pn/mandate/utils/CieExceptionMapper.java:95-101 | Registering a result already present throws and leaves the map unchanged; otherwise the map gains that entry |
| CieExceptionMapper.ExceptionMapper.PutInvalidCieDataException | src/main/java/it/pagopa/pn/mandate/utils/CieExceptionMapper.java:87-93 | Registers an invalid-CIE-data exception with its categories, under the same duplicate rule |
| CieExceptionMapper.ExceptionMapper.BuildExceptionMap | src/main/java/it/pagopa/pn/mandate/utils/CieExceptionMapper.java:26-85 | Building the table never hits a duplicate, and then every result other than OK, KO, KO_EXC_INPUT_PARAMETER_NULL and KO_EXC_CLEANING has exactly its classified exception; those four are not keys |
| CieExceptionMapper.ExceptionMapper.constructor | src/main/java/it/pagopa/pn/mandate/utils/CieExceptionMapper.java:22-24 | A new mapper holds the built table |
| CieExceptionMapper.ExceptionMapper.MapToException | src/main/java/it/pagopa/pn/mandate/utils/CieExceptionMapper.java:103-112 | A mapped result gives its exception; an unmapped one gives the CIE_CHECKER_SERVER_ERROR internal exception |
| CieExceptionMapper.MapperClassifies | src/main/java/it/pagopa/pn/mandate/utils/CieExceptionMapper.java:103-112 | On a built mapper, an internal exception comes out exactly for the unmapped results, and everything else is classified |
| CieExceptionMapper.NamedCases | src/main/java/it/pagopa/pn/mandate/utils/CieExceptionMapper.java:83-84 | Nonce mismatch gives the verification-code exception; expiry gives CIE_EXPIRED_ERROR; tax-code mismatch gives CIE_NOT_RELATED_TO_DELEGATOR_ERROR |
| CieAcceptanceErrorCategory.Code | src/main/java/it/pagopa/pn/mandate/utils/CieAcceptanceErrorCategory.java:11-19 | Every category name is non-empty and has no comma |
| CieAcceptanceErrorCategory.FromCode | src/main/java/it/pagopa/pn/mandate/utils/CieAcceptanceErrorCategory.java:11-19 | Reading a name back gives the category of that name |
| CieAcceptanceErrorCategory.FromCodeOfCode | src/main/java/it/pagopa/pn/mandate/utils/CieAcceptanceErrorCategory.java:11-19 | The category names are distinct: each reads back to its category |
| CieAcceptanceErrorCategory.FromCieErrorCategory | src/main/java/it/pagopa/pn/mandate/utils/CieAcceptanceErrorCategory.java:38-46 | Every CIE category maps to one of FR01–FR04 or TECH, and TECH comes only from CIE_CHECKER_SERVER_ERROR |
| CieAcceptanceErrorCategory.FromCieErrorCategoryMerges | src/main/java/it/pagopa/pn/mandate/utils/CieAcceptanceErrorCategory.java:40 | Two categories share a code exactly when they are equal or are INPUT and SIGNATURE (both FR01) |
| CieAcceptanceErrorCategory.FirstIndex | src/main/java/it/pagopa/pn/mandate/utils/CieAcceptanceErrorCategory.java:34 | The first position of an element |
| CieAcceptanceErrorCategory.Distinct | src/main/java/it/pagopa/pn/mandate/utils/CieAcceptanceErrorCategory.java:34 | `distinct()` keeps the same elements, each once |
| CieAcceptanceErrorCategory.FirstIndexOfPrefix | src/main/java/it/pagopa/pn/mandate/utils/CieAcceptanceErrorCategory.java:34 | Appending an element does not move the first position of earlier ones |
| CieAcceptanceErrorCategory.DistinctKeepsFirstSeenOrder | src/main/java/it/pagopa/pn/mandate/utils/CieAcceptanceErrorCategory.java:34 | `distinct()` keeps elements in first-seen order |
| CieAcceptanceErrorCategory.CodesOf | src/main/java/it/pagopa/pn/mandate/utils/CieAcceptanceErrorCategory.java:31-33 | One code per category, position by position |
| CieAcceptanceErrorCategory.FormatMultipleErrorsDecodes | src/main/java/it/pagopa/pn/mandate/utils/CieAcceptanceErrorCategory.java:30-36 | Splitting the joined text on "," gives the distinct codes in first-seen order, one per category and nothing else |
| CieAcceptanceErrorCategory.ErrorCategories | src/main/java/it/pagopa/pn/mandate/utils/CieAcceptanceErrorCategory.java:50-51 | A verification-code exception carries CIE_SIGNATURE_ERROR |
| CieAcceptanceErrorCategory.ExceptionMapLookup | src/main/java/it/pagopa/pn/mandate/utils/CieAcceptanceErrorCategory.java:24-28 | The exact-class table yields only MANDATE_EXPIRED, INVALID_MANDATE or MANDATE_NOT_FOUND |
| CieAcceptanceErrorCategory.FromThrowable | src/main/java/it/pagopa/pn/mandate/utils/CieAcceptanceErrorCategory.java:48-56 | Outside invalid-CIE-data exceptions, the result is always a single category name |
| CieAcceptanceErrorCategory.FromThrowableSimple | src/main/java/it/pagopa/pn/mandate/utils/CieAcceptanceErrorCategory.java:24-55 | Pending-expired, invalid-status and not-found exceptions give their codes; any other exception class gives TECH |
| CieAcceptanceErrorCategory.TechCodeOnly | src/main/java/it/pagopa/pn/mandate/utils/CieAcceptanceErrorCategory.java:19 | Only TECH is named "TECH" |
| CieAcceptanceErrorCategory.FromThrowableOfInvalidCieData | src/main/java/it/pagopa/pn/mandate/utils/CieAcceptanceErrorCategory.java:30-52 | Invalid-CIE-data exceptions give their distinct codes joined by ","; TECH appears exactly when the server-error category does |
| CieAcceptanceErrorCategory.TechCodeMeansServerError | src/main/java/it/pagopa/pn/mandate/utils/CieAcceptanceErrorCategory.java:19-44 | The TECH code appears among the codes exactly when the server-error category is among the categories |
| CieAcceptanceErrorCategory.ExpiredAndIntegrityCodes | src/test/java/it/pagopa/pn/mandate/utils/CieAcceptanceErrorCategoryTest.java:45-53 | [EXPIRED, INTEGRITY] gives "FR02,FR04" |
| CieAcceptanceErrorCategory.InputAndSignatureCodes | src/main/java/it/pagopa/pn/mandate/utils/CieAcceptanceErrorCategory.java:34-40 | [INPUT, SIGNATURE] gives "FR01" once |
| CieAcceptanceErrorCategory.SingleCategoryCodes | src/main/java/it/pagopa/pn/mandate/utils/CieAcceptanceErrorCategory.java:40-44 | Single categories give TECH and FR03; a verification-code exception gives FR01 |
| CieAcceptanceErrorCategory.SimpleExceptionCodes | src/main/java/it/pagopa/pn/mandate/utils/CieAcceptanceErrorCategory.java:27-55 | Not-found gives MANDATE_NOT_FOUND and an unknown exception gives TECH |
| CieResultAnalyzer.AnalyzeResult | src/main/java/it/pagopa/pn/mandate/utils/CieResultAnalyzer.java:25-40 | Returns normally exactly for OK; null throws the CIE_CHECKER_NULL_RESULT internal exception; any other result throws exactly the mapper's exception |
| CieResultAnalyzer.AnalyzeResultClassifies | src/main/java/it/pagopa/pn/mandate/utils/CieResultAnalyzer.java:27-39 | A non-OK result always throws: internal for null or unmapped results, verification-code for a nonce mismatch, invalid-CIE-data for the rest |
| CieResultAnalyzer.AcceptanceCodeOfNamedResults | src/main/java/it/pagopa/pn/mandate/utils/CieResultAnalyzer.java:25-40 | End to end: null or unmapped gives TECH; nonce mismatch FR01; expiry FR02; tax-code mismatch FR03 |
| CieResultAnalyzer.AcceptanceCodeOfDataErrors | src/main/java/it/pagopa/pn/mandate/utils/CieResultAnalyzer.java:36-39 | End to end, a registered data error gives the distinct codes of its categories, never TECH |
| MandateDao.StandardSegregationIsStandardFilter | src/main/java/it/pagopa/pn/mandate/middleware/db/MandateDao.java:970-974 | A mandate is standard-segregated exactly when the STANDARD filter includes its workflow type, that is, unless it is CIE |
| MandateDao.PendingSupportExpiry | src/main/java/it/pagopa/pn/mandate/middleware/db/MandateDao.java:503-511 | The support TTL is created+duration or the end date, and no later than either |
| MandateDao.PendingSupportExpiryIsMin | src/main/java/it/pagopa/pn/mandate/middleware/db/MandateDao.java:503-511 | The support TTL is min(validto, created+duration), or created+duration without validto |
| MandateDao.MandateDao.constructor | src/main/java/it/pagopa/pn/mandate/middleware/db/MandateDao.java:68-79 | Holds the two configured pending durations |
| MandateDao.MandateDao.ChooseExpiredConfig | src/main/java/it/pagopa/pn/mandate/middleware/db/MandateDao.java:488-494 | CIE workflows use the CIE pending duration, all others the standard one |
| MandateDao.MandateDao.EditMandateState | src/main/java/it/pagopa/pn/mandate/middleware/db/MandateDao.java:437-468 | A missing or wrong code fails and changes nothing. Otherwise a PG caller's groups replace the mandate's. PENDING becomes ACTIVE with accepted = now, except a PENDING mandate past created + duration, which gives MandatePendingExpired, or one without created, which gives NullPointer. ACTIVE stays ACTIVE. Any other state gives NotAcceptable. The other columns keep their values |
| MandateDao.MandateDao.AcceptMandate | src/main/java/it/pagopa/pn/mandate/middleware/db/MandateDao.java:367-401 | Missing gives NotFound; non-standard gives BadRequest. Otherwise the outcome is editMandateState's: no code gives NullPointer and a wrong code InvalidVerificationCode, both changing nothing; a PENDING mandate within its pending period becomes ACTIVE with accepted = now; a PENDING one past it gives MandatePendingExpired and keeps its state; ACTIVE stays ACTIVE; other states give NotAcceptable. Only groups, state and accepted can change |
| MandateDao.MandateDao.UpdateMandate | src/main/java/it/pagopa/pn/mandate/middleware/db/MandateDao.java:403-435 | Missing gives NotFound; non-standard gives BadRequest; an unknown status gives NoSuchElement; not ACTIVE gives InvalidMandateStatus; an ACTIVE mandate past its validto gives NotFound; failures change nothing. Success replaces the groups and changes no other column. It returns a fresh copy of every column before the change, without workflowType and iuns, which the copy constructor does not copy |
| MandateDao.MandateDao.SaveHistoryAndDeleteFromMain | src/main/java/it/pagopa/pn/mandate/middleware/db/MandateDao.java:841-859 | Archiving sets the history TTL and nothing else |
| MandateDao.MandateDao.RejectMandate | src/main/java/it/pagopa/pn/mandate/middleware/db/MandateDao.java:534-574 | Missing gives NotFound; non-standard gives BadRequest; PENDING or ACTIVE becomes REJECTED with its time and is archived with the history TTL, every other column unchanged; other states are skipped and the mandate is left untouched |
| MandateDao.MandateDao.RevokeMandate | src/main/java/it/pagopa/pn/mandate/middleware/db/MandateDao.java:589-630 | A missing mandate is skipped without error; a mandate outside the allowed segregation fails; PENDING or ACTIVE becomes REVOKED with its time and is archived with the history TTL, every other column unchanged; other states are skipped and the mandate is left untouched |
| MandateDao.MandateDao.ValidToOf | src/main/java/it/pagopa/pn/mandate/middleware/db/MandateDao.java:667 | The effective end is validto, or created plus the pending duration |
| MandateDao.MandateDao.ExpireMandate | src/main/java/it/pagopa/pn/mandate/middleware/db/MandateDao.java:646-687 | Missing gives NotFound. An ACTIVE mandate without an end gives NullPointer. An ACTIVE mandate past its end becomes EXPIRED and is archived with the history TTL. An ACTIVE one not past its end is left untouched. Other states are archived with their state kept. Archiving changes no column besides state and TTL |
| MandateDao.MandateDao.SavePendingWithExpireSupport | src/main/java/it/pagopa/pn/mandate/middleware/db/MandateDao.java:496-521 | Sets created (now when absent) and returns the support TTL for the workflow's duration |
| MandateDao.MandateDao.CreateMandate | src/main/java/it/pagopa/pn/mandate/middleware/db/MandateDao.java:701-742 | Allowed exactly when no live mandate exists for the pair or it is a self PG mandate; success sets created and returns the support TTL; otherwise AlreadyExists and nothing changes |
| MandateDaoFilters.OperatorClauses | src/main/java/it/pagopa/pn/mandate/middleware/db/MandateDao.java:236-246 | One comparison per value |
| MandateDaoFilters.ClauseAt | src/main/java/it/pagopa/pn/mandate/middleware/db/MandateDao.java:236-246 | Comparison i tests the field against placeholder prefix+i |
| MandateDaoFilters.FilterGroup | src/main/java/it/pagopa/pn/mandate/middleware/db/MandateDao.java:234-247 | A filter group is parenthesised |
| MandateDaoFilters.WrittenNext | src/main/java/it/pagopa/pn/mandate/middleware/db/MandateDao.java:236-246 | Each loop step appends one comparison and, except after the last, " OR " |
| MandateDaoFilters.WrittenJoins | src/main/java/it/pagopa/pn/mandate/middleware/db/MandateDao.java:236-246 | After i steps the builder holds the first i comparisons joined by " OR ", plus a pending " OR " |
| MandateDaoFilters.WrittenAll | src/main/java/it/pagopa/pn/mandate/middleware/db/MandateDao.java:236-247 | After the loop the builder holds all comparisons joined by " OR " |
| MandateDaoFilters.AddContainsFilterExpression | src/main/java/it/pagopa/pn/mandate/middleware/db/MandateDao.java:254-256 | Appends `contains(field,prefix+i)` |
| MandateDaoFilters.AddEqFilterExpression | src/main/java/it/pagopa/pn/mandate/middleware/db/MandateDao.java:258-260 | Appends `field = prefix+i` |
| MandateDaoFilters.AddGtFilterExpression | src/main/java/it/pagopa/pn/mandate/middleware/db/MandateDao.java:250-252 | Appends `field > prefix+i` or a missing field |
| MandateDaoFilters.AddComparisons | src/main/java/it/pagopa/pn/mandate/middleware/db/MandateDao.java:235-246 | The loop appends the " OR "-joined comparisons and binds prefix+i to value i |
| MandateDaoFilters.AddComparison | src/main/java/it/pagopa/pn/mandate/middleware/db/MandateDao.java:236-243 | A known operator appends the `i`th comparison, then " OR " unless it is the last of the values |
| MandateDaoFilters.AddFilterExpression | src/main/java/it/pagopa/pn/mandate/middleware/db/MandateDao.java:232-248 | A known operator appends the parenthesised disjunction and binds every value; an unknown one appends "()" with no values, and otherwise fails on the first value after "(" |
| MandateDaoFilters.AddNewFilterExpression | src/main/java/it/pagopa/pn/mandate/middleware/db/MandateDao.java:275-277 | " AND " is appended only to a non-empty expression |
| MandateDaoFilters.WorkflowClauses | src/main/java/it/pagopa/pn/mandate/middleware/db/MandateDao.java:265-271 | One equality per workflow type |
| MandateDaoFilters.AddWorkflowTypeStandardOrNotExistsFilter | src/main/java/it/pagopa/pn/mandate/middleware/db/MandateDao.java:262-273 | Appends "missing type OR one of the types" and binds :type0.. to the type names |
| MandateDaoFilters.IunClauses | src/main/java/it/pagopa/pn/mandate/middleware/db/MandateDao.java:874-879 | One contains clause per IUN |
| MandateDaoFilters.JoinStep | src/main/java/it/pagopa/pn/mandate/middleware/db/MandateDao.java:874-879 | One more IUN clause extends the " OR " join |
| MandateDaoFilters.GetIunsFilterExpression | src/main/java/it/pagopa/pn/mandate/middleware/db/MandateDao.java:865-884 | No IUNs gives "" and no bindings; otherwise the parenthesised disjunction over the IUNs, each bound to its placeholder |
| MandateDaoFilters.GetIunFilterExpression | src/main/java/it/pagopa/pn/mandate/middleware/db/MandateDao.java:899-909 | The STANDARD segregation expression OR (CIE and the IUN), with the type, :cie and :iun bindings |
| MandateDaoFilters.IunFilterBindings | src/main/java/it/pagopa/pn/mandate/middleware/db/MandateDao.java:899-909 | After the IUN filter, :iun, :cie, :type0 and :type1 hold the IUN, CIE, STANDARD and REVERSE; the expression starts with the missing-type test |
| MandateDaoFilters.PlaceholderPrefix | src/main/java/it/pagopa/pn/mandate/middleware/db/MandateDao.java:197-210 | A placeholder keeps its prefix's second character |
| MandateDaoFilters.ForeignKeyUnbound | src/main/java/it/pagopa/pn/mandate/middleware/db/MandateDao.java:197-210 | A key with another second character is not bound by a prefix's bindings |
| MandateDaoFilters.AddOptionalCondition | src/main/java/it/pagopa/pn/mandate/middleware/db/MandateDao.java:199-206 | A null or empty list adds nothing; otherwise " AND " and the disjunction, with its bindings |
| MandateDaoFilters.FilterExpressionSearchByDelegate | src/main/java/it/pagopa/pn/mandate/middleware/db/MandateDao.java:192-218 | The filter is the validity condition, the optional group and delegator conditions, and the STANDARD segregation, with their bindings |
| MandateDaoFilters.ForeignPlaceholder | src/main/java/it/pagopa/pn/mandate/middleware/db/MandateDao.java:197-210 | Placeholders of prefixes with different second characters never collide |
| MandateDaoFilters.SearchByDelegateBindsNow | src/main/java/it/pagopa/pn/mandate/middleware/db/MandateDao.java:195-197 | :now0 is bound to the current date |
| MandateDaoFilters.SearchByDelegateBindsGroups | src/main/java/it/pagopa/pn/mandate/middleware/db/MandateDao.java:199-202 | :g k is bound to group k |
| MandateDaoFilters.SearchByDelegateBindsDelegators | src/main/java/it/pagopa/pn/mandate/middleware/db/MandateDao.java:203-206 | :d k is bound to delegator k |
| MandateDaoFilters.SearchByDelegateBindsTypes | src/main/java/it/pagopa/pn/mandate/middleware/db/MandateDao.java:208-210 | :type0 and :type1 are bound to STANDARD and REVERSE |
| MandateDaoFilters.ValidToFilterExample | src/main/java/it/pagopa/pn/mandate/middleware/db/MandateDao.java:250-252 | The validity condition reads `(d_validto>:now0 OR attribute_not_exists(d_validto))` |
| MandateDaoFilters.WorkflowFilterExample | src/main/java/it/pagopa/pn/mandate/middleware/db/MandateDao.java:262-273 | The workflow filter for two types, written out |
| MandateDaoFilters.SearchByDelegateExample | src/main/java/it/pagopa/pn/mandate/middleware/db/MandateDao.java:192-218 | A null group list and an empty delegator list add no condition |
| MandateDaoFilters.SearchByGroupExample | src/main/java/it/pagopa/pn/mandate/middleware/db/MandateDao.java:192-218 | One group adds one `contains(a_groups,:g0)` condition between the validity and segregation conditions |
| MandateDaoFilters.GroupConditionExample | src/main/java/it/pagopa/pn/mandate/middleware/db/MandateDao.java:198-201 | One group yields " AND (contains(a_groups,:g0))" |
| MandateEntities.RemoveAll | src/main/java/it/pagopa/pn/mandate/middleware/db/entities/MandateEntity.java:74 | Removing every occurrence never lengthens the text |
| MandateEntities.RemoveAllAbsent | src/main/java/it/pagopa/pn/mandate/middleware/db/entities/MandateEntity.java:74 | Text without the pattern is unchanged |
| MandateEntities.RemoveAllPresent | src/main/java/it/pagopa/pn/mandate/middleware/db/entities/MandateEntity.java:74 | Text with the pattern gets shorter |
| MandateEntities.MandateIdRoundTrip | src/main/java/it/pagopa/pn/mandate/middleware/db/entities/MandateEntity.java:73-78 | getMandateId after setMandateId(id) gives back id exactly when id does not contain "MANDATE#" |
| MandateEntities.MandateEntity.constructor | src/main/java/it/pagopa/pn/mandate/middleware/db/entities/MandateEntity.java:43-46 | Sets only the delegator and the sort key "MANDATE#"+id |
| MandateEntities.MandateEntity.Copy | src/main/java/it/pagopa/pn/mandate/middleware/db/entities/MandateEntity.java:48-70 | Copies every column the copy constructor names; the sort key is rebuilt from the copied mandate id; workflow type and IUNs are not copied |
| MandateEntities.MandateEntity.SetMandateId | src/main/java/it/pagopa/pn/mandate/middleware/db/entities/MandateEntity.java:76-78 | The sort key becomes "MANDATE#"+id and nothing else changes |
| MandateEntities.CopyKeepsSortKey | src/main/java/it/pagopa/pn/mandate/middleware/db/entities/MandateEntity.java:49-78 | Copying keeps the sort key of every mandate whose key was built by setMandateId |
| ReverseMandateStatusEnumMapper.IntValFromStatus | src/main/java/it/pagopa/pn/mandate/mapper/ReverseMandateStatusEnumMapper.java:17-31 | Every status has one of the codes 10, 20, 30, 40, 50 |
| ReverseMandateStatusEnumMapper.FromValue | src/main/java/it/pagopa/pn/mandate/mapper/ReverseMandateStatusEnumMapper.java:39-52 | A code fails only with NoSuchElement |
| ReverseMandateStatusEnumMapper.FromValueInverse | src/main/java/it/pagopa/pn/mandate/mapper/ReverseMandateStatusEnumMapper.java:39-52 | fromValue inverts intValfromStatus, and succeeds exactly on the five codes |
| ReverseMandateStatusEnumMapper.Ordinal | src/main/java/it/pagopa/pn/mandate/mapper/ReverseMandateStatusEnumMapper.java:10-11 | Five statuses in declaration order |
| ReverseMandateStatusEnumMapper.CodesAscending | src/main/java/it/pagopa/pn/mandate/mapper/ReverseMandateStatusEnumMapper.java:10-30 | Codes ascend in status order, and a code ≤ 20 means PENDING or ACTIVE |
| ReverseMandateStatusEnumMapper.StatusValue | src/main/java/it/pagopa/pn/mandate/mapper/ReverseMandateStatusEnumMapper.java:54-57 | Every status has a non-empty wire value |
| ReverseMandateStatusEnumMapper.StatusFromValue | src/main/java/it/pagopa/pn/mandate/mapper/ReverseMandateStatusEnumMapper.java:56 | Reading a wire value gives the status of that value, or an illegal-argument error |
| ReverseMandateStatusEnumMapper.FromValueConst | src/main/java/it/pagopa/pn/mandate/mapper/ReverseMandateStatusEnumMapper.java:54-59 | A null value fails with NoSuchElement |
| ReverseMandateStatusEnumMapper.ValueConstRoundTrip | src/main/java/it/pagopa/pn/mandate/mapper/ReverseMandateStatusEnumMapper.java:33-59 | fromValueConst and intValfromValueConst invert the wire value; null fails |
| DelegationState.FindByValue | src/main/java/it/pagopa/pn/mandate/mapper/DelegationState.java:30-36 | The search finds a constant with that value, or none has it |
| DelegationState.FindByValueConst | src/main/java/it/pagopa/pn/mandate/mapper/DelegationState.java:38-44 | The search finds a constant with that name, or none has it |
| DelegationState.AllConstants | src/main/java/it/pagopa/pn/mandate/mapper/DelegationState.java:6-10 | The searched list holds every constant |
| DelegationState.FromValueInverse | src/main/java/it/pagopa/pn/mandate/mapper/DelegationState.java:30-36 | fromValue(s.getValue()) = s; any value outside 10..50 by tens fails |
| DelegationState.FromValueConstInverse | src/main/java/it/pagopa/pn/mandate/mapper/DelegationState.java:38-44 | fromValueConst(s.getValueConst()) = s; any other name or null fails |
| DelegationState.RevokedRejectedSwapped | src/main/java/it/pagopa/pn/mandate/mapper/DelegationState.java:8-9 | revoked = 30 and rejected = 40, swapped with respect to the status mapper |
| SetUtils.Elements | src/main/java/it/pagopa/pn/mandate/utils/SetUtils.java:15-20 | A null set reads as empty |
| SetUtils.GetDiffFromSet1ToSet2 | src/main/java/it/pagopa/pn/mandate/utils/SetUtils.java:12-21 | The result holds exactly the elements of set1 that are not in set2 |
| SetUtils.DiffProperties | src/main/java/it/pagopa/pn/mandate/utils/SetUtils.java:13-19 | The result is a subset of set1 disjoint from set2; null set1 gives empty; null set2 gives set1; with the common part it rebuilds set1 |
| MandateUtils.Pow10 | src/main/java/it/pagopa/pn/mandate/utils/MandateUtils.java:14 | Powers of ten are positive |
| MandateUtils.ZeroPadded | src/main/java/it/pagopa/pn/mandate/utils/MandateUtils.java:14 | `%0Nd` gives exactly N ASCII digits |
| MandateUtils.DecimalValue | src/main/java/it/pagopa/pn/mandate/utils/MandateUtils.java:14 | N digits are worth less than 10^N |
| MandateUtils.DecimalValueOfZeroPadded | src/main/java/it/pagopa/pn/mandate/utils/MandateUtils.java:14 | Reading back a zero-padded number gives the number |
| MandateUtils.ZeroPaddedOfDecimalValue | src/main/java/it/pagopa/pn/mandate/utils/MandateUtils.java:14 | Padding the value of a digit string gives back the string |
| MandateUtils.GenerateRandomCode | src/main/java/it/pagopa/pn/mandate/utils/MandateUtils.java:12-15 | The code is 5 ASCII digits whose value is the random number |
| MandateUtils.EveryCodeIsGenerated | src/main/java/it/pagopa/pn/mandate/utils/MandateUtils.java:12-15 | Every 5-digit code is generated by exactly its own value, below 100000 |
| MandateUtils.JoinSnoc | src/main/java/it/pagopa/pn/mandate/utils/MandateUtils.java:26 | Joining one more part appends the delimiter and the part |
| MandateUtils.Split | src/main/java/it/pagopa/pn/mandate/utils/MandateUtils.java:26 | Splitting gives at least one part |
| MandateUtils.SplitWithoutSeparator | src/main/java/it/pagopa/pn/mandate/utils/MandateUtils.java:26 | Text without the separator splits to itself |
| MandateUtils.SplitAtSeparator | src/main/java/it/pagopa/pn/mandate/utils/MandateUtils.java:26 | Splitting at a separator peels off the first part |
| MandateUtils.SplitJoin | src/main/java/it/pagopa/pn/mandate/utils/MandateUtils.java:26 | Splitting a join of separator-free parts gives the parts back |
| MandateUtils.JoinCollectionRecoversParts | src/main/java/it/pagopa/pn/mandate/utils/MandateUtils.java:17-27 | A null or empty collection gives ""; a null delimiter means ","; otherwise splitting the result gives back the parts |
| MandateUtils.JoinExamples | src/test/java/it/pagopa/pn/mandate/utils/MandateUtilsTest.java:32-41 | ["a","b","c"] with "-" gives "a-b-c"; one element gives itself; no delimiter joins with ","; null and empty collections give "" |
| PgUtils.AsciiUpper | src/main/java/it/pagopa/pn/mandate/utils/PgUtils.java:33-34 | Upper-casing keeps the length and maps only a–z |
| PgUtils.AccessRules | src/main/java/it/pagopa/pn/mandate/utils/PgUtils.java:30-62 | Non-PG callers always pass; OnlyAdmin lets PG pass exactly as ADMIN with no groups; OnlyGroupAdmin exactly as ADMIN |
| PgUtils.OnlyAdminIsStricter | src/main/java/it/pagopa/pn/mandate/utils/PgUtils.java:33-55 | Passing OnlyAdmin implies passing OnlyGroupAdmin; with no groups they agree |
| PgUtils.AdminRoleAnyCase | src/main/java/it/pagopa/pn/mandate/utils/PgUtils.java:33 | "admin" and "Admin" both count as ADMIN |
| PgUtils.RoleExamples | src/main/java/it/pagopa/pn/mandate/utils/PgUtils.java:33-55 | Other or missing roles fail; a PG admin with a group fails OnlyAdmin but passes OnlyGroupAdmin |
| PgUtils.GroupClauses | src/main/java/it/pagopa/pn/mandate/utils/PgUtils.java:73-77 | One clause per group |
| PgUtils.GroupFilterStep | src/main/java/it/pagopa/pn/mandate/utils/PgUtils.java:74-77 | Each loop step extends the "OR" join by one clause |
| PgUtils.GroupFilterFinish | src/main/java/it/pagopa/pn/mandate/utils/PgUtils.java:78 | Replacing the trailing "OR" by ")" closes the filter |
| PgUtils.BuildExpressionGroupFilter | src/main/java/it/pagopa/pn/mandate/utils/PgUtils.java:70-80 | Binds :group0..:group(n-1) to the groups; the filter ORs the contains clauses in parentheses; no groups gives no filter |
| PgUtils.GroupFilterBindings | src/main/java/it/pagopa/pn/mandate/utils/PgUtils.java:75 | Exactly n placeholders are bound, placeholder k to group k |
| PgUtils.GroupFilterExamples | src/main/java/it/pagopa/pn/mandate/utils/PgUtils.java:70-80 | The filters for one and two groups, written out |
| PgUtils.SecureFilterStaysWithinCallerGroups | src/main/java/it/pagopa/pn/mandate/utils/PgUtils.java:98-106 | With caller groups, a request naming a group outside them is Forbidden; any result lies within them; a non-empty accepted request is returned as is |
| PgUtils.SecureFilterDefaults | src/main/java/it/pagopa/pn/mandate/utils/PgUtils.java:94-106 | No caller groups gives the requested groups (or none); no requested groups gives the caller's |
| WorkFlowTypes.Name | src/main/java/it/pagopa/pn/mandate/utils/TypeSegregatorFilter.java:16-28 | Every workflow type has a non-empty name |
| WorkFlowTypes.FromName | src/main/java/it/pagopa/pn/mandate/utils/TypeSegregatorFilter.java:19-26 | Reading a name gives the type of that name |
| WorkFlowTypes.FromNameOfName | src/main/java/it/pagopa/pn/mandate/utils/TypeSegregatorFilter.java:19-26 | Type names read back to their types |
| TypeSegregatorFilter.Types | src/main/java/it/pagopa/pn/mandate/utils/TypeSegregatorFilter.java:16-28 | Every filter has at least one type |
| TypeSegregatorFilter.InTypes | src/main/java/it/pagopa/pn/mandate/utils/TypeSegregatorFilter.java:16-28 | STANDARD holds STANDARD and REVERSE, CIE holds CIE, ALL holds every type |
| TypeSegregatorFilter.FirstContaining | src/main/java/it/pagopa/pn/mandate/utils/TypeSegregatorFilter.java:50-54 | The first filter in declaration order holding the type, or none holds it |
| TypeSegregatorFilter.FromWorkflowTypeChoice | src/main/java/it/pagopa/pn/mandate/utils/TypeSegregatorFilter.java:46-57 | null gives STANDARD; CIE gives CIE; others STANDARD; never ALL |
| TypeSegregatorFilter.FromWorkflowTypeIncludes | src/main/java/it/pagopa/pn/mandate/utils/TypeSegregatorFilter.java:46-90 | The filter chosen for a type includes that type |
| TypeSegregatorFilter.IsIncludedTable | src/main/java/it/pagopa/pn/mandate/utils/TypeSegregatorFilter.java:83-90 | ALL includes everything; STANDARD everything but CIE (null included); CIE only CIE |
| TypeSegregatorFilter.TypeNames | src/main/java/it/pagopa/pn/mandate/utils/TypeSegregatorFilter.java:68-73 | One name per type of the filter, in order |
| TypeSegregatorFilter.TypeClauses | src/main/java/it/pagopa/pn/mandate/utils/TypeSegregatorFilter.java:68-74 | One clause per type |
| TypeSegregatorFilter.BuildExpression | src/main/java/it/pagopa/pn/mandate/utils/TypeSegregatorFilter.java:66-75 | Binds exactly :type0..:type(n-1) to the type names in order and returns the filter's expression |
| TypeSegregatorFilter.ExpressionAdmitsMissingType | src/main/java/it/pagopa/pn/mandate/utils/TypeSegregatorFilter.java:19-26 | The expression admits a missing workflow attribute exactly for STANDARD and ALL |
| TypeSegregatorFilter.BindingsPerType | src/main/java/it/pagopa/pn/mandate/utils/TypeSegregatorFilter.java:71 | One binding per type, :type k bound to type k |
| TypeSegregatorFilter.BoundValuesAreIncluded | src/main/java/it/pagopa/pn/mandate/utils/TypeSegregatorFilter.java:66-90 | Every bound value names a type the filter includes |
| TypeSegregatorFilter.IncludedTypesAreBound | src/main/java/it/pagopa/pn/mandate/utils/TypeSegregatorFilter.java:66-90 | Every type the filter includes is bound |
| TypeSegregatorFilter.FirstTypeClauses | src/main/java/it/pagopa/pn/mandate/utils/TypeSegregatorFilter.java:71-72 | The first two clauses, written out |
| TypeSegregatorFilter.StandardExpressionExample | src/main/java/it/pagopa/pn/mandate/utils/TypeSegregatorFilter.java:16-21 | The STANDARD expression, written out |
| TypeSegregatorFilter.StandardBindingsExample | src/main/java/it/pagopa/pn/mandate/utils/TypeSegregatorFilter.java:66-75 | STANDARD binds :type0 to STANDARD and :type1 to REVERSE |
| ExpressionValues.NatToString | src/main/java/it/pagopa/pn/mandate/utils/PgUtils.java:75 | The placeholder number is written in ASCII digits |
| ExpressionValues.NatToStringValue | src/main/java/it/pagopa/pn/mandate/utils/PgUtils.java:75 | The digits read back as the number |
| ExpressionValues.Placeholder | src/main/java/it/pagopa/pn/mandate/utils/PgUtils.java:75 | A placeholder starts with its prefix |
| ExpressionValues.PlaceholderInjective | src/main/java/it/pagopa/pn/mandate/utils/PgUtils.java:75 | Different numbers give different placeholders |
| ExpressionValues.BindingsShape | src/main/java/it/pagopa/pn/mandate/utils/TypeSegregatorFilter.java:71 | Name k is bound to placeholder k, and nothing else is bound |
| ExpressionValues.BindingsCount | src/main/java/it/pagopa/pn/mandate/utils/TypeSegregatorFilter.java:71 | There are as many bindings as names |
| ExpressionValues.BindingsStep | src/main/java/it/pagopa/pn/mandate/utils/PgUtils.java:75 | One `put` per loop step extends the bindings by one |
| ExpressionValues.AttributeMap.Put | src/main/java/it/pagopa/pn/mandate/utils/PgUtils.java:75 | `put` binds or rebinds one key in the caller's map |
| ExpressionValues.StringBuilder.Append | src/main/java/it/pagopa/pn/mandate/utils/PgUtils.java:76 | `append` extends the text |
| Dates.MonthLength | src/main/java/it/pagopa/pn/ciechecker/CieCheckerImpl.java:201 | A month has 28 to 31 days |
| Dates.AfterIsStrictOrder | src/main/java/it/pagopa/pn/ciechecker/CieCheckerImpl.java:205 | `isAfter` is a strict total order on dates |
| Dates.DigitChar | src/main/java/it/pagopa/pn/ciechecker/generator/dg/CieDataGroupBuilder.java:81 | A digit character reads back as its value |
| Dates.TwoDigits | src/main/java/it/pagopa/pn/ciechecker/generator/dg/CieDataGroupBuilder.java:68-69 | Two ASCII digits worth the number |
| Dates.FormatYYMMDD | src/main/java/it/pagopa/pn/ciechecker/generator/dg/CieDataGroupBuilder.java:68-69 | yyMMdd gives six ASCII digits |
| Dates.ParseYYMMDD | src/main/java/it/pagopa/pn/ciechecker/CieCheckerImpl.java:198-201 | A parsed yyMMdd date is a real date in 2000–2099, read from six digits |
| Dates.ParseFormat | src/main/java/it/pagopa/pn/ciechecker/CieCheckerImpl.java:198-201 | A date in 2000–2099 written as yyMMdd reads back as itself |
| Dates.FormatLosesCentury | src/main/java/it/pagopa/pn/ciechecker/CieCheckerImpl.java:198-201 | Outside 2000–2099 the round trip fails: the century is lost |
| MandateValidationUtils.ValidateCountRequest | src/main/java/it/pagopa/pn/mandate/services/mandate/utils/MandateValidationUtils.java:50-62 | Passes exactly for the PENDING value; null or another status gives the unsupported-filter error on "status" |
| MandateValidationUtils.FirstInactive | src/main/java/it/pagopa/pn/mandate/services/mandate/utils/MandateValidationUtils.java:86-93 | The first group that is not active, or all are active |
| MandateValidationUtils.PGGroupsRule | src/main/java/it/pagopa/pn/mandate/services/mandate/utils/MandateValidationUtils.java:72-96 | Passes exactly when the groups are null, empty or all active; otherwise InvalidGroupCode; with no groups the registry's answer does not matter |
| MandateValidationUtils.ValidateVisibilityId | src/main/java/it/pagopa/pn/mandate/services/mandate/utils/MandateValidationUtils.java:98-119 | Passes exactly when there are no visibility ids or the registry reports none as unknown |
| MandateValidationUtils.ValidateAcceptMandateRequest | src/main/java/it/pagopa/pn/mandate/services/mandate/utils/MandateValidationUtils.java:122-139 | A missing body or code gives InvalidVerificationCode, tested before a null mandate id gives NotFound; valid input is returned unchanged |
| MandateValidationUtils.ValidateCreationRequestHimself | src/main/java/it/pagopa/pn/mandate/services/mandate/utils/MandateValidationUtils.java:142-151 | Unless the caller is PG, delegating to oneself gives MandateByHimself and a missing delegate gives NullPointer; otherwise it passes |
| MandateValidationUtils.GeneratedCodesAccepted | src/main/java/it/pagopa/pn/mandate/services/mandate/utils/MandateValidationUtils.java:177-184 | Every generated code passes the 5-digit check, and every 5-digit code is a generated one |
| MandateValidationUtils.ValidateCreationRequest | src/main/java/it/pagopa/pn/mandate/services/mandate/utils/MandateValidationUtils.java:153-206 | Passes exactly on well-formed requests, which are returned unchanged |
| MandateValidationUtils.CreationFirstFailureDecides | src/main/java/it/pagopa/pn/mandate/services/mandate/utils/MandateValidationUtils.java:153-206 | A missing delegate is reported first; with a valid delegate, a code that is not 5 digits is reported on the code field; a missing end date is reported only on a request that is otherwise well formed |
| MandateValidationUtils.DelegateNamesRule | src/main/java/it/pagopa/pn/mandate/services/mandate/utils/MandateValidationUtils.java:171-175 | A person needs first and last name, a company its company name |
| MandateValidationUtils.VerificationCodeExamples | src/main/java/it/pagopa/pn/mandate/services/mandate/utils/MandateValidationUtils.java:177-184 | "01234" passes; 4 or 6 digits, or a letter, fail |
| MandateValidationUtils.NextDay | src/main/java/it/pagopa/pn/mandate/services/mandate/utils/MandateValidationUtils.java:250-256 | Tomorrow is a valid date after today |
| MandateValidationUtils.NextDayIsNext | src/main/java/it/pagopa/pn/mandate/services/mandate/utils/MandateValidationUtils.java:250-256 | A date is after today exactly when it is not before tomorrow |
| MandateValidationUtils.ParseIsoDate | src/main/java/it/pagopa/pn/mandate/services/mandate/utils/MandateValidationUtils.java:250-252 | A parsed date is valid, years 0–9999 |
| MandateValidationUtils.FormatIsoDate | src/main/java/it/pagopa/pn/mandate/services/mandate/utils/MandateValidationUtils.java:250-252 | An ISO date has 10 characters |
| MandateValidationUtils.ParseFormatRoundTrip | src/main/java/it/pagopa/pn/mandate/services/mandate/utils/MandateValidationUtils.java:250-252 | Formatting then parsing a date gives it back |
| MandateValidationUtils.FormatParseRoundTrip | src/main/java/it/pagopa/pn/mandate/services/mandate/utils/MandateValidationUtils.java:250-252 | Parsing then formatting accepted text gives it back |
| MandateValidationUtils.ReverseEndDateRule | src/main/java/it/pagopa/pn/mandate/services/mandate/utils/MandateValidationUtils.java:208-259 | With a valid delegator and a readable end date, the request passes exactly when the end date is after today, and is then returned unchanged; otherwise the error is a pattern error on the end date |
| MandateValidationUtils.ReverseUnreadableDate | src/main/java/it/pagopa/pn/mandate/services/mandate/utils/MandateValidationUtils.java:250-252 | An unreadable end date gives a date-parse error |
| MandateValidationUtils.ValidateSearchRequest | src/main/java/it/pagopa/pn/mandate/services/mandate/utils/MandateValidationUtils.java:262-279 | Passes exactly when there are no constraint violations; otherwise reports them |
| MandateValidationUtils.ValidateListMandatesByDelegateRequest | src/main/java/it/pagopa/pn/mandate/services/mandate/utils/MandateValidationUtils.java:281-287 | PG callers are forbidden, others pass |
| MandateSearchService.Wrap32 | src/main/java/it/pagopa/pn/mandate/services/mandate/v1/MandateSearchService.java:63-69 | Java `int` arithmetic: in range, and exact when the value fits |
| MandateSearchService.Insert | src/main/java/it/pagopa/pn/mandate/services/mandate/v1/MandateSearchService.java:254 | Inserting into a sorted list keeps it sorted, with one more element |
| MandateSearchService.Sort | src/main/java/it/pagopa/pn/mandate/services/mandate/v1/MandateSearchService.java:254 | Sorting gives a sorted permutation |
| MandateSearchService.GeneratePartitions | src/main/java/it/pagopa/pn/mandate/services/mandate/v1/MandateSearchService.java:249-257 | Null gives no partitions; otherwise a sorted permutation of the statuses |
| MandateSearchService.PartitionAt | src/main/java/it/pagopa/pn/mandate/services/mandate/v1/MandateSearchService.java:214-216 | No partition exactly when there are no partitions |
| MandateSearchService.RequiredSize | src/main/java/it/pagopa/pn/mandate/services/mandate/v1/MandateSearchService.java:63 | size*maxPageNumber+1 when that fits in an `int` |
| MandateSearchService.QueryPageSize | src/main/java/it/pagopa/pn/mandate/services/mandate/v1/MandateSearchService.java:64-69 | The query page is the required size, or 4 times it when mandate ids or groups are given |
| MandateSearchService.IntToString | src/main/java/it/pagopa/pn/mandate/services/mandate/v1/MandateSearchService.java:190 | The decimal text of an `int` is non-empty |
| MandateSearchService.ParseInt | src/main/java/it/pagopa/pn/mandate/services/mandate/v1/MandateSearchService.java:205 | A parsed value is in the `int` range |
| MandateSearchService.ParseIntToString | src/main/java/it/pagopa/pn/mandate/services/mandate/v1/MandateSearchService.java:190-205 | Every `int` parses back from its text |
| MandateSearchService.IndexOf | src/main/java/it/pagopa/pn/mandate/services/mandate/v1/MandateSearchService.java:205 | The first position of the element, or -1 exactly when it is absent |
| MandateSearchService.SelectStartPartitionIdx | src/main/java/it/pagopa/pn/mandate/services/mandate/v1/MandateSearchService.java:200-212 | No key gives 0; an unparsable key fails; otherwise the index of the key's partition, or 0 when it is not requested |
| MandateSearchService.ComputeLastEvaluatedKey | src/main/java/it/pagopa/pn/mandate/services/mandate/v1/MandateSearchService.java:188-198 | The key holds exactly the pk, sk, state and delegate columns: pk, sk and delegate from the row, and the state column holds the key's partition |
| MandateSearchService.ResumeInRowPartition | src/main/java/it/pagopa/pn/mandate/services/mandate/v1/MandateSearchService.java:188-212 | A key computed after a row resumes the search in that row's partition |
| MandateSearchService.LastEvaluatedKeys | src/main/java/it/pagopa/pn/mandate/services/mandate/v1/MandateSearchService.java:173-186 | At most maxPageNumber keys; key i exists only when there are more than size*i results, and the keys stop at the first missing one |
| MandateSearchService.LastEvaluatedKeysAt | src/main/java/it/pagopa/pn/mandate/services/mandate/v1/MandateSearchService.java:177-183 | Key i (from 1) resumes after row size*i-1 |
| MandateSearchService.ComputeLastEvaluatedKeys | src/main/java/it/pagopa/pn/mandate/services/mandate/v1/MandateSearchService.java:173-186 | The loop returns LastEvaluatedKeys |
| MandateSearchService.KeysStable | src/main/java/it/pagopa/pn/mandate/services/mandate/v1/MandateSearchService.java:177-183 | Once a page has no first row, asking for more pages adds no keys |
| MandateSearchService.ReadPage | src/main/java/it/pagopa/pn/mandate/services/mandate/v1/MandateSearchService.java:72-73 | A page's key points at the following page of the same partition |
| MandateSearchService.PartitionCursor.constructor | src/main/java/it/pagopa/pn/mandate/services/mandate/v1/MandateSearchService.java:63 | The cursor starts at the selected partition |
| MandateSearchService.PartitionCursor.ReadMoreData | src/main/java/it/pagopa/pn/mandate/services/mandate/v1/MandateSearchService.java:84-116 | Enough rows stop the reading; no key moves to the next partition (or stops after the last); a key reads on in the same partition |
| MandateSearchService.FlattenSnoc | src/main/java/it/pagopa/pn/mandate/services/mandate/v1/MandateSearchService.java:76-81 | Adding one page appends its rows to the results |
| MandateSearchService.Chain | src/main/java/it/pagopa/pn/mandate/services/mandate/v1/MandateSearchService.java:72-116 | The pages `expand` reads from a query start with that query's page |
| MandateSearchService.ChainNext | src/main/java/it/pagopa/pn/mandate/services/mandate/v1/MandateSearchService.java:84-116 | With too few rows, the chain goes on with the query `readMoreData` chooses: the page's key in the same partition, or the next partition from its start |
| MandateSearchService.ChainEnd | src/main/java/it/pagopa/pn/mandate/services/mandate/v1/MandateSearchService.java:84-116 | With enough rows, or no key left in the last partition, the chain ends with the page just read |
| MandateSearchService.ChainReadsWhileShort | src/main/java/it/pagopa/pn/mandate/services/mandate/v1/MandateSearchService.java:84-116 | Every page after the first is read while fewer than the required rows are gathered |
| MandateSearchService.AdvanceChain | src/main/java/it/pagopa/pn/mandate/services/mandate/v1/MandateSearchService.java:72-116 | After one more page the chain is the pages read so far followed by the chain of the next query, and the cursor or the position in the partition advances |
| MandateSearchService.ExpandingEnd | src/main/java/it/pagopa/pn/mandate/services/mandate/v1/MandateSearchService.java:72-116 | When `readMoreData` stops, the pages read are the whole chain and the results are their rows |
| MandateSearchService.ExpandingNext | src/main/java/it/pagopa/pn/mandate/services/mandate/v1/MandateSearchService.java:72-116 | Reading the page `readMoreData` chooses keeps the rows gathered equal to the rows of the pages read and the rest of the chain in step |
| MandateSearchService.ExpandStep | src/main/java/it/pagopa/pn/mandate/services/mandate/v1/MandateSearchService.java:72-116 | One turn of `expand`: stopping completes the chain; otherwise the next page keeps the state in step and the reading advances |
| MandateSearchService.CollectResults | src/main/java/it/pagopa/pn/mandate/services/mandate/v1/MandateSearchService.java:72-81 | The pages read are exactly `Chain`, the pages that `readMoreData` chooses from the first query; the results are their rows in order; too few rows in the end means every partition was exhausted |
| MandateSearchService.PrepareResult | src/main/java/it/pagopa/pn/mandate/services/mandate/v1/MandateSearchService.java:118-142 | The page is the first `size` results without their verification code; more = results ≥ required size; the keys are LastEvaluatedKeys |
| MandateSearchService.MulMonotone | src/main/java/it/pagopa/pn/mandate/services/mandate/v1/MandateSearchService.java:63 | Multiplying by the page size is monotone |
| MandateSearchService.MoreMeansEveryKey | src/main/java/it/pagopa/pn/mandate/services/mandate/v1/MandateSearchService.java:137-140 | With no overflow, `more` holds exactly when the client gets a key for every one of the maxPageNumber pages, and then the first page is full |
| MandateSearchService.SearchByDelegate | src/main/java/it/pagopa/pn/mandate/services/mandate/v1/MandateSearchService.java:54-82 | Fails exactly on an unparsable key. Otherwise the answer is prepareResult of `SearchRows`, the rows of the chain from the key's partition and position: the first `size` of them as mandates without verification code, more = at least the required number of rows, and their continuation keys |
| MandatePrivateService.FilterGroups | src/main/java/it/pagopa/pn/mandate/services/mandate/v1/MandatePrivateService.java:80-85 | Null or empty groups give the empty filter; otherwise the set of the requested groups |
| MandatePrivateService.KeepAsWritten | src/main/java/it/pagopa/pn/mandate/services/mandate/v1/MandatePrivateService.java:88-91 | The filter as written throws exactly for an active mandate without groups, listed for PG with a group filter |
| MandatePrivateService.AsWrittenFailsWithoutGroups | src/main/java/it/pagopa/pn/mandate/services/mandate/v1/MandatePrivateService.java:88-91 | An ACTIVE mandate with null groups, filtered for PG on ["RECLAMI"], throws |
| MandatePrivateService.KeepAgreesWithAsWritten | src/main/java/it/pagopa/pn/mandate/services/mandate/v1/MandatePrivateService.java:88-91 | Wherever the filter as written answers, the corrected filter gives the same answer |
| MandatePrivateService.KeepRule | src/main/java/it/pagopa/pn/mandate/services/mandate/v1/MandatePrivateService.java:79-91 | Only ACTIVE mandates pass; non-PG or no groups means no group filtering; otherwise a mandate passes exactly when it shares a group |
| MandatePrivateService.ListMandatesByDelegators | src/main/java/it/pagopa/pn/mandate/services/mandate/v1/MandatePrivateService.java:75-94 | The listing holds exactly the found mandates that pass the filter |
| MandatePrivateService.ListDistributes | src/main/java/it/pagopa/pn/mandate/services/mandate/v1/MandatePrivateService.java:86-92 | The listing keeps the order of the rows found |
| MandatePrivateService.ListAsWritten | src/main/java/it/pagopa/pn/mandate/services/mandate/v1/MandatePrivateService.java:86-92 | The listing as written fails exactly when some found mandate makes the filter throw |
| MandatePrivateService.ListAgreesWithAsWritten | src/main/java/it/pagopa/pn/mandate/services/mandate/v1/MandatePrivateService.java:86-92 | Where the listing as written succeeds, the corrected listing gives the same mandates |
| MandatePrivateService.ListExample | src/test/java/it/pagopa/pn/mandate/services/mandate/v1/MandatePrivateServiceTest.java:140-163 | Three mandates filtered for PG on RECLAMI give exactly the active one in RECLAMI |
| Base64Validator.AlphabetPrefix | src/main/java/it/pagopa/pn/mandate/utils/Base64Validator.java:51-69 | The decoder consumes the longest prefix of alphabet characters |
| Base64Validator.PrefixBeforeStop | src/main/java/it/pagopa/pn/mandate/utils/Base64Validator.java:51-69 | Alphabet text followed by a non-alphabet character has exactly that prefix |
| Base64Validator.DecodesShape | src/main/java/it/pagopa/pn/mandate/utils/Base64Validator.java:51-69 | Text decodes exactly when it is alphabet characters not leaving one stray character, optionally completed by "=" or "==" to a multiple of 4 (sections 4 and 5 of RFC 4648) |
| Base64Validator.ShapedDecodes | src/main/java/it/pagopa/pn/mandate/utils/Base64Validator.java:51-69 | Alphabet text not leaving one stray character, optionally padded by "=" or "==" to a multiple of 4, decodes |
| Base64Validator.DecodesShaped | src/main/java/it/pagopa/pn/mandate/utils/Base64Validator.java:51-69 | Text that decodes has that shape |
| Base64Validator.CommonTextsDecodeBoth | src/main/java/it/pagopa/pn/mandate/utils/Base64Validator.java:51-69 | Without + / - _, both decoders agree |
| Base64Validator.Char | src/main/java/it/pagopa/pn/mandate/utils/Base64Validator.java:51-69 | Reference encoder: every 6-bit value has an alphabet character |
| Base64Validator.Padding | src/main/java/it/pagopa/pn/mandate/utils/Base64Validator.java:51-69 | Reference encoder: at most two padding characters |
| Base64Validator.Group | src/main/java/it/pagopa/pn/mandate/utils/Base64Validator.java:51-69 | Reference encoder: 1–3 bytes encode to 2–4 alphabet characters |
| Base64Validator.EncodeUnpadded | src/main/java/it/pagopa/pn/mandate/utils/Base64Validator.java:51-69 | Reference encoder: the unpadded encoding uses the alphabet and has n+⌈n/3⌉ characters |
| Base64Validator.Encode | src/main/java/it/pagopa/pn/mandate/utils/Base64Validator.java:51-69 | Reference encoder: the padded encoding has a multiple of 4 characters |
| Base64Validator.EncodedLength | src/main/java/it/pagopa/pn/mandate/utils/Base64Validator.java:51-69 | Reference encoder: the unpadded encoding of n bytes never leaves one stray character, and its padding completes it to a multiple of 4 |
| Base64Validator.CompletedDecodes | src/main/java/it/pagopa/pn/mandate/utils/Base64Validator.java:51-69 | Alphabet text of a legal length decodes bare and with its padding |
| Base64Validator.EncodingsDecode | src/main/java/it/pagopa/pn/mandate/utils/Base64Validator.java:51-69 | Every padded and unpadded encoding is accepted by its decoder |
| Base64Validator.ValidateBase64 | src/main/java/it/pagopa/pn/mandate/utils/Base64Validator.java:36-49 | Passes exactly on non-empty standard or URL-safe base64; null or empty gives "Missing or empty field: <name>"; anything else the invalid-encoding message |
| Base64Validator.EncodingsPass | src/main/java/it/pagopa/pn/mandate/utils/Base64Validator.java:43-48 | Every non-empty encoding passes validation |
| Base64Validator.UnpaddedUrlSafeAccepted | src/main/java/it/pagopa/pn/mandate/utils/Base64Validator.java:61-69 | "not_base64" is refused by the standard decoder but accepted by the URL-safe one, so it passes |
| Base64Validator.FieldsToValidate | src/main/java/it/pagopa/pn/mandate/utils/Base64Validator.java:20-28 | Seven fields are validated |
| Base64Validator.FirstProblem | src/main/java/it/pagopa/pn/mandate/utils/Base64Validator.java:30-33 | No problem exactly when every field passes; otherwise the problem of the first failing field |
| Base64Validator.FirstProblemAt | src/main/java/it/pagopa/pn/mandate/utils/Base64Validator.java:30-32 | When field i is the first to fail, its problem is reported |
| Base64Validator.ValidateCieValidationData | src/main/java/it/pagopa/pn/mandate/utils/Base64Validator.java:18-34 | Missing MRTD or NIS data throws a null-pointer error; otherwise the fields are checked in fixed order and it returns normally exactly when all pass |
| Base64Validator.MissingNisReported | src/main/java/it/pagopa/pn/mandate/utils/Base64Validator.java:20-41 | With valid MRTD fields and a null NIS, the error is "Missing or empty field: nisData.nis" |

## Left out

- Cryptography is left out: CMS parsing, signature and trust-chain checks, passive authentication of the NIS, the nonce challenge, and SOD decoding. Their outcomes are inputs of `CieChecker.ValidateMandate` (the `Collaborators` record).
- `ValidateUtils`, including the tax-id validator and the DG1/DG11 TLV parsers, is not part of this model. The tax-id check is a function parameter; the parsed DG11 personal number and DG1 expiry element are inputs.
- The `ResultCieChecker` enum shipped beside the checker lacks constants that the checker and the mapper use. The model declares one enum with the constants of the modelled operations, in the mapper's order. Four constants belong to operations left out as cryptography or configuration, and the model does not declare them: KO_EXC_NO_CSCA_ANCHORS_PROVIDED and KO_EXC_NOVALID_URI_CSCA_ANCHORS (`init`, CieCheckerImpl.java lines 72-93), KO_EXC_NOT_SAME_DIGEST (the log line of `verifyDigestList`, line 434) and KO_EXC_IOEXCEPTION (`verifyTrustChain`, line 464).
- `StatusEnumMapper`, which `MandateDao` and `MandatePrivateService` call, is not part of this model's sources. The model uses `ReverseMandateStatusEnumMapper` in its place. Its codes are PENDING 10, ACTIVE 20, REJECTED 30, REVOKED 40 and EXPIRED 50. `StatusEnumMapperTest` expects the same codes of `StatusEnumMapper`: ACTIVE is 20, and 30, 40 and 50 read back as REJECTED, REVOKED and EXPIRED.
- `WorkFlowType` is not part of this model's sources. The model gives it the declaration order STANDARD, REVERSE, CIE.
- `MandateEntity` as shipped declares no `workflowType` or `iuns` columns, yet `MandateDao` reads them. The model adds both fields (column names `s_workflowtype` and `a_iuns` chosen by the model). The copy constructor, like the source, does not copy them.
- The no-argument bean constructor and the plain getters and setters of `MandateEntity` are left out; their fields are the class's fields.
- DynamoDB reads and writes, transactions, and the Reactor/`CompletableFuture` plumbing are left out; concurrent updates are out of scope. The current time, history TTLs and the "live mandate" count are parameters of the DAO methods.
- MandateDao.MandateDao.RevokeMandate: the source's audit log and retrieval by delegator are left out; the retrieved mandate is a parameter.
- The status, mandate-id, delegate-is-person, notification-sent-at and sender-id filter expressions of `MandateDao` are fixed strings or single bindings. They are not modelled, and neither are `getValidToFilterExpression` or `lastEvaluatedKeySearchByDelegate`.
- Sets in the source (groups, visibility ids, IUNs) are ordered sequences where the source iterates them. The model iterates in the order the caller supplies.
- `PnLastEvaluatedKey` serialisation (Jackson, Base64) is left out. A continuation key is its external part (partition text) plus its internal part (table key).
- `deanonimizeResult`, the data-vault and registry calls, and the DTO mapper are left out. The mapper is the `toDto` parameter of `SearchByDelegate`.
- MandateSearchService.SearchByDelegate: the table is a value (`Store`) whose pages the caller supplies, and Reactor's `expand` is read as strictly sequential.
- `InputSearchMandateDto` bean validation (`@Size`, `@Max`) is a parameter of `ValidateSearchRequest`: the list of violations.
- Upper-casing (`toUpperCase`, `trim`) handles ASCII only.
- CieDataGroupBuilder.CharValue: the check digit takes `c - '0'` for every `Character.isDigit` character (CieDataGroupBuilder.java line 216). For a non-ASCII digit that is a large value; the model counts only '0'..'9' as digits and gives other digits 0.
- MandateSearchService.ParseInt: `Integer.parseInt` also accepts non-ASCII digits; the model accepts only '0'..'9'.
- `LocalDate` parsing handles years 0..9999 in ISO format and years 2000..2099 in `yyMMdd`, as Java does for two-digit years.
- The JavaScript jitter (`Math.random() * 1000`) and `setTimeout` are left out: the model records the base delay of each wait. `fetch`, SHA-256, SSM, S3 and ECS are parameters; environment variables are the `Settings` record.
- `SecureRandom` draws in `NisBuilder` are parameters: a digit stream and a byte stream. UTF-8 encoding and SHA-256 are function parameters too.
- `NisBuilder`'s SOD builders, `createCieIas`, `asReadOnlyBuffer` and `debugAsn1Structure` are left out: they wrap BouncyCastle.
- Base64Validator.ValidateBase64: the MIME and line-separator variants of the Java decoders are not used by the source and are not modelled.
- The Base64 validator test expects the field name "NIS" and rejection of "not_base64". The code names the field "nisData.nis", and its URL-safe decoder accepts "not_base64" (see `UnpaddedUrlSafeAccepted`). The model follows the code.
- `ERROR_CODE_MANDATE_NOTUPDATABLE` is referenced but not defined in the sources. The model names the failure `InvalidMandateStatus`.

## Findings

| source | as written | input that shows it | evidently intended | confidence | as-written member | corrected member |
|---|---|---|---|---|---|---|
| src/main/java/it/pagopa/pn/ciechecker/utils/CieCleanUtils.java:112-124 | The long-form length is accumulated in a 32-bit `int`, so four length bytes with the top bit set wrap to a negative value | `30 84 FF FF FF FF` is cut to its first 5 bytes; `30 84 80 00 00 00` throws NegativeArraySizeException, which the callers do not catch | A declared length larger than the field is refused with KO_EXC_CLEANING | not executed | CieCleanUtils.CleanAsn1AsWritten, CieCleanUtils.AsWrittenAcceptsGarbledLength, CieCleanUtils.AsWrittenThrowsNegativeArraySize | CieCleanUtils.CleanAsn1, CieCleanUtils.CleanAsn1Idempotent |
| src/main/java/it/pagopa/pn/mandate/services/mandate/v1/MandatePrivateService.java:88-91 | `Collections.disjoint(filterDelegateGroups, mandate.getGroups())` is called with the mandate's groups, which are null for a mandate given to the whole company | an ACTIVE mandate with null groups, listed for a PG delegate with delegateGroups ["RECLAMI"], throws NullPointerException and fails the whole listing | A mandate without groups shares no group and is left out of the listing | not executed | MandatePrivateService.KeepAsWritten, MandatePrivateService.AsWrittenFailsWithoutGroups | MandatePrivateService.ListMandatesByDelegators, MandatePrivateService.ListAgreesWithAsWritten |
