/** The acceptance error codes reported when a mandate accepted with a CIE
  * fails: each exception becomes a code name, and an invalid-CIE-data error
  * becomes the distinct codes of its categories, comma-separated. */
module CieAcceptanceErrorCategory {
  import opened Wrappers
  import opened CieExceptionMapper
  import MandateUtils

  datatype AcceptanceCategory =
    | FR01              // anti-cloning
    | FR02              // expired CIE
    | FR03              // CIE not related to the delegator
    | FR04              // data integrity
    | MANDATE_EXPIRED
    | MANDATE_NOT_FOUND
    | INVALID_MANDATE
    | TECH              // technical error

  /** The enum constant's `name()`. */
  function Code(c: AcceptanceCategory): (s: string)
    ensures s != [] && ',' !in s
  {
    match c
    case FR01 => "FR01"
    case FR02 => "FR02"
    case FR03 => "FR03"
    case FR04 => "FR04"
    case MANDATE_EXPIRED => "MANDATE_EXPIRED"
    case MANDATE_NOT_FOUND => "MANDATE_NOT_FOUND"
    case INVALID_MANDATE => "INVALID_MANDATE"
    case TECH => "TECH"
  }

  /** The enum's `valueOf`: the constant with the given name, if any. */
  function FromCode(s: string): (c: Option<AcceptanceCategory>)
    ensures c.Some? ==> Code(c.value) == s
  {
    if s == "FR01" then Some(FR01)
    else if s == "FR02" then Some(FR02)
    else if s == "FR03" then Some(FR03)
    else if s == "FR04" then Some(FR04)
    else if s == "MANDATE_EXPIRED" then Some(MANDATE_EXPIRED)
    else if s == "MANDATE_NOT_FOUND" then Some(MANDATE_NOT_FOUND)
    else if s == "INVALID_MANDATE" then Some(INVALID_MANDATE)
    else if s == "TECH" then Some(TECH)
    else None
  }

  /** Every code reads back as its constant, so distinct constants have
    * distinct codes. */
  lemma FromCodeOfCode(c: AcceptanceCategory)
    ensures FromCode(Code(c)) == Some(c)
  {
  }

  /** `fromCieErrorCategory`: input and signature errors are anti-cloning
    * failures, expiry, relation to the delegator and integrity each have
    * their own code, and a server error is technical. */
  function FromCieErrorCategory(c: CieErrorCategory): (a: AcceptanceCategory)
    ensures a in {FR01, FR02, FR03, FR04, TECH}
    ensures a == TECH <==> c == CIE_CHECKER_SERVER_ERROR
  {
    match c
    case CIE_INVALID_INPUT => FR01
    case CIE_SIGNATURE_ERROR => FR01
    case CIE_EXPIRED_ERROR => FR02
    case CIE_NOT_RELATED_TO_DELEGATOR_ERROR => FR03
    case CIE_INTEGRITY_ERROR => FR04
    case CIE_CHECKER_SERVER_ERROR => TECH
  }

  /** Two categories share a code exactly when they are equal or are the
    * input and signature errors. */
  lemma FromCieErrorCategoryMerges(a: CieErrorCategory, b: CieErrorCategory)
    ensures FromCieErrorCategory(a) == FromCieErrorCategory(b) <==>
      a == b || ((a == CIE_INVALID_INPUT || a == CIE_SIGNATURE_ERROR) && (b == CIE_INVALID_INPUT || b == CIE_SIGNATURE_ERROR))
  {
  }

  // ---- Stream.distinct ----

  /** The position of the first occurrence of `x` in `s`. */
  function FirstIndex<T(==)>(s: seq<T>, x: T): (i: nat)
    requires x in s
    ensures i < |s| && s[i] == x
    ensures forall k :: 0 <= k < i ==> s[k] != x
  {
    if s[0] == x then 0 else 1 + FirstIndex(s[1..], x)
  }

  /** `distinct()`: each element once, at its first occurrence. */
  function Distinct<T(==,!new)>(s: seq<T>): (d: seq<T>)
    ensures forall x :: x in d <==> x in s
    ensures forall i, j :: 0 <= i < j < |d| ==> d[i] != d[j]
  {
    if s == [] then []
    else
      var prefix := Distinct(s[..|s| - 1]);
      assert forall x :: x in s <==> x in s[..|s| - 1] || x == s[|s| - 1] by {
        assert s == s[..|s| - 1] + [s[|s| - 1]];
      }
      if s[|s| - 1] in prefix then prefix else prefix + [s[|s| - 1]]
  }

  lemma FirstIndexOfPrefix<T>(s: seq<T>, z: T, y: T)
    requires y in s
    ensures FirstIndex(s + [z], y) == FirstIndex(s, y)
  {
    var i0 := FirstIndex(s, y);
    var i1 := FirstIndex(s + [z], y);
    assert (s + [z])[i0] == y;
  }

  /** The distinct elements come in the order of their first occurrences. */
  lemma {:induction false} DistinctKeepsFirstSeenOrder<T(!new)>(s: seq<T>)
    ensures forall i, j :: 0 <= i < j < |Distinct(s)| ==>
      FirstIndex(s, Distinct(s)[i]) < FirstIndex(s, Distinct(s)[j])
  {
    if s != [] {
      var init := s[..|s| - 1];
      var z := s[|s| - 1];
      assert s == init + [z];
      DistinctKeepsFirstSeenOrder(init);
      var prefix := Distinct(init);
      forall y | y in prefix
        ensures FirstIndex(s, y) == FirstIndex(init, y) < |init|
      {
        FirstIndexOfPrefix(init, z, y);
      }
      if z !in prefix {
        assert FirstIndex(s, z) == |init|;
      }
    }
  }

  /** The acceptance codes of a list of categories, in list order. */
  function CodesOf(categories: seq<CieErrorCategory>): (codes: seq<string>)
    ensures |codes| == |categories|
    ensures forall i :: 0 <= i < |codes| ==> codes[i] == Code(FromCieErrorCategory(categories[i]))
  {
    if categories == [] then []
    else [Code(FromCieErrorCategory(categories[0]))] + CodesOf(categories[1..])
  }

  /** `formatMultipleErrors`: the distinct codes of the categories, joined
    * with ",". */
  function FormatMultipleErrors(categories: seq<CieErrorCategory>): (s: string)
  {
    MandateUtils.Join(",", Distinct(CodesOf(categories)))
  }

  /** Splitting the formatted string on "," gives each category's code once,
    * in first-seen order: the codes are never merged or lost. */
  lemma FormatMultipleErrorsDecodes(categories: seq<CieErrorCategory>)
    requires categories != []
    ensures MandateUtils.Split(FormatMultipleErrors(categories), ',') == Distinct(CodesOf(categories))
    ensures forall c :: c in categories ==> Code(FromCieErrorCategory(c)) in Distinct(CodesOf(categories))
    ensures forall s :: s in Distinct(CodesOf(categories)) ==>
      exists c :: c in categories && s == Code(FromCieErrorCategory(c))
  {
    var codes := CodesOf(categories);
    var d := Distinct(codes);
    assert codes[0] in d;
    forall i | 0 <= i < |d|
      ensures ',' !in d[i]
    {
      assert d[i] in codes;
    }
    MandateUtils.SplitJoin(d, ',');
    forall c | c in categories
      ensures Code(FromCieErrorCategory(c)) in d
    {
      var i :| 0 <= i < |categories| && categories[i] == c;
      assert codes[i] in codes;
    }
    forall s | s in d
      ensures exists c :: c in categories && s == Code(FromCieErrorCategory(c))
    {
      var i :| 0 <= i < |codes| && codes[i] == s;
      assert categories[i] in categories;
    }
  }

  // ---- fromThrowable ----

  /** `instanceof PnInvalidCieDataException`: the verification-code error is
    * a subclass of it. */
  predicate IsInvalidCieData(e: MandateException) {
    e.PnInvalidCieDataException? || e.PnCieInvalidVerificationCodeException?
  }

  /** `getErrorCategories()`: the verification-code error always carries the
    * signature category. */
  function ErrorCategories(e: MandateException): (cs: seq<CieErrorCategory>)
    requires IsInvalidCieData(e)
    ensures e.PnCieInvalidVerificationCodeException? ==> cs == [CIE_SIGNATURE_ERROR]
  {
    if e.PnCieInvalidVerificationCodeException? then [CIE_SIGNATURE_ERROR] else e.errorCategories
  }

  /** `EXCEPTION_MAP`, looked up by the exception's exact class. */
  function ExceptionMapLookup(e: MandateException): (c: Option<AcceptanceCategory>)
    ensures c.Some? ==> c.value in {MANDATE_EXPIRED, INVALID_MANDATE, MANDATE_NOT_FOUND}
  {
    match e
    case PnMandatePendingExpiredException => Some(MANDATE_EXPIRED)
    case PnInvalidMandateStatusException => Some(INVALID_MANDATE)
    case PnMandateNotFoundException => Some(MANDATE_NOT_FOUND)
    case _ => None
  }

  /** `fromThrowable`. */
  function FromThrowable(e: MandateException): (s: string)
    ensures !IsInvalidCieData(e) ==> FromCode(s).Some?
  {
    if IsInvalidCieData(e) then FormatMultipleErrors(ErrorCategories(e))
    else
      var c := ExceptionMapLookup(e);
      var code := Code(if c.Some? then c.value else TECH);
      FromCodeOfCode(if c.Some? then c.value else TECH);
      code
  }

  /** An exception outside the invalid-CIE-data family gives a single code:
    * its mapped code when the map has its class, TECH otherwise. */
  lemma FromThrowableSimple(e: MandateException)
    requires !IsInvalidCieData(e)
    ensures e.PnMandatePendingExpiredException? <==> FromThrowable(e) == "MANDATE_EXPIRED"
    ensures e.PnInvalidMandateStatusException? <==> FromThrowable(e) == "INVALID_MANDATE"
    ensures e.PnMandateNotFoundException? <==> FromThrowable(e) == "MANDATE_NOT_FOUND"
    ensures (e.PnInternalException? || e.OtherException?) <==> FromThrowable(e) == "TECH"
  {
  }

  /** Only the TECH constant is named "TECH". */
  lemma TechCodeOnly(a: AcceptanceCategory)
    ensures Code(a) == "TECH" <==> a == TECH
  {
  }

  /** An invalid-CIE-data error reports the distinct codes of its categories,
    * and a technical failure only when one of them is a server error. */
  lemma FromThrowableOfInvalidCieData(e: MandateException)
    requires IsInvalidCieData(e) && ErrorCategories(e) != []
    ensures MandateUtils.Split(FromThrowable(e), ',') == Distinct(CodesOf(ErrorCategories(e)))
    ensures "TECH" in MandateUtils.Split(FromThrowable(e), ',') <==> CIE_CHECKER_SERVER_ERROR in ErrorCategories(e)
  {
    var cs := ErrorCategories(e);
    assert FromThrowable(e) == FormatMultipleErrors(cs);
    FormatMultipleErrorsDecodes(cs);
    TechCodeMeansServerError(cs);
  }

  /** The TECH code stands for the server-error category and nothing else. */
  lemma TechCodeMeansServerError(cs: seq<CieErrorCategory>)
    ensures "TECH" in Distinct(CodesOf(cs)) <==> CIE_CHECKER_SERVER_ERROR in cs
  {
    var codes := CodesOf(cs);
    if CIE_CHECKER_SERVER_ERROR in cs {
      var i :| 0 <= i < |cs| && cs[i] == CIE_CHECKER_SERVER_ERROR;
      assert codes[i] == "TECH";
    }
    if "TECH" in codes {
      var i :| 0 <= i < |codes| && codes[i] == "TECH";
      TechCodeOnly(FromCieErrorCategory(cs[i]));
    }
  }

  /** The expired-and-integrity example: two codes, in order. */
  lemma ExpiredAndIntegrityCodes()
    ensures FromThrowable(PnInvalidCieDataException(CieResults.KO, [CIE_EXPIRED_ERROR, CIE_INTEGRITY_ERROR])) == "FR02,FR04"
  {
    var cs := [CIE_EXPIRED_ERROR, CIE_INTEGRITY_ERROR];
    assert cs[1..] == [CIE_INTEGRITY_ERROR];
    assert CodesOf(cs) == ["FR02", "FR04"];
    assert ["FR02", "FR04"][..1] == ["FR02"];
    assert Distinct(["FR02", "FR04"]) == ["FR02", "FR04"];
    assert ["FR02", "FR04"][1..] == ["FR04"];
    assert MandateUtils.Join(",", ["FR02", "FR04"]) == "FR02" + "," + "FR04";
  }

  /** Input and signature errors share the anti-cloning code, reported
    * once. */
  lemma InputAndSignatureCodes()
    ensures FromThrowable(PnInvalidCieDataException(CieResults.KO, [CIE_INVALID_INPUT, CIE_SIGNATURE_ERROR])) == "FR01"
  {
    var cs := [CIE_INVALID_INPUT, CIE_SIGNATURE_ERROR];
    assert cs[1..] == [CIE_SIGNATURE_ERROR];
    assert CodesOf(cs) == ["FR01", "FR01"];
    assert ["FR01", "FR01"][..1] == ["FR01"];
    assert Distinct(["FR01", "FR01"]) == ["FR01"];
  }

  /** Single-category errors report that category's code. */
  lemma SingleCategoryCodes()
    ensures FromThrowable(PnInvalidCieDataException(CieResults.KO, [CIE_CHECKER_SERVER_ERROR])) == "TECH"
    ensures FromThrowable(PnInvalidCieDataException(CieResults.KO, [CIE_NOT_RELATED_TO_DELEGATOR_ERROR])) == "FR03"
    ensures FromThrowable(PnCieInvalidVerificationCodeException(CieResults.KO_EXC_NO_MATCH_NONCE_SIGNATURE)) == "FR01"
  {
    assert CodesOf([CIE_CHECKER_SERVER_ERROR]) == ["TECH"];
    assert CodesOf([CIE_NOT_RELATED_TO_DELEGATOR_ERROR]) == ["FR03"];
    assert CodesOf([CIE_SIGNATURE_ERROR]) == ["FR01"];
  }

  /** A missing mandate has its own code; an unknown exception is TECH. */
  lemma SimpleExceptionCodes()
    ensures FromThrowable(PnMandateNotFoundException) == "MANDATE_NOT_FOUND"
    ensures FromThrowable(OtherException) == "TECH"
  {
  }
}
