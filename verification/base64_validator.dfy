/** The check that every field of a CIE validation request is Base64 text:
  * the fields are taken in a fixed order and the first one that is missing,
  * empty, or neither standard nor URL-safe Base64 (sections 4 and 5 of RFC
  * 4648) is reported. Decoding follows the JDK's basic decoders: no line
  * breaks, padding optional but complete when present, unused low bits of the
  * last character not checked. */
module Base64Validator {
  import opened Wrappers

  /** The two alphabets: section 4 (`+`, `/`) and section 5 (`-`, `_`) of
    * RFC 4648. */
  datatype Alphabet = Standard | UrlSafe

  predicate InAlphabet(c: char, a: Alphabet)
  {
    || ('A' <= c <= 'Z') || ('a' <= c <= 'z') || ('0' <= c <= '9')
    || (a == Standard && (c == '+' || c == '/'))
    || (a == UrlSafe && (c == '-' || c == '_'))
  }

  predicate AllIn(s: string, a: Alphabet)
  {
    forall i :: 0 <= i < |s| ==> InAlphabet(s[i], a)
  }

  /** The length of the longest prefix of alphabet characters. */
  function AlphabetPrefix(s: string, a: Alphabet): (p: nat)
    ensures p <= |s| && AllIn(s[..p], a)
    ensures p < |s| ==> !InAlphabet(s[p], a)
  {
    if s == [] || !InAlphabet(s[0], a) then 0
    else
      var p := 1 + AlphabetPrefix(s[1..], a);
      assert s[..p] == [s[0]] + s[1..][..p - 1];
      p
  }

  /** `Base64.getDecoder().decode(s)` (standard) or
    * `Base64.getUrlDecoder().decode(s)` (URL-safe) succeeds: the alphabet
    * characters run up to the end, leaving no single dangling character, or
    * up to a padding that completes the last group of four. */
  predicate Decodes(s: string, a: Alphabet)
  {
    var p := AlphabetPrefix(s, a);
    if p == |s| then p % 4 != 1
    else s[p] == '=' && ((p % 4 == 3 && |s| == p + 1) || (p % 4 == 2 && |s| == p + 2 && s[p + 1] == '='))
  }

  /** Alphabet characters followed by a character outside the alphabet (or
    * by nothing) make up the alphabet prefix. */
  lemma {:induction false} PrefixBeforeStop(u: string, v: string, a: Alphabet)
    requires AllIn(u, a)
    requires v != [] ==> !InAlphabet(v[0], a)
    ensures AlphabetPrefix(u + v, a) == |u|
  {
    if u != [] {
      assert (u + v)[1..] == u[1..] + v;
      PrefixBeforeStop(u[1..], v, a);
    } else {
      assert u + v == v;
    }
  }

  /** The texts a decoder accepts: alphabet characters in a number that is
    * not one more than a multiple of four, optionally followed by the one or
    * two `=` that complete the last group. */
  predicate Shaped(s: string, a: Alphabet)
  {
    || (AllIn(s, a) && |s| % 4 != 1)
    || (|s| >= 1 && s[|s| - 1] == '=' && AllIn(s[..|s| - 1], a) && (|s| - 1) % 4 == 3)
    || (|s| >= 2 && s[|s| - 2] == '=' && s[|s| - 1] == '=' && AllIn(s[..|s| - 2], a) && (|s| - 2) % 4 == 2)
  }

  /** The alphabet prefix ends where the alphabet characters stop. */
  lemma PrefixIs(s: string, k: nat, a: Alphabet)
    requires k <= |s| && AllIn(s[..k], a)
    requires k < |s| ==> !InAlphabet(s[k], a)
    ensures AlphabetPrefix(s, a) == k
  {
    assert s[..k] + s[k..] == s;
    PrefixBeforeStop(s[..k], s[k..], a);
  }

  lemma ShapedDecodes(s: string, a: Alphabet)
    requires Shaped(s, a)
    ensures Decodes(s, a)
  {
    if AllIn(s, a) && |s| % 4 != 1 {
      assert s[..|s|] == s;
      PrefixIs(s, |s|, a);
    } else if |s| >= 1 && s[|s| - 1] == '=' && AllIn(s[..|s| - 1], a) && (|s| - 1) % 4 == 3 {
      PrefixIs(s, |s| - 1, a);
    } else {
      PrefixIs(s, |s| - 2, a);
    }
  }

  lemma DecodesShaped(s: string, a: Alphabet)
    requires Decodes(s, a)
    ensures Shaped(s, a)
  {
    var p := AlphabetPrefix(s, a);
    if p == |s| {
      assert s[..p] == s;
    } else if p % 4 == 3 {
      assert s[..|s| - 1] == s[..p];
    } else {
      assert s[..|s| - 2] == s[..p];
    }
  }

  /** A decoder accepts exactly the texts of that shape. */
  lemma DecodesShape(s: string, a: Alphabet)
    ensures Decodes(s, a) <==>
      || (AllIn(s, a) && |s| % 4 != 1)
      || (|s| >= 1 && s[|s| - 1] == '=' && AllIn(s[..|s| - 1], a) && (|s| - 1) % 4 == 3)
      || (|s| >= 2 && s[|s| - 2] == '=' && s[|s| - 1] == '=' && AllIn(s[..|s| - 2], a) && (|s| - 2) % 4 == 2)
  {
    if Decodes(s, a) {
      DecodesShaped(s, a);
    } else if Shaped(s, a) {
      ShapedDecodes(s, a);
    }
  }

  /** Standard Base64 without `+` or `/` is URL-safe Base64 as well, and
    * the other way round without `-` or `_`. */
  lemma CommonTextsDecodeBoth(s: string)
    requires forall i :: 0 <= i < |s| ==> s[i] !in "+/-_"
    ensures Decodes(s, Standard) <==> Decodes(s, UrlSafe)
  {
    assert forall i :: 0 <= i < |s| ==> (InAlphabet(s[i], Standard) <==> InAlphabet(s[i], UrlSafe));
    DecodesShape(s, Standard);
    DecodesShape(s, UrlSafe);
  }

  newtype byte = x: int | 0 <= x < 256

  /** The character of a six-bit value. */
  function Char(v: int, a: Alphabet): (c: char)
    requires 0 <= v < 64
    ensures InAlphabet(c, a)
  {
    if v < 26 then ('A' as int + v) as char
    else if v < 52 then ('a' as int + v - 26) as char
    else if v < 62 then ('0' as int + v - 52) as char
    else if v == 62 then (if a == Standard then '+' else '-')
    else (if a == Standard then '/' else '_')
  }

  /** How many `=` complete the last group of an encoding of `n` bytes. */
  function Padding(n: nat): (k: nat)
    ensures k < 3
  {
    if n % 3 == 0 then 0 else 3 - n % 3
  }

  /** The characters of the last one, two or three bytes of the data: two,
    * three or four six-bit values. */
  function Group(data: seq<byte>, a: Alphabet): (chars: string)
    requires 1 <= |data| <= 3
    ensures |chars| == |data| + 1 && AllIn(chars, a)
  {
    var b0 := data[0] as int;
    var b1 := if |data| > 1 then data[1] as int else 0;
    var b2 := if |data| > 2 then data[2] as int else 0;
    var c0, c1 := Char(b0 / 4, a), Char(b0 % 4 * 16 + b1 / 16, a);
    if |data| == 1 then [c0, c1]
    else if |data| == 2 then [c0, c1, Char(b1 % 16 * 4, a)]
    else [c0, c1, Char(b1 % 16 * 4 + b2 / 64, a), Char(b2 % 64, a)]
  }

  /** The Base64 encoding of `data` without padding (the JDK's
    * `withoutPadding()` encoders): four characters for every three bytes,
    * two or three for a last group of one or two bytes. */
  function EncodeUnpadded(data: seq<byte>, a: Alphabet): (text: string)
    ensures AllIn(text, a)
    ensures |text| == |data| + (|data| + 2) / 3
  {
    if data == [] then []
    else if |data| <= 3 then Group(data, a)
    else
      var head, rest := Group(data[..3], a), EncodeUnpadded(data[3..], a);
      head + rest
  }

  /** The padded encoding (section 4 or 5 of RFC 4648, the JDK's default
    * encoders): the last group completed with `=`. */
  function Encode(data: seq<byte>, a: Alphabet): (text: string)
    ensures |text| % 4 == 0
  {
    EncodedLength(|data|);
    EncodeUnpadded(data, a) + "=="[..Padding(|data|)]
  }

  /** `n` bytes give `n + ceil(n / 3)` characters, never one more than a
    * multiple of four, and the padding completes them to a multiple of four. */
  lemma EncodedLength(n: nat)
    ensures (n + (n + 2) / 3) % 4 != 1
    ensures (n + (n + 2) / 3 + Padding(n)) % 4 == 0
  {
    var q, r := n / 3, n % 3;
    assert n == 3 * q + r;
    if r == 0 {
      assert (n + 2) / 3 == q;
    } else {
      assert (n + 2) / 3 == q + 1;
    }
  }

  /** Alphabet text completed to a whole number of groups by at most two
    * `=` decodes, and so does the text without them. */
  lemma CompletedDecodes(body: string, padding: nat, a: Alphabet)
    requires AllIn(body, a) && padding < 3
    requires (|body| + padding) % 4 == 0 && |body| % 4 != 1
    ensures Decodes(body, a)
    ensures Decodes(body + "=="[..padding], a)
  {
    var text := body + "=="[..padding];
    assert body + [] == body;
    PrefixBeforeStop(body, [], a);
    PrefixBeforeStop(body, "=="[..padding], a);
    if padding == 1 {
      assert |body| % 4 == 3 && text[|body|] == '=';
    } else if padding == 2 {
      assert |body| % 4 == 2 && text[|body|] == '=' && text[|body| + 1] == '=';
    } else {
      assert text == body;
    }
  }

  /** Every encoding is accepted by the decoder of its alphabet, padded or
    * unpadded. */
  lemma EncodingsDecode(data: seq<byte>, a: Alphabet)
    ensures Decodes(Encode(data, a), a)
    ensures Decodes(EncodeUnpadded(data, a), a)
  {
    EncodedLength(|data|);
    CompletedDecodes(EncodeUnpadded(data, a), Padding(|data|), a);
  }

  /** The detail of a rejected field. */
  function MissingOrEmpty(fieldName: string): string
  {
    "Missing or empty field: " + fieldName
  }

  function InvalidEncoding(fieldName: string): string
  {
    "Invalid Base64 encoding in field: " + fieldName
  }

  /** A value the check lets through: present, not empty, and accepted by
    * the standard or the URL-safe decoder. */
  predicate IsBase64Value(value: Option<string>)
  {
    value.Some? && value.value != [] && (Decodes(value.value, Standard) || Decodes(value.value, UrlSafe))
  }

  /** `validateBase64`: the detail of the bad request, if the value is
    * missing, empty, or neither standard nor URL-safe Base64. */
  function ValidateBase64(value: Option<string>, fieldName: string): (problem: Option<string>)
    ensures problem.None? <==> IsBase64Value(value)
    ensures (value.None? || value.value == []) ==> problem == Some(MissingOrEmpty(fieldName))
    ensures value.Some? && value.value != [] && problem.Some? ==> problem == Some(InvalidEncoding(fieldName))
  {
    if value.None? || value.value == [] then Some(MissingOrEmpty(fieldName))
    else if !(Decodes(value.value, Standard) || Decodes(value.value, UrlSafe)) then Some(InvalidEncoding(fieldName))
    else None
  }

  /** Any non-empty encoding, padded or not, in either alphabet passes. */
  lemma EncodingsPass(data: seq<byte>, a: Alphabet)
    requires data != []
    ensures IsBase64Value(Some(Encode(data, a)))
    ensures IsBase64Value(Some(EncodeUnpadded(data, a)))
  {
    EncodingsDecode(data, a);
    assert |EncodeUnpadded(data, a)| != 0 by {
      if |data| >= 3 {
        assert data[3..] + [] != data;
      }
    }
  }

  /** Text that is not standard Base64 still passes when it is unpadded
    * URL-safe Base64, as `not_base64` is. */
  lemma UnpaddedUrlSafeAccepted()
    ensures !Decodes("not_base64", Standard)
    ensures Decodes("not_base64", UrlSafe)
    ensures IsBase64Value(Some("not_base64"))
  {
    var s := "not_base64";
    assert s[..3] + s[3..] == s;
    PrefixBeforeStop(s[..3], s[3..], Standard);
    assert s + [] == s;
    PrefixBeforeStop(s, [], UrlSafe);
  }

  /** The security data read by the NFC chip of an electronic identity
    * card, and the nonce it signed. */
  datatype MrtdData = MrtdData(sod: Option<string>, dg1: Option<string>, dg11: Option<string>)
  datatype NisData = NisData(nis: Option<string>, sod: Option<string>, pubKey: Option<string>)
  datatype CieValidationData = CieValidationData(mrtdData: Option<MrtdData>, nisData: Option<NisData>,
                                                 signedNonce: Option<string>)

  /** A named field. */
  datatype Field = Field(value: Option<string>, name: string)

  /** The fields in the order they are checked. */
  function FieldsToValidate(mrtd: MrtdData, nis: NisData, signedNonce: Option<string>): (fields: seq<Field>)
    ensures |fields| == 7
  {
    [ Field(mrtd.sod, "mrtdData.sod"), Field(mrtd.dg1, "mrtdData.dg1"), Field(mrtd.dg11, "mrtdData.dg11"),
      Field(nis.nis, "nisData.nis"), Field(nis.sod, "nisData.sod"), Field(nis.pubKey, "nisData.pub_key"),
      Field(signedNonce, "signedNonce") ]
  }

  /** The problem with the first field that has one. */
  function FirstProblem(fields: seq<Field>): (problem: Option<string>)
    ensures problem.None? <==> forall i :: 0 <= i < |fields| ==> IsBase64Value(fields[i].value)
    ensures problem.Some? ==>
              exists i :: && 0 <= i < |fields|
                          && problem == ValidateBase64(fields[i].value, fields[i].name)
                          && forall j :: 0 <= j < i ==> IsBase64Value(fields[j].value)
  {
    if fields == [] then None
    else
      var first := ValidateBase64(fields[0].value, fields[0].name);
      if first.Some? then first
      else
        var rest := FirstProblem(fields[1..]);
        if rest.Some? then
          var i :| 0 <= i < |fields[1..]| && rest == ValidateBase64(fields[1..][i].value, fields[1..][i].name) &&
            forall j :: 0 <= j < i ==> IsBase64Value(fields[1..][j].value);
          assert forall j :: 1 <= j < i + 1 ==> fields[j] == fields[1..][j - 1];
          rest
        else
          assert forall i :: 1 <= i < |fields| ==> fields[i] == fields[1..][i - 1];
          rest
  }

  /** The first failure decides: the problem reported is the one of the
    * first field that is not Base64. */
  lemma {:induction false} FirstProblemAt(fields: seq<Field>, i: nat)
    requires i < |fields| && !IsBase64Value(fields[i].value)
    requires forall j :: 0 <= j < i ==> IsBase64Value(fields[j].value)
    ensures FirstProblem(fields) == ValidateBase64(fields[i].value, fields[i].name)
  {
    if i > 0 {
      assert forall j :: 0 <= j < i - 1 ==> fields[1..][j] == fields[j + 1];
      FirstProblemAt(fields[1..], i - 1);
    }
  }

  /** Why the request is refused: the detail of the bad request, or a
    * missing group of data (`NullPointerException`). */
  datatype ValidationError = BadRequest(detail: string) | NullPointer

  /** `validateCieValidationData`: nothing when every field is Base64. */
  function ValidateCieValidationData(data: CieValidationData): (error: Option<ValidationError>)
    ensures (data.mrtdData.None? || data.nisData.None?) ==> error == Some(NullPointer)
    ensures data.mrtdData.Some? && data.nisData.Some? ==>
      (var fields := FieldsToValidate(data.mrtdData.value, data.nisData.value, data.signedNonce);
       (error.None? <==> forall i :: 0 <= i < |fields| ==> IsBase64Value(fields[i].value)))
  {
    if data.mrtdData.None? || data.nisData.None? then Some(NullPointer)
    else
      var problem := FirstProblem(FieldsToValidate(data.mrtdData.value, data.nisData.value, data.signedNonce));
      if problem.Some? then Some(BadRequest(problem.value)) else None
  }

  /** With valid card data, a missing NIS is reported as such whatever
    * follows it. */
  lemma MissingNisReported(mrtd: MrtdData, nis: NisData, signedNonce: Option<string>)
    requires IsBase64Value(mrtd.sod) && IsBase64Value(mrtd.dg1) && IsBase64Value(mrtd.dg11)
    requires nis.nis.None?
    ensures ValidateCieValidationData(CieValidationData(Some(mrtd), Some(nis), signedNonce)) ==
      Some(BadRequest(MissingOrEmpty("nisData.nis")))
  {
    var fields := FieldsToValidate(mrtd, nis, signedNonce);
    FirstProblemAt(fields, 3);
  }
}
