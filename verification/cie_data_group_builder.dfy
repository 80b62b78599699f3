/** The test-data builder for CIE data groups: the 90-character TD1
  * machine-readable zone of DG1 with its check digits (section 4.9 of ICAO
  * Doc 9303 Part 3, TD1 layout of ICAO Doc 9303 Part 5), and the tag list
  * of DG11. */
module CieDataGroupBuilder {
  import opened Wrappers
  import opened Dates

  const Filler: char := '<'

  /** The input of `buildMrz`. String fields may be null; the dates may not. */
  datatype MrzData = MrzData(
    docCode: Option<string>, issuingState: Option<string>, documentNumber: Option<string>,
    birthDate: Date, sex: char, expiryDate: Date, nationality: Option<string>,
    surname: Option<string>, givenNames: Option<string>,
    optional1: Option<string>, optional2: Option<string>)

  /** `nz`: null becomes the empty string. */
  function Nz(s: Option<string>): (r: string)
    ensures s.Some? ==> r == s.value
    ensures s.None? ==> r == ""
  {
    if s.None? then "" else s.value
  }

  function UpperChar(c: char): (u: char)
    ensures !('a' <= u <= 'z')
  {
    if 'a' <= c <= 'z' then (c as int - 'a' as int + 'A' as int) as char else c
  }

  /** `toUpperCase` on the ASCII letters. */
  function ToUpper(s: string): (r: string)
    ensures |r| == |s| && forall i :: 0 <= i < |s| ==> r[i] == UpperChar(s[i])
  {
    seq(|s|, i requires 0 <= i < |s| => UpperChar(s[i]))
  }

  /** `replace(' ', '<')`: every space becomes a filler. */
  function SpacesToFiller(s: string): (r: string)
    ensures |r| == |s|
    ensures forall i :: 0 <= i < |s| ==> r[i] == (if s[i] == ' ' then Filler else s[i])
  {
    seq(|s|, i requires 0 <= i < |s| => if s[i] == ' ' then Filler else s[i])
  }

  /** Upper-cased, with spaces turned into fillers. */
  function Clean(s: Option<string>): (r: string)
    ensures |r| == |Nz(s)| && ' ' !in r
  {
    SpacesToFiller(ToUpper(Nz(s)))
  }

  /** `sanitizeOpt`: null or empty gives "", anything else is cleaned. */
  function SanitizeOpt(s: Option<string>): (r: string)
    ensures r == Clean(s)
  {
    if s.None? || s.value == "" then "" else SpacesToFiller(ToUpper(s.value))
  }

  /** `padRight`: exactly `length` characters, the input cut if it is too
    * long, or followed by `pad` up to `length`. */
  function PadRight(input: string, length: nat, pad: char): (r: string)
    ensures |r| == length
    ensures |input| >= length ==> r == input[..length]
    ensures |input| < length ==> r[..|input|] == input && forall i :: |input| <= i < length ==> r[i] == pad
  {
    if |input| >= length then input[..length] else input + seq(length - |input|, _ => pad)
  }

  /** The value of one character in a check digit: its digit value for
    * '0'..'9', 10..35 for 'A'..'Z', and 0 for anything else (the filler
    * included). */
  function CharValue(c: char): (v: nat)
    ensures v < 36
    ensures IsAsciiDigit(c) ==> v == DigitValue(c)
    ensures 'A' <= c <= 'Z' ==> v == c as int - 'A' as int + 10
    ensures !IsAsciiDigit(c) && !('A' <= c <= 'Z') ==> v == 0
  {
    if IsAsciiDigit(c) then c as int - '0' as int
    else if 'A' <= c <= 'Z' then c as int - 'A' as int + 10
    else 0
  }

  /** The repeating weights 7, 3, 1. */
  function Weight(i: nat): (w: nat)
    ensures w == 7 || w == 3 || w == 1
  {
    [7, 3, 1][i % 3]
  }

  /** The sum of each character's value times the weight of its position. */
  function WeightedSum(s: string): nat
  {
    if s == [] then 0 else WeightedSum(s[..|s| - 1]) + CharValue(s[|s| - 1]) * Weight(|s| - 1)
  }

  /** The check digit of `s`: the weighted sum modulo 10. */
  function CheckDigit(s: string): (d: nat)
    ensures d < 10
  {
    WeightedSum(s) % 10
  }

  /** `checkDigit`: the loop that accumulates the weighted sum. */
  method ComputeCheckDigit(data: string) returns (d: int)
    ensures d == CheckDigit(data)
    ensures 0 <= d < 10
  {
    var sum := 0;
    var i := 0;
    while i < |data|
      invariant 0 <= i <= |data|
      invariant sum == WeightedSum(data[..i])
    {
      var c := data[i];
      var val;
      if IsAsciiDigit(c) {
        val := c as int - '0' as int;
      } else if 'A' <= c <= 'Z' {
        val := c as int - 'A' as int + 10;
      } else {
        val := 0;
      }
      assert data[..i + 1][..i] == data[..i];
      sum := sum + val * [7, 3, 1][i % 3];
      i := i + 1;
    }
    assert data[..i] == data;
    d := sum % 10;
  }

  /** Changing the character at position `i` changes the weighted sum by the
    * weight of `i` times the change in the character's value. */
  lemma {:induction false} WeightedSumChange(s: string, i: nat, c: char)
    requires i < |s|
    ensures WeightedSum(s[i := c]) == WeightedSum(s) + Weight(i) * (CharValue(c) - CharValue(s[i]))
    decreases |s|
  {
    var t := s[i := c];
    if i == |s| - 1 {
      assert t[..|t| - 1] == s[..|s| - 1];
    } else {
      WeightedSumChange(s[..|s| - 1], i, c);
      assert t[..|t| - 1] == s[..|s| - 1][i := c];
    }
  }

  /** A non-zero change below 10 in absolute value, times 7, 3 or 1, is never a
    * multiple of 10. */
  lemma WeightedChangeNotMultipleOfTen(w: int, delta: int)
    requires w == 7 || w == 3 || w == 1
    requires -9 <= delta <= 9 && delta != 0
    ensures (w * delta) % 10 != 0
  {
    assert delta == -9 || delta == -8 || delta == -7 || delta == -6 || delta == -5 || delta == -4
        || delta == -3 || delta == -2 || delta == -1 || delta == 1 || delta == 2 || delta == 3
        || delta == 4 || delta == 5 || delta == 6 || delta == 7 || delta == 8 || delta == 9;
  }

  /** The check digit detects any single mistyped digit: replacing one
    * digit of `s` by another digit changes the check digit. */
  lemma SingleDigitErrorDetected(s: string, i: nat, c: char)
    requires i < |s| && IsAsciiDigit(s[i]) && IsAsciiDigit(c) && c != s[i]
    ensures CheckDigit(s[i := c]) != CheckDigit(s)
  {
    WeightedSumChange(s, i, c);
    var delta := CharValue(c) - CharValue(s[i]);
    assert delta != 0 by {
      assert c as int - '0' as int != s[i] as int - '0' as int;
    }
    WeightedChangeNotMultipleOfTen(Weight(i), delta);
    ShiftChangesLastDigit(WeightedSum(s), Weight(i) * delta);
  }

  /** Adding a number that is not a multiple of 10 changes the remainder
    * modulo 10. */
  lemma ShiftChangesLastDigit(a: int, p: int)
    requires p % 10 != 0
    ensures (a + p) % 10 != a % 10
  {
    assert a == 10 * (a / 10) + a % 10;
    assert a + p == 10 * ((a + p) / 10) + (a + p) % 10;
    assert p == 10 * (p / 10) + p % 10;
  }

  /** A check digit as its character. */
  function CheckChar(s: string): (c: char)
    ensures IsAsciiDigit(c) && DigitValue(c) == CheckDigit(s)
  {
    DigitChar(CheckDigit(s))
  }

  /** The sex character: 'M' or 'F' is kept, anything else is a filler. */
  function SexChar(sex: char): (c: char)
    ensures c == 'M' || c == 'F' || c == Filler
    ensures (sex == 'M' || sex == 'F') ==> c == sex
    ensures !(sex == 'M' || sex == 'F') ==> c == Filler
  {
    if sex == 'M' || sex == 'F' then sex else Filler
  }

  /** The nine-character document-number block. */
  function DocNumberBlock(data: MrzData): (b: string)
    ensures |b| == 9
  {
    PadRight(Clean(data.documentNumber), 9, Filler)[..9]
  }

  /** The first line: document code, issuing state, document number, its
    * check digit and the first optional field. */
  function Line1(data: MrzData): (line: string)
    ensures |line| == 30
  {
    var docCode2 := PadRight(Clean(data.docCode), 2, Filler)[..2];
    var issuingState3 := PadRight(ToUpper(Nz(data.issuingState)), 3, Filler)[..3];
    var docNumber9 := DocNumberBlock(data);
    var optional1 := PadRight(SanitizeOpt(data.optional1), 15, Filler);
    PadRight(docCode2 + issuingState3 + docNumber9 + [CheckChar(docNumber9)] + optional1, 30, Filler)[..30]
  }

  /** The second line: birth date and its check digit, sex, expiry date and
    * its check digit, nationality, the second optional field and the
    * composite check digit. */
  function Line2(data: MrzData): (line: string)
    requires Valid(data.birthDate) && Valid(data.expiryDate)
    ensures |line| == 30
  {
    var docNumber9 := DocNumberBlock(data);
    var dob := FormatYYMMDD(data.birthDate);
    var exp := FormatYYMMDD(data.expiryDate);
    var nationality3 := PadRight(ToUpper(Nz(data.nationality)), 3, Filler)[..3];
    var optional2 := PadRight(SanitizeOpt(data.optional2), 11, Filler);
    var composite := docNumber9 + [CheckChar(docNumber9)] + dob + [CheckChar(dob)] + exp + [CheckChar(exp)] + optional2;
    var line2Body := dob + [CheckChar(dob)] + [SexChar(data.sex)] + exp + [CheckChar(exp)] + nationality3 + optional2;
    PadRight(line2Body[..29] + [CheckChar(composite)], 30, Filler)[..30]
  }

  /** The third line: surname, two fillers and given names. */
  function Line3(data: MrzData): (line: string)
    ensures |line| == 30
  {
    PadRight(Clean(data.surname) + "<<" + Clean(data.givenNames), 30, Filler)[..30]
  }

  /** `buildMrz`: the three 30-character TD1 lines, concatenated. */
  function BuildMrz(data: MrzData): (mrz: string)
    requires Valid(data.birthDate) && Valid(data.expiryDate)
    ensures |mrz| == 90
  {
    Line1(data) + Line2(data) + Line3(data)
  }

  /** The fields of the first line and its check digit. */
  lemma Line1Layout(data: MrzData)
    ensures var line := Line1(data);
      && line[..2] == PadRight(Clean(data.docCode), 2, Filler)
      && line[2..5] == PadRight(ToUpper(Nz(data.issuingState)), 3, Filler)
      && line[5..14] == DocNumberBlock(data)
      && line[14] == CheckChar(DocNumberBlock(data))
      && line[15..] == PadRight(SanitizeOpt(data.optional1), 15, Filler)
      && line[5..15] == DocNumberBlock(data) + [CheckChar(DocNumberBlock(data))]
  {
    var docCode2 := PadRight(Clean(data.docCode), 2, Filler);
    var issuingState3 := PadRight(ToUpper(Nz(data.issuingState)), 3, Filler);
    var docNumber9 := DocNumberBlock(data);
    var optional1 := PadRight(SanitizeOpt(data.optional1), 15, Filler);
    var body := docCode2 + issuingState3 + docNumber9 + [CheckChar(docNumber9)] + optional1;
    assert docCode2[..2] == docCode2 && issuingState3[..3] == issuingState3;
    assert Line1(data) == body;
  }

  /** Where the pieces of a second line sit. */
  lemma Line2Slices(dob: string, dobCheck: char, sex: char, exp: string, expCheck: char,
                    nationality3: string, optional2: string, check: char)
    requires |dob| == 6 && |exp| == 6 && |nationality3| == 3 && |optional2| == 11
    ensures var line := dob + [dobCheck] + [sex] + exp + [expCheck] + nationality3 + optional2 + [check];
      && |line| == 30
      && line[..6] == dob && line[6] == dobCheck && line[7] == sex
      && line[8..14] == exp && line[14] == expCheck
      && line[15..18] == nationality3 && line[18..29] == optional2 && line[29] == check
      && line[..7] == dob + [dobCheck] && line[8..15] == exp + [expCheck]
  {
  }

  /** The fields of the second line and its check digits; the last one
    * covers the document number of the first line. */
  lemma Line2Layout(data: MrzData)
    requires Valid(data.birthDate) && Valid(data.expiryDate)
    ensures var line := Line2(data);
      && line[..6] == FormatYYMMDD(data.birthDate)
      && line[6] == CheckChar(line[..6])
      && line[7] == SexChar(data.sex)
      && line[8..14] == FormatYYMMDD(data.expiryDate)
      && line[14] == CheckChar(line[8..14])
      && line[15..18] == PadRight(ToUpper(Nz(data.nationality)), 3, Filler)
      && line[18..29] == PadRight(SanitizeOpt(data.optional2), 11, Filler)
      && line[29] == CheckChar(Line1(data)[5..15] + line[..7] + line[8..15] + line[18..29])
  {
    var docNumber9 := DocNumberBlock(data);
    var dob := FormatYYMMDD(data.birthDate);
    var exp := FormatYYMMDD(data.expiryDate);
    var nationality3 := PadRight(ToUpper(Nz(data.nationality)), 3, Filler);
    var optional2 := PadRight(SanitizeOpt(data.optional2), 11, Filler);
    var composite := docNumber9 + [CheckChar(docNumber9)] + dob + [CheckChar(dob)] + exp + [CheckChar(exp)] + optional2;
    var line2Body := dob + [CheckChar(dob)] + [SexChar(data.sex)] + exp + [CheckChar(exp)] + nationality3 + optional2;
    assert nationality3[..3] == nationality3;
    assert |line2Body| == 29 && line2Body[..29] == line2Body;
    var line := line2Body + [CheckChar(composite)];
    assert Line2(data) == line;
    Line2Slices(dob, CheckChar(dob), SexChar(data.sex), exp, CheckChar(exp), nationality3, optional2, CheckChar(composite));
    Line1Layout(data);
    var numberBlock := Line1(data)[5..15];
    assert composite == numberBlock + line[..7] + line[8..15] + line[18..29];
  }

  /** Where the three lines sit in the zone. */
  lemma MrzLines(data: MrzData)
    requires Valid(data.birthDate) && Valid(data.expiryDate)
    ensures BuildMrz(data)[..30] == Line1(data)
    ensures BuildMrz(data)[30..60] == Line2(data)
    ensures BuildMrz(data)[60..] == Line3(data)
  {
  }

  /** The expiry date sits at characters 38..43 of the zone, the check digit
    * guarding it right after. */
  lemma MrzExpiry(data: MrzData)
    requires Valid(data.birthDate) && Valid(data.expiryDate)
    ensures BuildMrz(data)[38..44] == FormatYYMMDD(data.expiryDate)
    ensures BuildMrz(data)[44] == CheckChar(FormatYYMMDD(data.expiryDate))
  {
    Line2Layout(data);
    MrzLines(data);
    var mrz, l2 := BuildMrz(data), Line2(data);
    assert mrz[38..44] == mrz[30..60][8..14];
  }

  /** The name line: surname, two fillers, given names, cut or padded to 30. */
  lemma NameLine(data: MrzData)
    requires Valid(data.birthDate) && Valid(data.expiryDate)
    ensures BuildMrz(data)[60..] == PadRight(Clean(data.surname) + "<<" + Clean(data.givenNames), 30, Filler)
    ensures |Clean(data.surname)| + 2 + |Clean(data.givenNames)| > 30 ==>
      BuildMrz(data)[60..] == (Clean(data.surname) + "<<" + Clean(data.givenNames))[..30]
    ensures |Clean(data.surname)| + 2 + |Clean(data.givenNames)| <= 30 ==>
      var line3 := BuildMrz(data)[60..];
      && line3[..|Clean(data.surname)|] == Clean(data.surname)
      && line3[|Clean(data.surname)|..|Clean(data.surname)| + 2] == "<<"
      && line3[|Clean(data.surname)| + 2..|Clean(data.surname)| + 2 + |Clean(data.givenNames)|] == Clean(data.givenNames)
      && forall i :: |Clean(data.surname)| + 2 + |Clean(data.givenNames)| <= i < 30 ==> line3[i] == Filler
  {
    MrzLines(data);
    var name := Clean(data.surname) + "<<" + Clean(data.givenNames);
    var line3 := BuildMrz(data)[60..];
    assert line3 == PadRight(name, 30, Filler);
    if |name| <= 30 {
      assert line3[..|name|] == name;
    }
  }

  // ---- DG11 tag list ----

  /** The DG11 fields of `buildDG11`; each may be null. */
  datatype Dg11Fields = Dg11Fields(
    fullName: Option<string>, codiceFiscale: Option<string>, birthDate: Option<Date>,
    placeOfBirth: Option<string>, address: Option<string>, telephone: Option<string>,
    profession: Option<string>)

  /** The two-byte tags of the DG11 fields, in the order `buildDG11` tests
    * them: full name, personal number, date of birth, place of birth,
    * address, telephone, profession. */
  const Dg11Tags: seq<seq<byte>> :=
    [[0x5F, 0x0E], [0x5F, 0x10], [0x5F, 0x2B], [0x5F, 0x11], [0x5F, 0x42], [0x5F, 0x12], [0x5F, 0x13]]

  /** Whether each field, in tag order, is non-null. */
  function Presence(f: Dg11Fields): (p: seq<bool>)
    ensures |p| == |Dg11Tags|
  {
    [f.fullName.Some?, f.codiceFiscale.Some?, f.birthDate.Some?, f.placeOfBirth.Some?,
     f.address.Some?, f.telephone.Some?, f.profession.Some?]
  }

  /** The tags of the fields marked present, in order. */
  function Select(tags: seq<seq<byte>>, present: seq<bool>): (r: seq<seq<byte>>)
    requires |present| == |tags|
    ensures |r| <= |tags|
    decreases |tags|
  {
    if tags == [] then []
    else (if present[0] then [tags[0]] else []) + Select(tags[1..], present[1..])
  }

  /** `presentTags`: one tag per non-null field, in the fixed field order. */
  function PresentTags(f: Dg11Fields): (tags: seq<seq<byte>>)
  {
    Select(Dg11Tags, Presence(f))
  }

  /** The number of fields marked present. */
  function CountPresent(present: seq<bool>): (n: nat)
    ensures n <= |present|
  {
    if present == [] then 0 else (if present[0] then 1 else 0) + CountPresent(present[1..])
  }

  /** The selected tags are exactly the tags of the present fields: their
    * number is the count of present fields, each selected tag is one of the
    * present fields' tags, and order is kept (the `k`-th selected tag is the
    * tag of the `k`-th present field). */
  lemma {:induction false} SelectSpec(tags: seq<seq<byte>>, present: seq<bool>)
    requires |present| == |tags|
    ensures |Select(tags, present)| == CountPresent(present)
    ensures forall j :: 0 <= j < |tags| && present[j] ==>
              CountPresent(present[..j]) < CountPresent(present)
              && Select(tags, present)[CountPresent(present[..j])] == tags[j]
    decreases |tags|
  {
    if tags != [] {
      SelectSpec(tags[1..], present[1..]);
      var rest := Select(tags[1..], present[1..]);
      var head: seq<seq<byte>> := if present[0] then [tags[0]] else [];
      assert Select(tags, present) == head + rest;
      forall j | 0 <= j < |tags| && present[j]
        ensures CountPresent(present[..j]) < CountPresent(present)
        ensures Select(tags, present)[CountPresent(present[..j])] == tags[j]
      {
        if j > 0 {
          assert present[..j][1..] == present[1..][..j - 1];
          assert present[..j][0] == present[0];
          assert tags[1..][j - 1] == tags[j];
        }
      }
    }
  }

  /** Every tag of the list is two bytes long. */
  lemma {:induction false} SelectTwoBytes(tags: seq<seq<byte>>, present: seq<bool>)
    requires |present| == |tags|
    requires forall i :: 0 <= i < |tags| ==> |tags[i]| == 2
    ensures forall i :: 0 <= i < |Select(tags, present)| ==> |Select(tags, present)[i]| == 2
    decreases |tags|
  {
    if tags != [] {
      SelectTwoBytes(tags[1..], present[1..]);
    }
  }

  /** The concatenation of byte strings. */
  function Flatten(parts: seq<seq<byte>>): (r: seq<byte>)
  {
    if parts == [] then [] else Flatten(parts[..|parts| - 1]) + parts[|parts| - 1]
  }

  /** When every part is two bytes long, part `k` sits at offset `2k`. */
  lemma {:induction false} FlattenPairs(parts: seq<seq<byte>>)
    requires forall i :: 0 <= i < |parts| ==> |parts[i]| == 2
    ensures |Flatten(parts)| == 2 * |parts|
    ensures forall k :: 0 <= k < |parts| ==> Flatten(parts)[2 * k..2 * k + 2] == parts[k]
    decreases |parts|
  {
    if parts != [] {
      var init := parts[..|parts| - 1];
      FlattenPairs(init);
      forall k | 0 <= k < |parts|
        ensures Flatten(parts)[2 * k..2 * k + 2] == parts[k]
      {
        if k < |parts| - 1 {
          assert Flatten(parts)[2 * k..2 * k + 2] == Flatten(init)[2 * k..2 * k + 2];
        }
      }
    }
  }

  /** The DG11 tag-list value: two bytes per non-null field, the tag of the
    * `k`-th non-null field at offset `2k`. */
  lemma TagListLayout(f: Dg11Fields)
    ensures |Flatten(PresentTags(f))| == 2 * CountPresent(Presence(f))
    ensures forall j :: 0 <= j < |Dg11Tags| && Presence(f)[j] ==>
              var k := CountPresent(Presence(f)[..j]);
              k < CountPresent(Presence(f)) && Flatten(PresentTags(f))[2 * k..2 * k + 2] == Dg11Tags[j]
  {
    var tags, present := Dg11Tags, Presence(f);
    assert forall i :: 0 <= i < |tags| ==> |tags[i]| == 2;
    SelectSpec(tags, present);
    SelectTwoBytes(tags, present);
    FlattenPairs(Select(tags, present));
  }

  /** The copy of the present tags into the tag-list array, at a moving
    * offset. */
  method TagListValue(presentTags: seq<seq<byte>>) returns (tagListValue: array<byte>)
    ensures tagListValue[..] == Flatten(presentTags)
  {
    var total := |Flatten(presentTags)|;
    tagListValue := new byte[total];
    var off := 0;
    var k := 0;
    while k < |presentTags|
      invariant 0 <= k <= |presentTags|
      invariant tagListValue.Length == total
      invariant off == |Flatten(presentTags[..k])| <= total
      invariant tagListValue[..off] == Flatten(presentTags[..k])
    {
      var t := presentTags[k];
      assert presentTags[..k + 1][..k] == presentTags[..k];
      FlattenPrefix(presentTags, k + 1);
      assert Flatten(presentTags[..k + 1]) == Flatten(presentTags[..k]) + t;
      var j := 0;
      while j < |t|
        invariant 0 <= j <= |t|
        invariant tagListValue[..off] == Flatten(presentTags[..k])
        invariant tagListValue[off..off + j] == t[..j]
      {
        tagListValue[off + j] := t[j];
        j := j + 1;
      }
      assert tagListValue[..off + |t|] == tagListValue[..off] + tagListValue[off..off + |t|];
      off := off + |t|;
      k := k + 1;
    }
    assert presentTags[..k] == presentTags;
    assert tagListValue[..] == tagListValue[..off];
  }

  /** A prefix of the parts flattens to a prefix of the whole. */
  lemma {:induction false} FlattenPrefix(parts: seq<seq<byte>>, n: nat)
    requires n <= |parts|
    ensures |Flatten(parts[..n])| <= |Flatten(parts)|
    ensures Flatten(parts[..n]) == Flatten(parts)[..|Flatten(parts[..n])|]
    decreases |parts| - n
  {
    if n < |parts| {
      FlattenPrefix(parts, n + 1);
      assert parts[..n + 1][..n] == parts[..n];
    } else {
      assert parts[..n] == parts;
    }
  }
}
