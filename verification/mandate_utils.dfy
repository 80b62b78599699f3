/** Small helpers of the mandate service: the five-digit verification code
  * and the joining of strings with a delimiter. The random number behind a
  * code is a parameter (the draw `nextInt(100000)` of a secure random
  * source). */
module MandateUtils {
  import opened Wrappers
  import opened Dates

  function Pow10(k: nat): (p: nat)
    ensures p >= 1
  {
    if k == 0 then 1 else 10 * Pow10(k - 1)
  }

  /** `n` written in decimal with exactly `width` digits, zero-padded on the
    * left (the `%0<width>d` format of a number that fits). */
  function ZeroPadded(n: nat, width: nat): (s: string)
    requires n < Pow10(width)
    ensures |s| == width
    ensures forall i :: 0 <= i < |s| ==> IsAsciiDigit(s[i])
  {
    if width == 0 then "" else ZeroPadded(n / 10, width - 1) + [DigitChar(n % 10)]
  }

  /** The number a string of decimal digits denotes. */
  function DecimalValue(s: string): (n: nat)
    requires forall i :: 0 <= i < |s| ==> IsAsciiDigit(s[i])
    ensures n < Pow10(|s|)
  {
    if s == [] then 0 else 10 * DecimalValue(s[..|s| - 1]) + DigitValue(s[|s| - 1])
  }

  /** Reading back a zero-padded number gives the number. */
  lemma {:induction false} DecimalValueOfZeroPadded(n: nat, width: nat)
    requires n < Pow10(width)
    ensures DecimalValue(ZeroPadded(n, width)) == n
  {
    if width > 0 {
      var s := ZeroPadded(n, width);
      assert s[..|s| - 1] == ZeroPadded(n / 10, width - 1);
      DecimalValueOfZeroPadded(n / 10, width - 1);
    }
  }

  /** A digit string is the zero-padded form of its value at its own width,
    * so distinct codes denote distinct numbers. */
  lemma {:induction false} ZeroPaddedOfDecimalValue(s: string)
    requires forall i :: 0 <= i < |s| ==> IsAsciiDigit(s[i])
    ensures ZeroPadded(DecimalValue(s), |s|) == s
  {
    if s != [] {
      var init := s[..|s| - 1];
      var n := DecimalValue(s);
      ZeroPaddedOfDecimalValue(init);
      assert n / 10 == DecimalValue(init) && n % 10 == DigitValue(s[|s| - 1]);
      assert s == init + [s[|s| - 1]];
    }
  }

  const CodeLength: nat := 5

  /** `generateRandomCode`: the drawn number below 100000, printed with
    * `%05d`. */
  function GenerateRandomCode(randomNumber: nat): (code: string)
    requires randomNumber < 100000
    ensures |code| == CodeLength
    ensures forall i :: 0 <= i < |code| ==> IsAsciiDigit(code[i])
    ensures DecimalValue(code) == randomNumber
  {
    DecimalValueOfZeroPadded(randomNumber, CodeLength);
    ZeroPadded(randomNumber, CodeLength)
  }

  /** Every five-digit string is the code of exactly one draw. */
  lemma EveryCodeIsGenerated(code: string)
    requires |code| == CodeLength && forall i :: 0 <= i < |code| ==> IsAsciiDigit(code[i])
    ensures DecimalValue(code) < 100000 && GenerateRandomCode(DecimalValue(code)) == code
  {
    ZeroPaddedOfDecimalValue(code);
  }

  /** `String.join(delimiter, parts)`: the parts with the delimiter between
    * consecutive ones. */
  function Join(delimiter: string, parts: seq<string>): (s: string)
  {
    if parts == [] then ""
    else if |parts| == 1 then parts[0]
    else parts[0] + delimiter + Join(delimiter, parts[1..])
  }

  /** Appending one more part extends the joined string by the delimiter
    * and that part, the way a `StringBuilder` loop builds it. */
  lemma {:induction false} JoinSnoc(delimiter: string, parts: seq<string>, last: string)
    ensures Join(delimiter, parts + [last]) == if parts == [] then last else Join(delimiter, parts) + delimiter + last
  {
    if |parts| == 1 {
      assert (parts + [last])[1..] == [last];
    } else if |parts| > 1 {
      JoinSnoc(delimiter, parts[1..], last);
      assert (parts + [last])[1..] == parts[1..] + [last];
    }
  }

  /** The pieces between the occurrences of `sep`, the partner of `Join`
    * with a one-character delimiter. */
  function Split(s: string, sep: char): (parts: seq<string>)
    ensures |parts| >= 1
  {
    if s == [] then [""]
    else if s[0] == sep then [""] + Split(s[1..], sep)
    else
      var rest := Split(s[1..], sep);
      [[s[0]] + rest[0]] + rest[1..]
  }

  lemma {:induction false} SplitWithoutSeparator(s: string, sep: char)
    requires sep !in s
    ensures Split(s, sep) == [s]
  {
    if s != [] {
      SplitWithoutSeparator(s[1..], sep);
      assert [s[0]] + s[1..] == s;
    }
  }

  lemma {:induction false} SplitAtSeparator(a: string, sep: char, b: string)
    requires sep !in a
    ensures Split(a + [sep] + b, sep) == [a] + Split(b, sep)
  {
    if a == [] {
      assert a + [sep] + b == [sep] + b;
      assert ([sep] + b)[1..] == b;
    } else {
      SplitAtSeparator(a[1..], sep, b);
      assert (a + [sep] + b)[1..] == a[1..] + [sep] + b;
      assert [a[0]] + a[1..] == a;
    }
  }

  /** Joining with a one-character delimiter that no part contains, then
    * splitting on it, gives the parts back. */
  lemma {:induction false} SplitJoin(parts: seq<string>, sep: char)
    requires parts != []
    requires forall i :: 0 <= i < |parts| ==> sep !in parts[i]
    ensures Split(Join([sep], parts), sep) == parts
  {
    if |parts| == 1 {
      SplitWithoutSeparator(parts[0], sep);
    } else {
      SplitJoin(parts[1..], sep);
      SplitAtSeparator(parts[0], sep, Join([sep], parts[1..]));
      assert [parts[0]] + parts[1..] == parts;
    }
  }

  /** `joinCollectionToString`: a null collection gives the empty string and
    * a null delimiter means ",". */
  function JoinCollectionToString(delimiter: Option<string>, collection: Option<seq<string>>): (s: string)
  {
    if collection.None? then ""
    else Join(if delimiter.None? then "," else delimiter.value, collection.value)
  }

  /** What the joined string holds: nothing for a null or empty collection,
    * the parts in order for any other, separated by the delimiter (",", when
    * none is given). */
  lemma JoinCollectionRecoversParts(delimiter: Option<string>, collection: Option<seq<string>>, sep: char)
    requires delimiter == Some([sep]) || (delimiter.None? && sep == ',')
    requires collection.Some? ==> forall i :: 0 <= i < |collection.value| ==> sep !in collection.value[i]
    ensures collection.None? || collection.value == [] ==> JoinCollectionToString(delimiter, collection) == ""
    ensures collection.Some? && collection.value != [] ==>
      Split(JoinCollectionToString(delimiter, collection), sep) == collection.value
  {
    if collection.Some? && collection.value != [] {
      SplitJoin(collection.value, sep);
    }
  }

  lemma JoinExamples()
    ensures JoinCollectionToString(Some("-"), Some(["a", "b", "c"])) == "a-b-c"
    ensures JoinCollectionToString(Some("-"), Some(["a"])) == "a"
    ensures JoinCollectionToString(None, Some(["x", "y"])) == "x,y"
    ensures JoinCollectionToString(Some(","), None) == ""
    ensures JoinCollectionToString(Some(","), Some([])) == ""
  {
    assert ["a", "b", "c"][1..] == ["b", "c"] && ["b", "c"][1..] == ["c"];
    assert ["x", "y"][1..] == ["y"];
    assert Join(",", ["x", "y"]) == "x" + "," + "y";
  }
}
