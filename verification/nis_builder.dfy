/** The generator of test NIS values (the card's identification number):
  * numeric strings, random bytes, and bytes derived from a seed by SHA-256.
  * The random source and the hash are parameters: `digits(i)` is the i-th
  * `nextInt(10)` draw, `stream(i)` the i-th random byte, `sha256` and `utf8`
  * the digest and the string encoding. */
module NisBuilder {
  import opened Wrappers
  import opened Dates
  import CieDataGroupBuilder

  const DefaultNisLength: nat := 12
  const MaxNisLength: nat := 64
  const MinValidNisLength: nat := 8

  datatype NisError = IllegalArgument(message: string)

  type Digit = d: int | 0 <= d < 10

  /** `generateNumeric`: `length` characters, the i-th being the digit drawn
    * by the i-th call to the random source; a non-positive length is
    * refused. */
  method GenerateNumeric(length: int, digits: nat -> Digit) returns (r: Result<string, NisError>)
    ensures length <= 0 <==> r.Err?
    ensures r.Err? ==> r.error == IllegalArgument("Length must be > 0")
    ensures r.Ok? ==> |r.value| == length
    ensures r.Ok? ==> forall i :: 0 <= i < |r.value| ==> IsAsciiDigit(r.value[i]) && DigitValue(r.value[i]) == digits(i)
  {
    if length <= 0 {
      return Err(IllegalArgument("Length must be > 0"));
    }
    var sb := "";
    var i := 0;
    while i < length
      invariant 0 <= i <= length && |sb| == i
      invariant forall k :: 0 <= k < i ==> IsAsciiDigit(sb[k]) && DigitValue(sb[k]) == digits(k)
    {
      sb := sb + [DigitChar(digits(i))];
      i := i + 1;
    }
    r := Ok(sb);
  }

  /** The length check shared by `generateRandom` and `generateFromSeed`. */
  predicate LengthInRange(length: int) {
    1 <= length <= MaxNisLength
  }

  /** `generateRandom(length)`: a fresh array of `length` bytes filled from
    * the random source; lengths outside 1..64 are refused. */
  method GenerateRandom(length: int, stream: nat -> byte) returns (r: Result<array<byte>, NisError>)
    ensures !LengthInRange(length) <==> r.Err?
    ensures r.Err? ==> r.error == IllegalArgument("NIS length must be 1..64")
    ensures r.Ok? ==> fresh(r.value) && r.value.Length == length
    ensures r.Ok? ==> forall i :: 0 <= i < length ==> r.value[i] == stream(i)
  {
    if length <= 0 || length > 64 {
      return Err(IllegalArgument("NIS length must be 1..64"));
    }
    var out := new byte[length];
    var i := 0;
    while i < length
      invariant 0 <= i <= length
      invariant forall k :: 0 <= k < i ==> out[k] == stream(k)
    {
      out[i] := stream(i);
      i := i + 1;
    }
    r := Ok(out);
  }

  /** `isValid`: present, with 8 to 64 bytes. */
  predicate IsValid(nis: Option<seq<byte>>) {
    nis.Some? && MinValidNisLength <= |nis.value| <= MaxNisLength
  }

  /** Every NIS of an accepted length of at least 8 bytes is valid; in
    * particular the default length 12 is. */
  lemma GeneratedLengthValid(length: int, nis: seq<byte>)
    requires LengthInRange(length) && length >= MinValidNisLength && |nis| == length
    ensures IsValid(Some(nis))
    ensures LengthInRange(DefaultNisLength) && DefaultNisLength >= MinValidNisLength
  {
  }

  // ---- generateFromSeed ----

  /** Java's `trim` removes the characters up to U+0020 at both ends. */
  predicate IsTrimmed(c: char) {
    c <= ' '
  }

  function TrimStart(s: string): (r: string)
    ensures |r| <= |s| && r == s[|s| - |r|..]
    ensures r == [] || !IsTrimmed(r[0])
    ensures forall k :: 0 <= k < |s| - |r| ==> IsTrimmed(s[k])
  {
    if s == [] || !IsTrimmed(s[0]) then s else TrimStart(s[1..])
  }

  function TrimEnd(s: string): (r: string)
    ensures |r| <= |s| && r == s[..|r|]
    ensures r == [] || !IsTrimmed(r[|r| - 1])
    ensures forall k :: |r| <= k < |s| ==> IsTrimmed(s[k])
  {
    if s == [] || !IsTrimmed(s[|s| - 1]) then s else TrimEnd(s[..|s| - 1])
  }

  function Trim(s: string): (r: string)
  {
    TrimEnd(TrimStart(s))
  }

  /** `p.trim().toUpperCase()` (upper-casing of ASCII letters). */
  function Normalize(p: string): (r: string)
  {
    CieDataGroupBuilder.ToUpper(Trim(p))
  }

  /** Trimming a string whose ends are kept changes nothing. */
  lemma TrimOfTrimmed(s: string)
    requires s == [] || (!IsTrimmed(s[0]) && !IsTrimmed(s[|s| - 1]))
    ensures Trim(s) == s
  {
  }

  /** A trimmed string starts and ends with a kept character. */
  lemma TrimKeepsEnds(p: string)
    ensures var t := Trim(p); t == [] || (!IsTrimmed(t[0]) && !IsTrimmed(t[|t| - 1]))
  {
    var s := TrimStart(p);
    var t := TrimEnd(s);
    if t != [] {
      assert t[0] == s[0];
    }
  }

  /** Upper-casing keeps a kept character kept. */
  lemma UpperKeepsEnds(t: string)
    requires t == [] || (!IsTrimmed(t[0]) && !IsTrimmed(t[|t| - 1]))
    ensures var u := CieDataGroupBuilder.ToUpper(t); u == [] || (!IsTrimmed(u[0]) && !IsTrimmed(u[|u| - 1]))
  {
  }

  /** Upper-casing a string without lower-case letters changes nothing. */
  lemma UpperOfUpper(u: string)
    requires forall i :: 0 <= i < |u| ==> !('a' <= u[i] <= 'z')
    ensures CieDataGroupBuilder.ToUpper(u) == u
  {
    var v := CieDataGroupBuilder.ToUpper(u);
    assert forall i :: 0 <= i < |u| ==> v[i] == u[i];
  }

  /** Normalising twice is normalising once. */
  lemma NormalizeIdempotent(p: string)
    ensures Normalize(Normalize(p)) == Normalize(p)
  {
    var t := Trim(p);
    TrimKeepsEnds(p);
    UpperKeepsEnds(t);
    var u := CieDataGroupBuilder.ToUpper(t);
    TrimOfTrimmed(u);
    UpperOfUpper(u);
  }

  /** What one part adds to the digest input: nothing for null, else the
    * normalised part, encoded, and a 0x00 separator. */
  function Piece(p: Option<string>, utf8: string -> seq<byte>): (m: seq<byte>)
    ensures p.Some? ==> |m| >= 1 && m[|m| - 1] == 0
  {
    if p.None? then [] else utf8(Normalize(p.value)) + [0]
  }

  /** The bytes fed to the digest: the pieces of the parts, in order. */
  function SeedMessage(parts: seq<Option<string>>, utf8: string -> seq<byte>): (m: seq<byte>)
  {
    if parts == [] then [] else SeedMessage(parts[..|parts| - 1], utf8) + Piece(parts[|parts| - 1], utf8)
  }

  /** The parts as `generateFromSeed` sees them: nulls dropped, the rest
    * normalised. */
  function NormalizedParts(parts: seq<Option<string>>): (r: seq<Option<string>>)
    ensures forall i :: 0 <= i < |r| ==> r[i].Some?
  {
    if parts == [] then []
    else
      var last := parts[|parts| - 1];
      NormalizedParts(parts[..|parts| - 1]) + (if last.None? then [] else [Some(Normalize(last.value))])
  }

  /** The message depends only on the normalised non-null parts. */
  lemma {:induction false} SeedMessageNormalized(parts: seq<Option<string>>, utf8: string -> seq<byte>)
    ensures SeedMessage(NormalizedParts(parts), utf8) == SeedMessage(parts, utf8)
  {
    if parts != [] {
      var init := parts[..|parts| - 1];
      var last := parts[|parts| - 1];
      var tail: seq<Option<string>> := if last.None? then [] else [Some(Normalize(last.value))];
      assert NormalizedParts(parts) == NormalizedParts(init) + tail;
      assert SeedMessage(parts, utf8) == SeedMessage(init, utf8) + Piece(last, utf8);
      SeedMessageNormalized(init, utf8);
      SeedMessageAppend(NormalizedParts(init), tail, utf8);
      if last.Some? {
        NormalizeIdempotent(last.value);
        assert tail[..0] == [];
        assert SeedMessage(tail, utf8) == SeedMessage([], utf8) + Piece(tail[0], utf8);
        assert Piece(tail[0], utf8) == Piece(last, utf8);
      }
    }
  }

  lemma {:induction false} SeedMessageAppend(a: seq<Option<string>>, b: seq<Option<string>>, utf8: string -> seq<byte>)
    ensures SeedMessage(a + b, utf8) == SeedMessage(a, utf8) + SeedMessage(b, utf8)
    decreases |b|
  {
    if b != [] {
      var init := b[..|b| - 1];
      var last := b[|b| - 1];
      assert (a + b)[..|a + b| - 1] == a + init;
      assert (a + b)[|a + b| - 1] == last;
      SeedMessageAppend(a, init, utf8);
      assert SeedMessage(a + b, utf8) == SeedMessage(a + init, utf8) + Piece(last, utf8);
      assert SeedMessage(b, utf8) == SeedMessage(init, utf8) + Piece(last, utf8);
    } else {
      assert a + b == a;
    }
  }

  /** `Arrays.copyOf(hash, length)`: the first `length` bytes, followed by
    * zeros when `length` exceeds the hash. */
  function CopyOf(hash: seq<byte>, length: nat): (r: seq<byte>)
    ensures |r| == length
    ensures length <= |hash| ==> r == hash[..length]
    ensures length > |hash| ==> r[..|hash|] == hash && forall i :: |hash| <= i < length ==> r[i] == 0
  {
    if length <= |hash| then hash[..length] else hash + seq(length - |hash|, _ => 0)
  }

  /** `generateFromSeed(length, parts)`: the digest of the seed message, cut
    * (or zero-extended) to `length` bytes; lengths outside 1..64 are
    * refused. */
  method GenerateFromSeed(length: int, parts: seq<Option<string>>, sha256: seq<byte> -> seq<byte>, utf8: string -> seq<byte>)
    returns (r: Result<seq<byte>, NisError>)
    ensures !LengthInRange(length) <==> r.Err?
    ensures r.Err? ==> r.error == IllegalArgument("NIS length must be 1..64")
    ensures r.Ok? ==> r.value == CopyOf(sha256(SeedMessage(parts, utf8)), length)
  {
    if length <= 0 || length > 64 {
      return Err(IllegalArgument("NIS length must be 1..64"));
    }
    var md: seq<byte> := [];
    var i := 0;
    while i < |parts|
      invariant 0 <= i <= |parts|
      invariant md == SeedMessage(parts[..i], utf8)
    {
      assert parts[..i + 1][..i] == parts[..i];
      if parts[i].Some? {
        md := md + utf8(Normalize(parts[i].value));
        md := md + [0];
      }
      assert md == SeedMessage(parts[..i], utf8) + Piece(parts[i], utf8);
      assert SeedMessage(parts[..i + 1], utf8) == SeedMessage(parts[..i], utf8) + Piece(parts[i], utf8);
      i := i + 1;
    }
    assert parts[..i] == parts;
    r := Ok(CopyOf(sha256(md), length));
  }

  /** Two seeds whose normalised non-null parts agree give the same NIS. */
  lemma SeedNormalisation(length: nat, parts1: seq<Option<string>>, parts2: seq<Option<string>>,
                          sha256: seq<byte> -> seq<byte>, utf8: string -> seq<byte>)
    requires NormalizedParts(parts1) == NormalizedParts(parts2)
    ensures CopyOf(sha256(SeedMessage(parts1, utf8)), length) == CopyOf(sha256(SeedMessage(parts2, utf8)), length)
  {
    SeedMessageNormalized(parts1, utf8);
    SeedMessageNormalized(parts2, utf8);
  }

  /** With a 32-byte SHA-256 digest, a seeded NIS longer than 32 bytes ends
    * in zero bytes. */
  lemma SeededTailIsZero(hash: seq<byte>, length: nat, i: nat)
    requires |hash| == 32 && 32 <= i < length
    ensures CopyOf(hash, length)[i] == 0
  {
  }
}
