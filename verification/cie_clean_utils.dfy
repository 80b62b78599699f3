/** Trimming of padded card data before it is checked: a DER/TLV field is cut
  * to the length its header declares (short and long definite forms, section
  * 8.1.3 of ITU-T X.690), and the NIS is cut to its fixed 12 bytes. The
  * `clean*` procedures apply these to the card beans and swallow the
  * checker's own exceptions. */
module CieCleanUtils {
  import opened Wrappers
  import opened CieResults
  import opened CieModel

  const NisLength: nat := 12

  const TwoTo31: int := 0x8000_0000
  const TwoTo32: int := 0x1_0000_0000

  /** A Java `int` computation: the value modulo 2^32, read as signed. */
  function Int32(x: int): (r: int)
    ensures -TwoTo31 <= r < TwoTo31
    ensures -TwoTo31 <= x < TwoTo31 ==> r == x
  {
    (x + TwoTo31) % TwoTo32 - TwoTo31
  }

  /** The unsigned big-endian number spelled by the bytes. */
  function BigEndian(s: seq<byte>): nat
  {
    if s == [] then 0 else BigEndian(s[..|s| - 1]) * 256 + s[|s| - 1]
  }

  /** The field's header: the short form gives the value length in the
    * length byte itself; the long form gives the number `k` of length
    * bytes that follow, which must be present. `Ok(n)` is the total length
    * the header declares (tag, length bytes and value). */
  function DeclaredLength(b: seq<byte>): (r: Result<nat, Failure>)
    requires |b| >= 2
    ensures b[1] < 0x80 ==> r == Ok(2 + b[1])
    ensures b[1] >= 0x80 ==> var k := b[1] - 0x80;
      if k + 2 > |b| then r == Err(CieCheckerException(KO_EXC_CLEANING))
      else r == Ok(2 + k + BigEndian(b[2..2 + k]))
  {
    var lengthByte := b[1];
    if lengthByte < 0x80 then Ok(2 + lengthByte)
    else
      var numLengthBytes := lengthByte % 0x80;
      if numLengthBytes + 2 > |b| then Err(CieCheckerException(KO_EXC_CLEANING))
      else Ok(2 + numLengthBytes + BigEndian(b[2..2 + numLengthBytes]))
  }

  /** `cleanAsn1OrTlvField`, with the declared length read as an unbounded
    * number: `null` stays `null`; fewer than two bytes are returned as
    * they are; otherwise the field is cut to its declared length, which
    * must not exceed the field. */
  function CleanAsn1(field: Option<seq<byte>>): (r: Result<Option<seq<byte>>, Failure>)
    ensures field.None? ==> r == Ok(None)
    ensures field.Some? && |field.value| < 2 ==> r == Ok(field)
    ensures field.Some? && |field.value| >= 2 ==>
      match DeclaredLength(field.value)
      case Err(e) => r == Err(e)
      case Ok(n) => if n > |field.value| then r == Err(CieCheckerException(KO_EXC_CLEANING))
                    else r == Ok(Some(field.value[..n]))
    ensures r != Err(RuntimeException)
  {
    if field.None? then Ok(None)
    else if |field.value| < 2 then Ok(field)
    else
      var b := field.value;
      match DeclaredLength(b)
      case Err(e) => Err(e)
      case Ok(realLength) =>
        if realLength > |b| then Err(CieCheckerException(KO_EXC_CLEANING)) else Ok(Some(b[..realLength]))
  }

  /** The header of a field that `CleanAsn1` keeps is unchanged by the cut:
    * the cut keeps the tag, the length bytes and the declared length. */
  lemma DeclaredLengthOfPrefix(b: seq<byte>, n: nat)
    requires |b| >= 2 && DeclaredLength(b) == Ok(n) && n <= |b|
    ensures DeclaredLength(b[..n]) == Ok(n)
  {
    var c := b[..n];
    if b[1] >= 0x80 {
      var k := b[1] - 0x80;
      assert c[2..2 + k] == b[2..2 + k];
    }
  }

  /** Cleaning is idempotent: a cleaned field is returned unchanged. */
  lemma CleanAsn1Idempotent(field: Option<seq<byte>>)
    requires CleanAsn1(field).Ok?
    ensures CleanAsn1(CleanAsn1(field).value) == CleanAsn1(field)
  {
    if field.Some? && |field.value| >= 2 {
      var n := DeclaredLength(field.value).value;
      DeclaredLengthOfPrefix(field.value, n);
      assert field.value[..n][..n] == field.value[..n];
    }
  }

  /** `cleanAsn1OrTlvField`, step by step: the loop accumulates the value
    * length from the long-form length bytes. */
  method CleanAsn1OrTlvField(fieldBytes: Option<seq<byte>>) returns (r: Result<Option<seq<byte>>, Failure>)
    ensures r == CleanAsn1(fieldBytes)
  {
    if fieldBytes.None? {
      return Ok(None);
    }
    var b := fieldBytes.value;
    if |b| < 2 {
      return Ok(fieldBytes);
    }
    var lengthByte := b[1];
    var realLength: nat;
    if lengthByte < 0x80 {
      realLength := 2 + lengthByte;
    } else {
      var numLengthBytes := lengthByte % 0x80;
      if numLengthBytes + 2 > |b| {
        return Err(CieCheckerException(KO_EXC_CLEANING));
      }
      var valueLength: nat := 0;
      var i := 0;
      while i < numLengthBytes
        invariant 0 <= i <= numLengthBytes
        invariant valueLength == BigEndian(b[2..2 + i])
      {
        assert b[2..2 + (i + 1)][..i] == b[2..2 + i];
        valueLength := valueLength * 256 + b[2 + i];
        i := i + 1;
      }
      realLength := 2 + numLengthBytes + valueLength;
    }
    if realLength > |b| {
      return Err(CieCheckerException(KO_EXC_CLEANING));
    }
    r := Ok(Some(b[..realLength]));
  }

  // ---- the length computation as written, on 32-bit ints ----

  /** `valueLength` after the loop as the source computes it: each step is
    * `(valueLength << 8) | b` on a 32-bit `int`; the shift clears the low
    * byte, so the `|` adds `b`. */
  function ValueLengthAsWritten(s: seq<byte>): (v: int)
    ensures -TwoTo31 <= v < TwoTo31
  {
    if s == [] then 0
    else
      var shifted := Int32(ValueLengthAsWritten(s[..|s| - 1]) * 256);
      assert shifted % 256 == 0 by { Int32Multiple256(ValueLengthAsWritten(s[..|s| - 1])); }
      shifted + s[|s| - 1]
  }

  /** A shifted `int` is a multiple of 256. */
  lemma Int32Multiple256(v: int)
    ensures Int32(v * 256) % 256 == 0
  {
    var x := v * 256 + TwoTo31;
    assert TwoTo32 == 256 * 0x100_0000 && TwoTo31 == 256 * 0x80_0000;
    var q := x / TwoTo32;
    assert x % TwoTo32 == x - TwoTo32 * q;
    assert Int32(v * 256) == v * 256 + TwoTo31 - TwoTo32 * q - TwoTo31;
    assert Int32(v * 256) == 256 * (v - 0x100_0000 * q);
  }

  /** `cleanAsn1OrTlvField` as written: the declared length and the total
    * `2 + k + valueLength` are 32-bit ints, and a negative total makes
    * `Arrays.copyOf` throw `NegativeArraySizeException`, which is not a
    * checker exception. */
  function CleanAsn1AsWritten(field: Option<seq<byte>>): (r: Result<Option<seq<byte>>, Failure>)
    ensures r.Ok? && field.Some? ==> r.value.Some? && |r.value.value| <= |field.value|
  {
    if field.None? then Ok(None)
    else if |field.value| < 2 then Ok(field)
    else
      var b := field.value;
      var lengthByte := b[1];
      if lengthByte >= 0x80 && lengthByte % 0x80 + 2 > |b| then Err(CieCheckerException(KO_EXC_CLEANING))
      else
        var realLength :=
          if lengthByte < 0x80 then 2 + lengthByte
          else
            var numLengthBytes := lengthByte % 0x80;
            Int32(2 + numLengthBytes + ValueLengthAsWritten(b[2..2 + numLengthBytes]));
        if realLength > |b| then Err(CieCheckerException(KO_EXC_CLEANING))
        else if realLength < 0 then Err(RuntimeException)
        else Ok(Some(b[..realLength]))
  }

  /** The 32-bit loop is exact while the number fits in an `int`. */
  lemma {:induction false} ValueLengthExact(s: seq<byte>)
    requires BigEndian(s) < TwoTo31
    ensures ValueLengthAsWritten(s) == BigEndian(s)
  {
    if s != [] {
      var p := s[..|s| - 1];
      assert BigEndian(p) * 256 <= BigEndian(s);
      ValueLengthExact(p);
    }
  }

  /** The source's computation agrees with the unbounded one whenever the
    * declared total length fits in an `int`: every real card field. */
  lemma AsWrittenAgreesWhenLengthFits(field: Option<seq<byte>>)
    requires field.Some? && |field.value| >= 2 && field.value[1] >= 0x80
    requires field.value[1] - 0x80 + 2 <= |field.value|
    requires 2 + (field.value[1] - 0x80) + BigEndian(field.value[2..2 + (field.value[1] - 0x80)]) < TwoTo31
    ensures CleanAsn1AsWritten(field) == CleanAsn1(field)
  {
    var b := field.value;
    ValueLengthExact(b[2..2 + (b[1] - 0x80)]);
  }

  /** The short form never involves the 32-bit loop: both agree. */
  lemma AsWrittenAgreesOnShortForm(field: Option<seq<byte>>)
    requires field.None? || |field.value| < 2 || field.value[1] < 0x80
    ensures CleanAsn1AsWritten(field) == CleanAsn1(field)
  {
  }

  /** Four length bytes with the top bit set make the 32-bit length
    * negative: `30 84 FF FF FF FF` declares 2^32 - 1 value bytes, far more
    * than the six present, yet the source returns its first five bytes,
    * which cut the header itself; the unbounded reading rejects it. */
  lemma AsWrittenAcceptsGarbledLength()
    ensures CleanAsn1AsWritten(Some([0x30, 0x84, 0xFF, 0xFF, 0xFF, 0xFF])) == Ok(Some([0x30, 0x84, 0xFF, 0xFF, 0xFF]))
    ensures CleanAsn1(Some([0x30, 0x84, 0xFF, 0xFF, 0xFF, 0xFF])) == Err(CieCheckerException(KO_EXC_CLEANING))
  {
    var b: seq<byte> := [0x30, 0x84, 0xFF, 0xFF, 0xFF, 0xFF];
    var l1: seq<byte> := [0xFF];
    var l2: seq<byte> := l1 + [0xFF];
    var l3: seq<byte> := l2 + [0xFF];
    var l4: seq<byte> := l3 + [0xFF];
    assert l2[..1] == l1 && l3[..2] == l2 && l4[..3] == l3 && b[2..6] == l4;
    assert ValueLengthAsWritten(l1) == 0xFF && BigEndian(l1) == 0xFF;
    assert ValueLengthAsWritten(l2) == 0xFFFF && BigEndian(l2) == 0xFFFF;
    assert ValueLengthAsWritten(l3) == 0xFF_FFFF && BigEndian(l3) == 0xFF_FFFF;
    assert ValueLengthAsWritten(l4) == -1 && BigEndian(l4) == 0xFFFF_FFFF;
    assert b[..5] == [0x30, 0x84, 0xFF, 0xFF, 0xFF];
  }

  /** `30 84 80 00 00 00` makes the total length negative: the source throws
    * a `NegativeArraySizeException`, which the `clean*` procedures do not
    * catch; the unbounded reading raises the cleaning error. */
  lemma AsWrittenThrowsNegativeArraySize()
    ensures CleanAsn1AsWritten(Some([0x30, 0x84, 0x80, 0x00, 0x00, 0x00])) == Err(RuntimeException)
    ensures CleanAsn1(Some([0x30, 0x84, 0x80, 0x00, 0x00, 0x00])) == Err(CieCheckerException(KO_EXC_CLEANING))
  {
    var b: seq<byte> := [0x30, 0x84, 0x80, 0x00, 0x00, 0x00];
    var l1: seq<byte> := [0x80];
    var l2: seq<byte> := l1 + [0x00];
    var l3: seq<byte> := l2 + [0x00];
    var l4: seq<byte> := l3 + [0x00];
    assert l2[..1] == l1 && l3[..2] == l2 && l4[..3] == l3 && b[2..6] == l4;
    assert ValueLengthAsWritten(l1) == 0x80 && BigEndian(l1) == 0x80;
    assert ValueLengthAsWritten(l2) == 0x8000 && BigEndian(l2) == 0x8000;
    assert ValueLengthAsWritten(l3) == 0x80_0000 && BigEndian(l3) == 0x80_0000;
    assert ValueLengthAsWritten(l4) == -TwoTo31 && BigEndian(l4) == 0x8000_0000;
  }

  // ---- NIS ----

  /** `cleanNis`: `null` stays `null`; a NIS of 12 bytes or more keeps its
    * first 12 bytes; a shorter one is a cleaning error. */
  function CleanNis(nis: Option<seq<byte>>): (r: Result<Option<seq<byte>>, Failure>)
    ensures nis.None? ==> r == Ok(None)
    ensures r.Err? <==> nis.Some? && |nis.value| < NisLength
    ensures r.Err? ==> r.error == CieCheckerException(KO_EXC_CLEANING)
    ensures r.Ok? && nis.Some? ==> r.value.Some? && r.value.value == nis.value[..NisLength]
  {
    if nis.None? then Ok(None)
    else if |nis.value| == NisLength then Ok(nis)
    else if |nis.value| > NisLength then Ok(Some(nis.value[..NisLength]))
    else Err(CieCheckerException(KO_EXC_CLEANING))
  }

  /** A NIS of the right length is returned as it is, and cleaning is
    * idempotent. */
  lemma CleanNisIdempotent(nis: Option<seq<byte>>)
    requires CleanNis(nis).Ok?
    ensures nis.Some? && |nis.value| == NisLength ==> CleanNis(nis) == Ok(nis)
    ensures CleanNis(CleanNis(nis).value) == CleanNis(nis)
  {
    if nis.Some? {
      assert nis.value[..NisLength][..NisLength] == nis.value[..NisLength];
    }
  }

  // ---- the card beans ----

  /** The public key and NIS that `cleanIas` leaves: the public key is
    * cleaned first, then the SOD is cleaned only to be checked (its result
    * is dropped), then the NIS is cleaned. The first failure stops the
    * sequence, and what was already set stays set. */
  function CleanedIas(sod: Option<seq<byte>>, nis: Option<seq<byte>>, publicKey: Option<seq<byte>>)
    : (r: (Option<seq<byte>>, Option<seq<byte>>))
  {
    var pk := CleanAsn1(publicKey);
    if pk.Err? then (publicKey, nis)
    else if CleanAsn1(sod).Err? then (pk.value, nis)
    else
      var n := CleanNis(nis);
      if n.Err? then (pk.value, nis) else (pk.value, n.value)
  }

  /** When every step succeeds, the public key is cut to its declared length
    * and the NIS to 12 bytes. */
  lemma CleanedIasAllSteps(sod: Option<seq<byte>>, nis: Option<seq<byte>>, publicKey: Option<seq<byte>>)
    requires CleanAsn1(publicKey).Ok? && CleanAsn1(sod).Ok? && CleanNis(nis).Ok?
    ensures CleanedIas(sod, nis, publicKey) == (CleanAsn1(publicKey).value, CleanNis(nis).value)
    ensures nis.Some? ==> CleanedIas(sod, nis, publicKey).1 == Some(nis.value[..NisLength])
  {
  }

  /** A public key that cannot be cleaned stops `cleanIas` before anything is
    * set: even a NIS that would be trimmed is left as it is. */
  lemma CleanedIasStopsAtPublicKey(sod: Option<seq<byte>>, nis: Option<seq<byte>>, publicKey: Option<seq<byte>>)
    requires CleanAsn1(publicKey).Err?
    ensures CleanedIas(sod, nis, publicKey) == (publicKey, nis)
  {
  }

  /** `cleanIas`: cleans the public key and the NIS of the bean in place.
    * Checker exceptions are swallowed; the SOD is never replaced. */
  method CleanIas(ias: CieIas?)
    modifies ias
    ensures ias != null ==> ias.sod == old(ias.sod)
    ensures ias != null ==> (ias.publicKey, ias.nis) == CleanedIas(old(ias.sod), old(ias.nis), old(ias.publicKey))
  {
    if ias == null {
      return;
    }
    // cleanPublicKey
    if ias.publicKey.Some? {
      var cleaned := CleanAsn1OrTlvField(ias.publicKey);
      if cleaned.Err? {
        return;
      }
      ias.publicKey := cleaned.value;
    }
    // cleanSodField: the result is only compared, never stored
    var sodCleaned := CleanAsn1OrTlvField(ias.sod);
    if sodCleaned.Err? {
      return;
    }
    // cleanNisField
    if ias.nis.Some? {
      var after := CleanNis(ias.nis);
      if after.Err? {
        return;
      }
      ias.nis := after.value;
    }
  }

  /** The DG1 and DG11 that `cleanMrtd` leaves: the SOD is cleaned only to be
    * checked, then DG1, then DG11; the first failure stops the sequence. */
  function CleanedMrtd(sod: Option<seq<byte>>, dg1: Option<seq<byte>>, dg11: Option<seq<byte>>)
    : (r: (Option<seq<byte>>, Option<seq<byte>>))
  {
    if CleanAsn1(sod).Err? then (dg1, dg11)
    else
      var d1 := CleanAsn1(dg1);
      if d1.Err? then (dg1, dg11)
      else
        var d11 := CleanAsn1(dg11);
        if d11.Err? then (d1.value, dg11) else (d1.value, d11.value)
  }

  /** A DG11 that cannot be cleaned does not undo the cleaning of DG1. */
  lemma CleanedMrtdKeepsDg1(sod: Option<seq<byte>>, dg1: Option<seq<byte>>, dg11: Option<seq<byte>>)
    requires CleanAsn1(sod).Ok? && CleanAsn1(dg1).Ok? && CleanAsn1(dg11).Err?
    ensures CleanedMrtd(sod, dg1, dg11) == (CleanAsn1(dg1).value, dg11)
  {
  }

  /** Cleaning twice is cleaning once: the data groups `cleanMrtd` leaves are
    * left unchanged by a second run. */
  lemma CleanedMrtdIdempotent(sod: Option<seq<byte>>, dg1: Option<seq<byte>>, dg11: Option<seq<byte>>)
    requires CleanAsn1(sod).Ok? && CleanAsn1(dg1).Ok? && CleanAsn1(dg11).Ok?
    ensures var (d1, d11) := CleanedMrtd(sod, dg1, dg11);
      CleanedMrtd(sod, d1, d11) == (d1, d11)
  {
    CleanAsn1Idempotent(dg1);
    CleanAsn1Idempotent(dg11);
  }

  /** `cleanMrtd`: cleans DG1 and DG11 of the bean in place. Checker
    * exceptions are swallowed; the SOD is never replaced. */
  method CleanMrtd(mrtd: CieMrtd?)
    modifies mrtd
    ensures mrtd != null ==> mrtd.sod == old(mrtd.sod)
    ensures mrtd != null ==> (mrtd.dg1, mrtd.dg11) == CleanedMrtd(old(mrtd.sod), old(mrtd.dg1), old(mrtd.dg11))
  {
    if mrtd == null {
      return;
    }
    var sodCleaned := CleanAsn1OrTlvField(mrtd.sod);
    if sodCleaned.Err? {
      return;
    }
    var dg1 := CleanAsn1OrTlvField(mrtd.dg1);
    if dg1.Err? {
      return;
    }
    mrtd.dg1 := dg1.value;
    var dg11 := CleanAsn1OrTlvField(mrtd.dg11);
    if dg11.Err? {
      return;
    }
    mrtd.dg11 := dg11.value;
  }
}
