/** The data read from an electronic identity card (CIE), as mutable beans:
  * the IAS application data, the MRTD data groups and the request that
  * bundles them. A `null` byte array or string is `None`. */
module CieModel {
  import opened Wrappers

  /** The IAS application data: its security object, the card's NIS and its
    * public key. */
  class CieIas {
    var sod: Option<seq<byte>>
    var nis: Option<seq<byte>>
    var publicKey: Option<seq<byte>>

    constructor (sod: Option<seq<byte>>, nis: Option<seq<byte>>, publicKey: Option<seq<byte>>)
      ensures this.sod == sod && this.nis == nis && this.publicKey == publicKey
    {
      this.sod := sod;
      this.nis := nis;
      this.publicKey := publicKey;
    }
  }

  /** The MRTD data: its security object, DG1 (the machine-readable zone) and
    * DG11 (additional personal details). */
  class CieMrtd {
    var sod: Option<seq<byte>>
    var dg1: Option<seq<byte>>
    var dg11: Option<seq<byte>>

    constructor (sod: Option<seq<byte>>, dg1: Option<seq<byte>>, dg11: Option<seq<byte>>)
      ensures this.sod == sod && this.dg1 == dg1 && this.dg11 == dg11
    {
      this.sod := sod;
      this.dg1 := dg1;
      this.dg11 := dg11;
    }
  }

  /** A validation request: the two card applications, the nonce and its
    * signature, and the delegator's tax code. */
  class CieValidationData {
    var cieIas: CieIas?
    var cieMrtd: CieMrtd?
    var signedNonce: Option<seq<byte>>
    var nonce: Option<string>
    var codFiscDelegante: Option<string>

    constructor (cieIas: CieIas?, cieMrtd: CieMrtd?, signedNonce: Option<seq<byte>>, nonce: Option<string>,
                 codFiscDelegante: Option<string>)
      ensures this.cieIas == cieIas && this.cieMrtd == cieMrtd && this.signedNonce == signedNonce
      ensures this.nonce == nonce && this.codFiscDelegante == codFiscDelegante
    {
      this.cieIas := cieIas;
      this.cieMrtd := cieMrtd;
      this.signedNonce := signedNonce;
      this.nonce := nonce;
      this.codFiscDelegante := codFiscDelegante;
    }
  }
}
