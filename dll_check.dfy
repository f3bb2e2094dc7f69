/** `MainForm.ValidCdlcDLL`: what kind of D3DX9_42.dll sits in the game's
    folder. The file system, the X.509 certificate checks and SHA-256 are
    not modelled: their outcomes are the fields of `DllFile`. */
module DllCheck {

  type byte = b: int | 0 <= b < 256

  /** `DLLType`. */
  datatype DllType = CustomsForge | RSMods | Microsoft | Unknown | None

  /** The SHA-256 digest of the CustomsForge build of the DLL. */
  const CfDllHash: seq<byte> := [
    0x9A, 0xD0, 0xEF, 0x34, 0x9A, 0x8D, 0x2A, 0x89, 0x24, 0x35, 0xF6, 0x4D, 0xD2, 0x8D, 0x9C, 0x8D,
    0xA3, 0x6B, 0xA1, 0xD3, 0x3A, 0xE3, 0xBF, 0xD0, 0x2A, 0x62, 0xF4, 0x2B, 0xC4, 0x3F, 0x08, 0x62]

  /** What `X509Certificate2.Verify()` does: succeed, fail, or throw. */
  datatype Trust = Trusted | Untrusted | VerifyThrows

  /** The signature of the file: `CreateFromSignedFile` throws on an
      unsigned file; otherwise the certificate's simple name and what
      `Verify` does. */
  datatype Signature = Unsigned | Signed(simpleName: string, trust: Trust)

  /** A local creation time, to the second. */
  datatype Moment = Moment(year: int, month: int, day: int, secondOfDay: int)

  /** `File.GetCreationTime(..) >= new DateTime(y, m, d)`: midnight of that
      day or later. */
  predicate OnOrAfter(t: Moment, y: int, m: int, d: int) {
    t.year > y || (t.year == y && (t.month > m || (t.month == m && t.day >= d)))
  }

  /** What the code learns about an existing DLL. */
  datatype DllFile = DllFile(signature: Signature, digest: seq<byte>, created: Moment, length: int)

  /** The name check comes first and short-circuits, so a Microsoft name
      passes even when `Verify` would throw; a throw from `Verify` is
      swallowed by the `catch`. */
  predicate MicrosoftSigned(s: Signature) {
    s.Signed? && (s.simpleName == "Microsoft Corporation" || s.trust == Trusted)
  }

  /** The late, large builds only RSMods ships. */
  predicate RSModsBuild(f: DllFile) {
    OnOrAfter(f.created, 2020, 7, 1) && f.length >= 300000
  }

  /** The type each path of `ValidCdlcDLL` assigns. */
  function Classify(present: bool, f: DllFile): DllType {
    if !present then None
    else if MicrosoftSigned(f.signature) then Microsoft
    else if f.digest == CfDllHash then CustomsForge
    else if RSModsBuild(f) then RSMods
    else Unknown
  }

  /** The rules in the order the code tries them, each exactly. */
  lemma {:induction false} ClassifySpec(present: bool, f: DllFile)
    requires |f.digest| == 32
    ensures Classify(present, f) == None <==> !present
    ensures Classify(present, f) == Microsoft <==> present && MicrosoftSigned(f.signature)
    ensures Classify(present, f) == CustomsForge <==>
      present && !MicrosoftSigned(f.signature) && forall i :: 0 <= i < 32 ==> f.digest[i] == CfDllHash[i]
    ensures Classify(present, f) == RSMods <==>
      present && !MicrosoftSigned(f.signature) && f.digest != CfDllHash && RSModsBuild(f)
  {
    if present && !MicrosoftSigned(f.signature) && forall i :: 0 <= i < 32 ==> f.digest[i] == CfDllHash[i] {
      assert f.digest == CfDllHash;
    }
  }

  /** An unsigned or unverifiable DLL that is neither the CustomsForge nor
      an RSMods build is reported as unknown, whatever its name. */
  lemma {:induction false} UnknownWhenNothingMatches(f: DllFile)
    requires |f.digest| == 32 && f.signature.Signed? && f.signature.simpleName != "Microsoft Corporation"
    requires f.signature.trust == VerifyThrows
    requires (exists i :: 0 <= i < 32 && f.digest[i] != CfDllHash[i]) && f.length < 300000
    ensures Classify(true, f) == Unknown
  {
  }

  /** `MainForm`, down to the field the check assigns. */
  class MainForm {
    var dllType: DllType

    constructor ()
      ensures dllType == None
    {
      dllType := None;
    }

    /** `ValidCdlcDLL`: every path assigns `dllType`, the digest is compared
        byte by byte up to the first mismatch, and the answer is whether
        the DLL is one of the two CDLC builds. SHA-256 yields 32 bytes. */
    method ValidCdlcDll(present: bool, f: DllFile) returns (valid: bool)
      requires |f.digest| == 32
      modifies this
      ensures dllType == Classify(present, f)
      ensures valid <==> dllType == CustomsForge || dllType == RSMods
    {
      if !present {
        dllType := None;
        return false;
      }
      if f.signature.Signed? && (f.signature.simpleName == "Microsoft Corporation" || f.signature.trust == Trusted) {
        dllType := Microsoft;
        return false;
      }
      var hash := f.digest;
      var i := 0;
      while i < |hash|
        invariant 0 <= i < |hash|
        invariant hash[..i] == CfDllHash[..i]
      {
        if hash[i] != CfDllHash[i] {
          break;
        }
        if i == |hash| - 1 {
          assert hash == hash[..i] + [hash[i]] && CfDllHash == CfDllHash[..i] + [CfDllHash[i]];
          dllType := CustomsForge;
          return true;
        }
        assert hash[..i + 1] == hash[..i] + [hash[i]] && CfDllHash[..i + 1] == CfDllHash[..i] + [CfDllHash[i]];
        i := i + 1;
      }
      assert hash[i] != CfDllHash[i];
      if OnOrAfter(f.created, 2020, 7, 1) && f.length >= 300000 {
        dllType := RSMods;
        return true;
      }
      dllType := Unknown;
      return false;
    }
  }
}
