/** The size reserved for an assembly's strong-name signature. */
module SigningUtilities {
  import opened Wrappers

  type Byte = bv8

  datatype AssemblyIdentity = AssemblyIdentity(publicKey: seq<Byte>)

  /** The parts of the source assembly the computation reads; `signatureKey` is the
      hexadecimal text of the key, two characters per byte, and may be null. */
  datatype SourceAssembly = SourceAssembly(signatureKey: Option<string>, identity: AssemblyIdentity)

  datatype RsaParameters = RsaParameters(modulus: seq<Byte>)

  /** The key sizes, in bytes, in the order they are tried: the signature key (half its
      character count, null counting as 0) and the public key, when there is a source
      assembly; then the private key's modulus, when there is a private key. */
  function KeySizeCandidates(assembly: Option<SourceAssembly>, privateKey: Option<RsaParameters>): seq<nat> {
    (if assembly.Some? then
       [if assembly.value.signatureKey.None? then 0 else |assembly.value.signatureKey.value| / 2,
        |assembly.value.identity.publicKey|]
     else []) +
    (if privateKey.Some? then [|privateKey.value.modulus|] else [])
  }

  /** The first candidate that is not zero, or zero when every candidate is. */
  function FirstNonZero(candidates: seq<nat>): (r: nat)
    ensures r == 0 <==> forall k :: 0 <= k < |candidates| ==> candidates[k] == 0
    ensures r != 0 ==> exists k :: 0 <= k < |candidates| && candidates[k] == r && forall j :: 0 <= j < k ==> candidates[j] == 0
  {
    if candidates == [] then 0
    else if candidates[0] != 0 then candidates[0]
    else
      var r := FirstNonZero(candidates[1..]);
      if r == 0 then r
      else
        var k :| 0 <= k < |candidates[1..]| && candidates[1..][k] == r && forall j :: 0 <= j < k ==> candidates[1..][j] == 0;
        assert candidates[k + 1] == r && forall j :: 0 <= j < k + 1 ==> candidates[j] == 0;
        r
  }

  /** The signature size for a key of `keySize` bytes: none for no key, at least 128
      bytes, and otherwise 32 bytes less than the key. */
  function SignatureSizeForKey(keySize: nat): nat {
    if keySize == 0 then 0 else if keySize < 128 + 32 then 128 else keySize - 32
  }

  method CalculateStrongNameSignatureSize(assembly: Option<SourceAssembly>, privateKey: Option<RsaParameters>)
    returns (size: int)
    ensures assembly.None? && privateKey.None? ==> size == 0
    ensures size == SignatureSizeForKey(FirstNonZero(KeySizeCandidates(assembly, privateKey)))
    ensures size == 0 <==> forall k :: 0 <= k < |KeySizeCandidates(assembly, privateKey)| ==> KeySizeCandidates(assembly, privateKey)[k] == 0
    ensures size != 0 ==> size >= 128
  {
    ghost var candidates := KeySizeCandidates(assembly, privateKey);
    if assembly.None? && privateKey.None? {
      return 0;
    }

    var keySize := 0;

    if keySize == 0 && assembly.Some? {
      keySize := if assembly.value.signatureKey.None? then 0 else |assembly.value.signatureKey.value| / 2;
    }

    if keySize == 0 && assembly.Some? {
      keySize := |assembly.value.identity.publicKey|;
    }

    if keySize == 0 && privateKey.Some? {
      keySize := |privateKey.value.modulus|;
    }

    assert keySize == FirstNonZero(candidates) by {
      if assembly.Some? {
        assert candidates[0] == (if assembly.value.signatureKey.None? then 0 else |assembly.value.signatureKey.value| / 2);
        assert candidates[1..][0] == |assembly.value.identity.publicKey|;
        if privateKey.Some? {
          assert candidates[1..][1..] == [|privateKey.value.modulus|];
        } else {
          assert candidates[1..][1..] == [];
        }
      } else {
        assert candidates == [|privateKey.value.modulus|];
      }
    }

    if keySize == 0 {
      return 0;
    }

    return if keySize < 128 + 32 then 128 else keySize - 32;
  }

  /** Once there is a key, a larger key never gets a smaller signature, and from 160
      bytes on the size grows one for one with the key. */
  lemma SignatureSizeMonotone(a: nat, b: nat)
    requires 0 < a <= b
    ensures SignatureSizeForKey(a) <= SignatureSizeForKey(b)
    ensures 160 <= a ==> SignatureSizeForKey(b) - SignatureSizeForKey(a) == b - a
  {
  }
}
