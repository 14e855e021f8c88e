/** The replacement key material: a 256-byte RSA modulus and a 32-byte
    Ed25519 public key, with their validation and loaders. */
module Keys {
  import opened Wrappers
  import opened Bytes
  import opened Strings
  import opened Errors
  import Trinity

  datatype KeyConfig = KeyConfig(rsaModulus: seq<Byte>, ed25519PublicKey: seq<Byte>)

  const RsaLength := 256
  const Ed25519Length := 32

  predicate AllEqual(k: seq<Byte>, b: Byte) {
    forall i :: 0 <= i < |k| ==> k[i] == b
  }

  /** The reference notion of a usable key: the right length and at least
      two different bytes. */
  predicate WellFormedKey(k: seq<Byte>, n: nat) {
    |k| == n && exists i, j :: 0 <= i < j < |k| && k[i] != k[j]
  }

  function ValidationFailure(message: string): WowPatcherError {
    New(ValidationError, message)
  }

  /** `validate`: RSA length, all-zero, all-identical, then the same three for Ed25519. */
  function Validate(c: KeyConfig): (r: Result<(), WowPatcherError>)
    ensures r.Err? ==> r.error.category == ValidationError && r.error.cause.None?
  {
    var rsa := c.rsaModulus;
    var ed := c.ed25519PublicKey;
    if |rsa| != RsaLength then
      Err(ValidationFailure("RSA modulus must be exactly 256 bytes, got " + DecimalString(|rsa|)))
    else if AllEqual(rsa, 0) then
      Err(ValidationFailure("RSA modulus cannot be all zeros"))
    else if AllEqual(rsa, rsa[0]) then
      Err(ValidationFailure("RSA modulus cannot contain all identical bytes"))
    else if |ed| != Ed25519Length then
      Err(ValidationFailure("Ed25519 public key must be exactly 32 bytes, got " + DecimalString(|ed|)))
    else if AllEqual(ed, 0) then
      Err(ValidationFailure("Ed25519 public key cannot be all zeros"))
    else if AllEqual(ed, ed[0]) then
      Err(ValidationFailure("Ed25519 public key cannot contain all identical bytes"))
    else Ok(())
  }

  lemma NotAllEqualIffTwoDifferent(k: seq<Byte>)
    requires |k| > 0
    ensures !AllEqual(k, k[0]) <==> exists i, j :: 0 <= i < j < |k| && k[i] != k[j]
  {
    if !AllEqual(k, k[0]) {
      var j :| 0 <= j < |k| && k[j] != k[0];
      assert 0 < j;
    }
  }

  /** `validate` accepts exactly the configurations whose two keys have the
      right lengths and are not one repeated byte. */
  lemma ValidateOkIff(c: KeyConfig)
    ensures Validate(c).Ok? <==>
      WellFormedKey(c.rsaModulus, RsaLength) && WellFormedKey(c.ed25519PublicKey, Ed25519Length)
  {
    if |c.rsaModulus| == RsaLength {
      NotAllEqualIffTwoDifferent(c.rsaModulus);
    }
    if |c.ed25519PublicKey| == Ed25519Length {
      NotAllEqualIffTwoDifferent(c.ed25519PublicKey);
    }
  }

  /** The checks are ordered: an all-zero key is reported as all zeros, not as
      identical bytes, and a bad RSA modulus hides any Ed25519 problem. */
  lemma ValidateReportsFirstFailure(c: KeyConfig)
    ensures |c.rsaModulus| != RsaLength ==>
      Validate(c).Err? && Validate(c).error.message ==
        "RSA modulus must be exactly 256 bytes, got " + DecimalString(|c.rsaModulus|)
    ensures |c.rsaModulus| == RsaLength && AllEqual(c.rsaModulus, 0) ==>
      Validate(c).Err? && Validate(c).error.message == "RSA modulus cannot be all zeros"
    ensures |c.rsaModulus| == RsaLength && !AllEqual(c.rsaModulus, 0) && !WellFormedKey(c.rsaModulus, RsaLength) ==>
      Validate(c).Err? && Validate(c).error.message == "RSA modulus cannot contain all identical bytes"
    ensures WellFormedKey(c.rsaModulus, RsaLength) && |c.ed25519PublicKey| != Ed25519Length ==>
      Validate(c).Err? && Validate(c).error.message ==
        "Ed25519 public key must be exactly 32 bytes, got " + DecimalString(|c.ed25519PublicKey|)
    ensures WellFormedKey(c.rsaModulus, RsaLength) && |c.ed25519PublicKey| == Ed25519Length && AllEqual(c.ed25519PublicKey, 0) ==>
      Validate(c).Err? && Validate(c).error.message == "Ed25519 public key cannot be all zeros"
    ensures WellFormedKey(c.rsaModulus, RsaLength) && |c.ed25519PublicKey| == Ed25519Length &&
            !AllEqual(c.ed25519PublicKey, 0) && !WellFormedKey(c.ed25519PublicKey, Ed25519Length) ==>
      Validate(c).Err? && Validate(c).error.message == "Ed25519 public key cannot contain all identical bytes"
  {
    if |c.rsaModulus| == RsaLength {
      NotAllEqualIffTwoDifferent(c.rsaModulus);
    }
    if |c.ed25519PublicKey| == Ed25519Length {
      NotAllEqualIffTwoDifferent(c.ed25519PublicKey);
    }
  }

  /** `trinity_core` (also the default). */
  function TrinityCore(): KeyConfig {
    KeyConfig(Trinity.RsaModulus, Trinity.Ed25519PublicKey)
  }

  /** `is_trinity_core`. */
  predicate IsTrinityCore(c: KeyConfig) {
    c.rsaModulus == Trinity.RsaModulus && c.ed25519PublicKey == Trinity.Ed25519PublicKey
  }

  /** The TrinityCore keys pass validation and are recognised as such. */
  lemma TrinityCoreIsValid()
    ensures Validate(TrinityCore()).Ok?
    ensures IsTrinityCore(TrinityCore())
  {
    Trinity.KeysHaveEntropy();
    var c := TrinityCore();
    assert c.rsaModulus[1] != c.rsaModulus[0];
    assert c.ed25519PublicKey[1] != c.ed25519PublicKey[0];
    ValidateOkIff(c);
  }

  /** `custom`. */
  function Custom(rsaModulus: seq<Byte>, ed25519PublicKey: seq<Byte>): Result<KeyConfig, WowPatcherError> {
    var c := KeyConfig(rsaModulus, ed25519PublicKey);
    match Validate(c)
    case Err(e) => Err(e)
    case Ok(_) => Ok(c)
  }

  /** `custom` holds exactly the given keys, and succeeds iff they are well formed. */
  lemma CustomOkIff(rsaModulus: seq<Byte>, ed25519PublicKey: seq<Byte>)
    ensures Custom(rsaModulus, ed25519PublicKey).Ok? <==>
      WellFormedKey(rsaModulus, RsaLength) && WellFormedKey(ed25519PublicKey, Ed25519Length)
    ensures Custom(rsaModulus, ed25519PublicKey).Ok? ==>
      Custom(rsaModulus, ed25519PublicKey).value == KeyConfig(rsaModulus, ed25519PublicKey)
    ensures Custom(rsaModulus, ed25519PublicKey).Err? ==>
      Custom(rsaModulus, ed25519PublicKey).error.category == ValidationError
  {
    ValidateOkIff(KeyConfig(rsaModulus, ed25519PublicKey));
  }

  /** `char::is_ascii_hexdigit`. */
  predicate IsHexDigit(c: char) {
    '0' <= c <= '9' || 'a' <= c <= 'f' || 'A' <= c <= 'F'
  }

  predicate AllHex(s: string) {
    forall i :: 0 <= i < |s| ==> IsHexDigit(s[i])
  }

  function HexValue(c: char): (v: nat)
    requires IsHexDigit(c)
    ensures v < 16
  {
    if '0' <= c <= '9' then c as int - '0' as int
    else if 'a' <= c <= 'f' then c as int - 'a' as int + 10
    else c as int - 'A' as int + 10
  }

  /** Keeps the hexadecimal digits of `s`, in order. */
  function FilterHex(s: string): (r: string)
    ensures AllHex(r) && |r| <= |s|
  {
    if s == [] then []
    else if IsHexDigit(s[0]) then [s[0]] + FilterHex(s[1..])
    else FilterHex(s[1..])
  }

  lemma {:induction false} FilterHexKeepsHex(s: string)
    requires AllHex(s)
    ensures FilterHex(s) == s
  {
    if s != [] {
      FilterHexKeepsHex(s[1..]);
    }
  }

  /** `hex::decode` of an even-length digit string: one byte per pair, high nibble first. */
  function HexDecode(s: string): (r: seq<Byte>)
    requires AllHex(s) && |s| % 2 == 0
    ensures |r| == |s| / 2
    ensures forall i :: 0 <= i < |r| ==> r[i] == 16 * HexValue(s[2 * i]) + HexValue(s[2 * i + 1])
  {
    seq(|s| / 2, i requires 0 <= i < |s| / 2 => 16 * HexValue(s[2 * i]) + HexValue(s[2 * i + 1]))
  }

  /** Lower-case hexadecimal encoding, the inverse of `HexDecode`. */
  function HexEncode(b: seq<Byte>): (s: string)
    ensures |s| == 2 * |b| && AllHex(s)
  {
    seq(2 * |b|, i requires 0 <= i < 2 * |b| => if i % 2 == 0 then DigitChar(b[i / 2] / 16) else DigitChar(b[i / 2] % 16))
  }

  lemma HexValueOfDigit(d: nat)
    requires d < 16
    ensures IsHexDigit(DigitChar(d)) && HexValue(DigitChar(d)) == d
  {
  }

  lemma HexRoundTrip(b: seq<Byte>)
    ensures HexDecode(HexEncode(b)) == b
  {
    var s := HexEncode(b);
    forall i | 0 <= i < |b| ensures HexDecode(s)[i] == b[i] {
      HexValueOfDigit(b[i] / 16);
      HexValueOfDigit(b[i] % 16);
    }
  }

  function WrongHexLength(what: string, digits: nat, bytes: nat, got: nat): string {
    what + " hex string must be exactly " + DecimalString(digits) + " hex characters ("
      + DecimalString(bytes) + " bytes), got " + DecimalString(got) + " characters"
  }

  /** Keeps `c` if it validates. */
  function Revalidated(c: KeyConfig): Result<KeyConfig, WowPatcherError> {
    match Validate(c)
    case Err(e) => Err(e)
    case Ok(_) => Ok(c)
  }

  /** `with_rsa_from_hex`. The hex decode cannot fail: what reaches it is 512
      hexadecimal digits. */
  function WithRsaFromHex(c: KeyConfig, hex: string): Result<KeyConfig, WowPatcherError> {
    var cleaned := FilterHex(hex);
    if |cleaned| != 2 * RsaLength then
      Err(ValidationFailure(WrongHexLength("RSA modulus", 512, 256, |cleaned|)))
    else Revalidated(c.(rsaModulus := HexDecode(cleaned)))
  }

  /** `with_ed25519_from_hex`. */
  function WithEd25519FromHex(c: KeyConfig, hex: string): Result<KeyConfig, WowPatcherError> {
    var cleaned := FilterHex(hex);
    if |cleaned| != 2 * Ed25519Length then
      Err(ValidationFailure(WrongHexLength("Ed25519 public key", 64, 32, |cleaned|)))
    else Revalidated(c.(ed25519PublicKey := HexDecode(cleaned)))
  }

  /** Loading an RSA modulus from hex ignores non-hex characters, needs exactly
      512 digits, replaces only the modulus, and succeeds iff the resulting
      configuration validates. */
  lemma WithRsaFromHexSpec(c: KeyConfig, hex: string)
    ensures WithRsaFromHex(c, hex).Ok? <==>
      |FilterHex(hex)| == 512 &&
      WellFormedKey(HexDecode(FilterHex(hex)), RsaLength) && WellFormedKey(c.ed25519PublicKey, Ed25519Length)
    ensures WithRsaFromHex(c, hex).Ok? ==>
      WithRsaFromHex(c, hex).value == KeyConfig(HexDecode(FilterHex(hex)), c.ed25519PublicKey)
    ensures WithRsaFromHex(c, hex).Err? ==> WithRsaFromHex(c, hex).error.category == ValidationError
  {
    if |FilterHex(hex)| == 512 {
      ValidateOkIff(c.(rsaModulus := HexDecode(FilterHex(hex))));
    }
  }

  /** The Ed25519 counterpart of `WithRsaFromHexSpec`, with 64 digits. */
  lemma WithEd25519FromHexSpec(c: KeyConfig, hex: string)
    ensures WithEd25519FromHex(c, hex).Ok? <==>
      |FilterHex(hex)| == 64 &&
      WellFormedKey(c.rsaModulus, RsaLength) && WellFormedKey(HexDecode(FilterHex(hex)), Ed25519Length)
    ensures WithEd25519FromHex(c, hex).Ok? ==>
      WithEd25519FromHex(c, hex).value == KeyConfig(c.rsaModulus, HexDecode(FilterHex(hex)))
    ensures WithEd25519FromHex(c, hex).Err? ==> WithEd25519FromHex(c, hex).error.category == ValidationError
  {
    if |FilterHex(hex)| == 64 {
      ValidateOkIff(c.(ed25519PublicKey := HexDecode(FilterHex(hex))));
    }
  }

  /** Loading the hex image of a well-formed key installs exactly that key. */
  lemma HexLoadInstallsEncodedKey(c: KeyConfig, rsa: seq<Byte>, ed: seq<Byte>)
    requires WellFormedKey(rsa, RsaLength) && WellFormedKey(ed, Ed25519Length)
    ensures WithRsaFromHex(c, HexEncode(rsa)).Ok? ==>
      WithEd25519FromHex(WithRsaFromHex(c, HexEncode(rsa)).value, HexEncode(ed)) == Ok(KeyConfig(rsa, ed))
    ensures WellFormedKey(c.ed25519PublicKey, Ed25519Length) ==> WithRsaFromHex(c, HexEncode(rsa)) == Ok(c.(rsaModulus := rsa))
  {
    FilterHexKeepsHex(HexEncode(rsa));
    FilterHexKeepsHex(HexEncode(ed));
    HexRoundTrip(rsa);
    HexRoundTrip(ed);
    WithRsaFromHexSpec(c, HexEncode(rsa));
    if WithRsaFromHex(c, HexEncode(rsa)).Ok? {
      WithEd25519FromHexSpec(WithRsaFromHex(c, HexEncode(rsa)).value, HexEncode(ed));
    }
  }

  /** The length check and update of `with_rsa_from_file`, on the bytes read. */
  function WithRsaFromFile(c: KeyConfig, contents: seq<Byte>): Result<KeyConfig, WowPatcherError> {
    if |contents| != RsaLength then
      Err(ValidationFailure("RSA modulus must be exactly 256 bytes, got " + DecimalString(|contents|) + " bytes"))
    else Revalidated(c.(rsaModulus := contents))
  }

  /** The length check and update of `with_ed25519_from_file`, on the bytes read. */
  function WithEd25519FromFile(c: KeyConfig, contents: seq<Byte>): Result<KeyConfig, WowPatcherError> {
    if |contents| != Ed25519Length then
      Err(ValidationFailure("Ed25519 public key must be exactly 32 bytes, got " + DecimalString(|contents|) + " bytes"))
    else Revalidated(c.(ed25519PublicKey := contents))
  }

  /** A file of the wrong length is refused before validation, with the
      "bytes" message; otherwise each loader replaces only its own key and
      succeeds iff the result validates. */
  lemma FileLoadersSpec(c: KeyConfig, contents: seq<Byte>)
    ensures |contents| != RsaLength ==>
      WithRsaFromFile(c, contents) ==
        Err(New(ValidationError, "RSA modulus must be exactly 256 bytes, got " + DecimalString(|contents|) + " bytes"))
    ensures WithRsaFromFile(c, contents).Ok? <==>
      WellFormedKey(contents, RsaLength) && WellFormedKey(c.ed25519PublicKey, Ed25519Length)
    ensures WithRsaFromFile(c, contents).Ok? ==> WithRsaFromFile(c, contents).value == KeyConfig(contents, c.ed25519PublicKey)
    ensures |contents| != Ed25519Length ==>
      WithEd25519FromFile(c, contents) ==
        Err(New(ValidationError, "Ed25519 public key must be exactly 32 bytes, got " + DecimalString(|contents|) + " bytes"))
    ensures WithEd25519FromFile(c, contents).Ok? <==>
      WellFormedKey(c.rsaModulus, RsaLength) && WellFormedKey(contents, Ed25519Length)
    ensures WithEd25519FromFile(c, contents).Ok? ==> WithEd25519FromFile(c, contents).value == KeyConfig(c.rsaModulus, contents)
  {
    ValidateOkIff(c.(rsaModulus := contents));
    ValidateOkIff(c.(ed25519PublicKey := contents));
  }
}
