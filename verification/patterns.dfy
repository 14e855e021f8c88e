/** The fixed byte patterns searched for in the client image. Each is built
    once and never changes, which a constant captures. */
module Patterns {
  import opened Bytes
  import opened Binary

  const PortalText := ".actual.battle.net"
  const VersionUrlText := "http://%s.patch.battle.net:1119/%s/versions"
  const CdnsUrlText := "http://%s.patch.battle.net:1119/%s/cdns"

  /** `portal_pattern`: the Battle.net portal host suffix. */
  const Portal: Pattern := StringToPattern(PortalText)

  /** `connect_to_modulus_pattern`: the first bytes of the client's ConnectTo RSA modulus. */
  const ConnectToModulus: Pattern := [0x91, 0xD5, 0x9B, 0xB7, 0xD4, 0xE1, 0x83, 0xA5]

  /** `crypto_ed_public_key_pattern`: the first bytes of the client's Ed25519 key. */
  const CryptoEdPublicKey: Pattern := [0x15, 0xD6, 0x18, 0xBD, 0x7D, 0xB5, 0x77, 0xBD]

  /** `version_url_pattern`. */
  const VersionUrl: Pattern := StringToPattern(VersionUrlText)

  /** `cdns_url_pattern`. */
  const CdnsUrl: Pattern := StringToPattern(CdnsUrlText)

  /** `auth_seed_pattern`: five literal bytes, four wildcards, two literal bytes. */
  const AuthSeed: Pattern := [0x57, 0x6F, 0x57, 0x00, 0xE8] + seq(4, _ => Wildcard) + [0x48, 0x8D]

  /** The pattern of an ASCII string holds its character codes. */
  lemma AsciiPattern(s: string)
    requires IsAscii(s)
    ensures |StringToPattern(s)| == |s|
    ensures forall i :: 0 <= i < |s| ==> StringToPattern(s)[i] == s[i] as int
  {
    Utf8OfAscii(s);
  }

  /** The portal pattern is the 18 character codes of `.actual.battle.net`. */
  lemma PortalShape()
    ensures |Portal| == 18 && |Portal| == |PortalText|
    ensures forall i :: 0 <= i < |Portal| ==> Portal[i] == PortalText[i] as int
    ensures Wildcard !in Portal
  {
    AsciiPattern(PortalText);
    StringPatternHasNoWildcard(PortalText);
  }

  /** The version URL pattern is the character codes of its URL text, with no wildcards. */
  lemma VersionUrlShape()
    ensures |VersionUrl| == |VersionUrlText| == 43
    ensures forall i :: 0 <= i < |VersionUrl| ==> VersionUrl[i] == VersionUrlText[i] as int
    ensures Wildcard !in VersionUrl
  {
    AsciiPattern(VersionUrlText);
    StringPatternHasNoWildcard(VersionUrlText);
  }

  /** The CDNs URL pattern is the character codes of its URL text, with no wildcards. */
  lemma CdnsUrlShape()
    ensures |CdnsUrl| == |CdnsUrlText| == 39
    ensures forall i :: 0 <= i < |CdnsUrl| ==> CdnsUrl[i] == CdnsUrlText[i] as int
    ensures Wildcard !in CdnsUrl
  {
    AsciiPattern(CdnsUrlText);
    StringPatternHasNoWildcard(CdnsUrlText);
  }

  /** The two key patterns are eight literal bytes each. */
  lemma KeyPatternShapes()
    ensures |ConnectToModulus| == 8 && forall i :: 0 <= i < 8 ==> 0 <= ConnectToModulus[i] < 256
    ensures |CryptoEdPublicKey| == 8 && forall i :: 0 <= i < 8 ==> 0 <= CryptoEdPublicKey[i] < 256
  {
  }

  /** The auth-seed pattern has 11 elements, wildcards exactly at 5..8. */
  lemma AuthSeedShape()
    ensures |AuthSeed| == 11
    ensures forall i :: 0 <= i < 11 ==> (AuthSeed[i] == Wildcard <==> 5 <= i < 9)
  {
  }

  /** The patterns the patcher applies are pairwise different. */
  lemma PatternsDistinct()
    ensures Portal != ConnectToModulus && Portal != CryptoEdPublicKey && ConnectToModulus != CryptoEdPublicKey
    ensures VersionUrl != CdnsUrl && VersionUrl != Portal && CdnsUrl != Portal
    ensures VersionUrl != ConnectToModulus && VersionUrl != CryptoEdPublicKey
    ensures CdnsUrl != ConnectToModulus && CdnsUrl != CryptoEdPublicKey
  {
    PortalShape();
    VersionUrlShape();
    CdnsUrlShape();
    assert ConnectToModulus[0] != CryptoEdPublicKey[0];
  }
}
