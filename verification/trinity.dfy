/** The TrinityCore replacement keys and the Arctium CDN replacement URLs. */
module Trinity {
  import opened Wrappers
  import opened Bytes
  import opened Strings

  type U32 = x: nat | x < 0x1_0000_0000

  /** The 2048-bit RSA modulus written over the client's, as sixteen rows of sixteen bytes. */
  const RsaModulus: seq<Byte> :=
    RsaRows[0] + RsaRows[1] + RsaRows[2] + RsaRows[3] + RsaRows[4] + RsaRows[5] + RsaRows[6] + RsaRows[7] +
    RsaRows[8] + RsaRows[9] + RsaRows[10] + RsaRows[11] + RsaRows[12] + RsaRows[13] + RsaRows[14] + RsaRows[15]

  const RsaRows: seq<seq<Byte>> := [
    [0x5F, 0xD6, 0x80, 0x0B, 0xA7, 0xFF, 0x01, 0x40, 0xC7, 0xBC, 0x8E, 0xF5, 0x6B, 0x27, 0xB0, 0xBF],
    [0xF0, 0x1D, 0x1B, 0xFE, 0xDD, 0x0B, 0x1F, 0x3D, 0xB6, 0x6F, 0x1A, 0x48, 0x0D, 0xFB, 0x51, 0x08],
    [0x65, 0x58, 0x4F, 0xDB, 0x5C, 0x6E, 0xCF, 0x64, 0xCB, 0xC1, 0x6B, 0x2E, 0xB8, 0x0F, 0x5D, 0x08],
    [0x5D, 0x89, 0x06, 0xA9, 0x77, 0x8B, 0x9E, 0xAA, 0x04, 0xB0, 0x83, 0x10, 0xE2, 0x15, 0x4D, 0x08],
    [0x77, 0xD4, 0x7A, 0x0E, 0x5A, 0xB0, 0xBB, 0x00, 0x61, 0xD7, 0xA6, 0x75, 0xDF, 0x06, 0x64, 0x88],
    [0xBB, 0xB9, 0xCA, 0xB0, 0x18, 0x8B, 0x54, 0x13, 0xE2, 0xCB, 0x33, 0xDF, 0x17, 0xD8, 0xDA, 0xA9],
    [0xA5, 0x60, 0xA3, 0x1F, 0x4E, 0x27, 0x05, 0x98, 0x6F, 0xAA, 0xEE, 0x14, 0x3B, 0xF3, 0x97, 0xA8],
    [0x12, 0x02, 0x94, 0x0D, 0x84, 0xDC, 0x0E, 0xF1, 0x76, 0x23, 0x95, 0x36, 0x13, 0xF9, 0xA9, 0xC5],
    [0x48, 0xDB, 0xDA, 0x86, 0xBE, 0x29, 0x22, 0x54, 0x44, 0x9D, 0x9F, 0x80, 0x7B, 0x07, 0x80, 0x30],
    [0xEA, 0xD2, 0x83, 0xCC, 0xCE, 0x37, 0xD1, 0xD1, 0xCF, 0x85, 0xBE, 0x91, 0x25, 0xCE, 0xC0, 0xCC],
    [0x55, 0xC8, 0xC0, 0xFB, 0x38, 0xC5, 0x49, 0x03, 0x6A, 0x02, 0xA9, 0x9F, 0x9F, 0x86, 0xFB, 0xC7],
    [0xCB, 0xC6, 0xA5, 0x82, 0xA2, 0x30, 0xC2, 0xAC, 0xE6, 0x98, 0xDA, 0x83, 0x64, 0x43, 0x7F, 0x0D],
    [0x13, 0x18, 0xEB, 0x90, 0x53, 0x5B, 0x37, 0x6B, 0xE6, 0x0D, 0x80, 0x1E, 0xEF, 0xED, 0xC7, 0xB8],
    [0x68, 0x9B, 0x4C, 0x09, 0x7B, 0x60, 0xB2, 0x57, 0xD8, 0x59, 0x8D, 0x7F, 0xEA, 0xCD, 0xEB, 0xC4],
    [0x60, 0x9F, 0x45, 0x7A, 0xA9, 0x26, 0x8A, 0x2F, 0x85, 0x0C, 0xF2, 0x19, 0xC6, 0x53, 0x92, 0xF7],
    [0xF0, 0xB8, 0x32, 0xCB, 0x5B, 0x66, 0xCE, 0x51, 0x54, 0xB4, 0xC3, 0xD3, 0xD4, 0xDC, 0xB3, 0xEE]
  ]

  /** The 32-octet Ed25519 public key (section 5.1.5 of RFC 8032) written over the client's. */
  const Ed25519PublicKey: seq<Byte> := [
    0x02, 0x59, 0x6F, 0x0D, 0x0C, 0x06, 0x1A, 0x8B, 0x30, 0x74, 0x59, 0x88, 0xFD, 0x72, 0xC5, 0x9E,
    0x29, 0xEC, 0x36, 0x7F, 0xB0, 0xF3, 0x41, 0xF2, 0x8E, 0x0F, 0x08, 0xD0, 0x37, 0xBA, 0xFC, 0x69
  ]

  /** Neither key is all zero, and neither consists of one repeated byte. */
  lemma KeysHaveEntropy()
    ensures |RsaModulus| == 256 && |Ed25519PublicKey| == 32
    ensures exists i :: 0 <= i < |RsaModulus| && RsaModulus[i] != 0
    ensures exists i :: 0 <= i < |RsaModulus| && RsaModulus[i] != RsaModulus[0]
    ensures exists i :: 0 <= i < |Ed25519PublicKey| && Ed25519PublicKey[i] != 0
    ensures exists i :: 0 <= i < |Ed25519PublicKey| && Ed25519PublicKey[i] != Ed25519PublicKey[0]
  {
    assert RsaModulus[0] == 0x5F;
    assert RsaModulus[1] == 0xD6;
    assert Ed25519PublicKey[1] != Ed25519PublicKey[0] && Ed25519PublicKey[0] != 0;
  }

  const UrlPrefix := "http://ngdp.arctium.io/"
  const VersionsSuffix := "/versions"

  /** `get_version_url`: a missing region or product is written as the
      placeholder `%s`, a missing build as `latest`. */
  function GetVersionUrl(build: Option<U32>, region: Option<string>, product: Option<string>): string {
    var r := region.GetOr("%s");
    var p := product.GetOr("%s");
    var b := match build case Some(n) => DecimalString(n) case None => "latest";
    UrlPrefix + r + "/" + p + "/" + b + VersionsSuffix
  }

  /** The build component sits just before `/versions` and reads back as the
      build number; without a build it is `latest`. The URL always starts with
      the Arctium host and names the region and product (or placeholders). */
  lemma VersionUrlCarriesBuild(build: Option<U32>, region: Option<string>, product: Option<string>)
    ensures var url := GetVersionUrl(build, region, product);
      var head := UrlPrefix + region.GetOr("%s") + "/" + product.GetOr("%s") + "/";
      && StartsWith(url, head)
      && EndsWith(url, VersionsSuffix)
      && (build.Some? ==> ParseDecimal(url[|head|..|url| - |VersionsSuffix|]) == build.value)
      && (build.None? ==> url[|head|..|url| - |VersionsSuffix|] == "latest")
  {
    var url := GetVersionUrl(build, region, product);
    var head := UrlPrefix + region.GetOr("%s") + "/" + product.GetOr("%s") + "/";
    var b := match build case Some(n) => DecimalString(n) case None => "latest";
    assert url == head + b + VersionsSuffix;
    assert url[..|head|] == head;
    assert url[|head|..|url| - |VersionsSuffix|] == b;
    assert url[|url| - |VersionsSuffix|..] == VersionsSuffix;
    if build.Some? {
      DecimalRoundTrip(build.value);
    }
  }

  /** `get_cdns_url`. */
  const CdnsUrl := "http://ngdp.arctium.io/customs/wow/cdns"

  /** `create_url_replacement`: the URL's UTF-8 bytes cut or zero-padded to
      exactly `n` bytes. */
  function CreateUrlReplacement(url: string, n: nat): (r: seq<Byte>)
    ensures |r| == n
    ensures |Utf8(url)| <= n ==> r[..|Utf8(url)|] == Utf8(url) && forall i :: |Utf8(url)| <= i < n ==> r[i] == 0
    ensures |Utf8(url)| > n ==> r == Utf8(url)[..n]
  {
    var b := Utf8(url);
    if |b| > n then b[..n] else b + seq(n - |b|, _ => 0)
  }

  /** A replacement as long as the URL is the URL itself, and cutting a
      padded replacement back to the URL length recovers the URL. */
  lemma UrlReplacementRoundTrip(url: string, n: nat)
    requires |Utf8(url)| <= n
    ensures CreateUrlReplacement(url, |Utf8(url)|) == Utf8(url)
    ensures CreateUrlReplacement(url, n)[..|Utf8(url)|] == CreateUrlReplacement(url, |Utf8(url)|)
  {
  }
}
