/** `execute_patch` without its file I/O: the size gate, the section check of
    every located pattern, the dry-run probes on copies, and the in-place
    patch sequence with its running patch count. */
module Execute {
  import opened Wrappers
  import opened Bytes
  import opened Strings
  import opened Errors
  import opened Binary
  import Section
  import Keys
  import Trinity
  import Patterns
  import Platform

  const MaxFileSize: nat := 1024 * 1024 * 1024
  const MinFileSize: nat := 1024

  /** The patterns and the URL function the orchestrator uses that are not
      defined in the patterns and trinity modules; they are parameters. */
  datatype Unknowns = Unknowns(
    signatureModulus: Pattern,
    cryptoRsaModulus: Pattern,
    versionUrlV2: Pattern,
    versionUrlV3: Pattern,
    unifiedApiUrl: Option<Trinity.U32> -> string)

  /** The table of patterns one run searches for, in the roles the run gives them. */
  datatype Targets = Targets(
    portal: Pattern,
    connectToModulus: Pattern,
    signatureModulus: Pattern,
    cryptoRsaModulus: Pattern,
    edPublicKey: Pattern,
    versionUrl: Pattern,
    versionUrlV2: Pattern,
    versionUrlV3: Pattern,
    cdnsUrl: Pattern,
    unifiedApiUrl: Option<Trinity.U32> -> string)

  /** The table `execute_patch` uses: the fixed patterns plus the unknown ones. */
  function StandardTargets(u: Unknowns): Targets {
    Targets(Patterns.Portal, Patterns.ConnectToModulus, u.signatureModulus, u.cryptoRsaModulus,
            Patterns.CryptoEdPublicKey, Patterns.VersionUrl, u.versionUrlV2, u.versionUrlV3,
            Patterns.CdnsUrl, u.unifiedApiUrl)
  }

  /** The arguments of `execute_patch`. The output path, code-sign flag and
      verbosity only matter to the file writing and printing left out here. */
  datatype Request = Request(
    inputPath: string,
    outputPath: string,
    keyConfig: Keys.KeyConfig,
    versionUrl: Option<string>,
    cdnsUrl: Option<string>,
    dryRun: bool,
    stripCodesign: bool,
    verbose: bool)

  datatype RsaVariant = ConnectTo | Signature | Crypto
  datatype VersionVariant = V1 | V2 | V3 | NoVersionUrl

  /** What a successful run did: in a dry run, which targets were found (the
      Ed25519 entry is None for clients that do not use it); otherwise which
      were patched, and the patch count. */
  datatype Report =
    | DryRun(portalFound: bool, rsa: Option<RsaVariant>, edFound: Option<bool>, version: VersionVariant, cdnsFound: bool)
    | Applied(patchCount: nat, rsaPatched: RsaVariant, edPatched: bool, versionPatched: VersionVariant, cdnsPatched: bool)

  /** The result of a run and the buffer it leaves behind (the bytes that
      would be written to the output file on success). */
  datatype Outcome = Outcome(result: Result<Report, WowPatcherError>, buffer: seq<Byte>)

  /** The file size gate. */
  function SizeCheck(size: nat): (r: Option<WowPatcherError>)
    ensures r.Some? ==> r.value.category == ValidationError
    ensures r.None? <==> MinFileSize <= size <= MaxFileSize
  {
    if size > MaxFileSize then
      Some(New(ValidationError, "File size " + DecimalString(size) + " bytes exceeds maximum allowed size of "
        + DecimalString(MaxFileSize) + " bytes"))
    else if size == 0 then Some(New(ValidationError, "File is empty - not a valid WoW executable"))
    else if size < MinFileSize then
      Some(New(ValidationError, "File too small (" + DecimalString(size) + " bytes) to be a valid executable"))
    else None
  }

  function Located(data: seq<Byte>, p: Pattern, name: string): seq<Section.Probe> {
    match Find(data, p)
    case Some(offset) => [Section.Probe(offset, name)]
    case None => []
  }

  /** Every candidate pattern found in the unpatched data, in the order checked. */
  function CollectProbes(data: seq<Byte>, usesEd25519: bool, t: Targets): seq<Section.Probe> {
    Located(data, t.portal, "Portal (.actual.battle.net)")
      + Located(data, t.connectToModulus, "RSA Modulus (ConnectTo)")
      + Located(data, t.signatureModulus, "RSA Modulus (Signature)")
      + Located(data, t.cryptoRsaModulus, "RSA Modulus (Crypto)")
      + (if usesEd25519 then Located(data, t.edPublicKey, "Ed25519 Public Key") else [])
      + Located(data, t.versionUrl, "Version URL")
      + Located(data, t.versionUrlV2, "Version URL v2")
      + Located(data, t.versionUrlV3, "Version URL v3")
      + Located(data, t.cdnsUrl, "CDNs URL")
  }

  function RsaPattern(v: RsaVariant, t: Targets): Pattern {
    match v
    case ConnectTo => t.connectToModulus
    case Signature => t.signatureModulus
    case Crypto => t.cryptoRsaModulus
  }

  /** The RSA modulus: ConnectTo, then Signature, then Crypto; the first that
      is found gets the leading key bytes written over its match (as many as
      the pattern is long), and with none found nothing changes. */
  function RsaStep(d: seq<Byte>, rsa: seq<Byte>, t: Targets): (r: (Option<RsaVariant>, seq<Byte>))
    ensures |r.1| == |d|
    ensures r.0 == Some(ConnectTo) <==> Find(d, t.connectToModulus).Some?
    ensures r.0 == Some(Signature) <==> Find(d, t.connectToModulus).None? && Find(d, t.signatureModulus).Some?
    ensures r.0 == Some(Crypto) <==>
      Find(d, t.connectToModulus).None? && Find(d, t.signatureModulus).None? && Find(d, t.cryptoRsaModulus).Some?
    ensures r.0.None? ==> r.1 == d
    ensures r.0.Some? ==>
      var p := RsaPattern(r.0.value, t);
      Find(d, p).Some? && WrittenAt(d, r.1, Find(d, p).value, rsa[..Min(|rsa|, |p|)])
  {
    PatchOkIffFound(d, t.connectToModulus);
    PatchOkIffFound(d, t.signatureModulus);
    PatchOkIffFound(d, t.cryptoRsaModulus);
    if PatchOutcome(d, t.connectToModulus).Ok? then
      PatchWritesAtFound(d, t.connectToModulus, rsa);
      (Some(ConnectTo), Patched(d, t.connectToModulus, rsa))
    else if PatchOutcome(d, t.signatureModulus).Ok? then
      PatchWritesAtFound(d, t.signatureModulus, rsa);
      (Some(Signature), Patched(d, t.signatureModulus, rsa))
    else if PatchOutcome(d, t.cryptoRsaModulus).Ok? then
      PatchWritesAtFound(d, t.cryptoRsaModulus, rsa);
      (Some(Crypto), Patched(d, t.cryptoRsaModulus, rsa))
    else (None, d)
  }

  /** The Ed25519 key, for clients that use one: patched exactly when the
      client uses one and the pattern is found, the leading key bytes written
      over the match; otherwise nothing changes. */
  function EdStep(d: seq<Byte>, usesEd25519: bool, ed: seq<Byte>, t: Targets): (r: (bool, seq<Byte>))
    ensures |r.1| == |d|
    ensures r.0 <==> usesEd25519 && Find(d, t.edPublicKey).Some?
    ensures r.0 ==> WrittenAt(d, r.1, Find(d, t.edPublicKey).value, ed[..Min(|ed|, |t.edPublicKey|)])
    ensures !r.0 ==> r.1 == d
  {
    PatchOkIffFound(d, t.edPublicKey);
    if usesEd25519 && PatchOutcome(d, t.edPublicKey).Ok? then
      PatchWritesAtFound(d, t.edPublicKey, ed);
      (true, Patched(d, t.edPublicKey, ed))
    else (false, d)
  }

  /** The URL written over the v1 or v2 version URL pattern. */
  function VersionUrlText(versionUrl: Option<string>, build: Option<Trinity.U32>): string {
    versionUrl.GetOr(Trinity.GetVersionUrl(build, None, None))
  }

  function VersionPattern(v: VersionVariant, t: Targets): Pattern
    requires v != NoVersionUrl
  {
    match v
    case V1 => t.versionUrl
    case V2 => t.versionUrlV2
    case V3 => t.versionUrlV3
  }

  /** The URL written over a version pattern: the custom URL when given,
      otherwise the unified API URL over v3 and the default version URL over
      v1 and v2. */
  function VersionText(v: VersionVariant, versionUrl: Option<string>, build: Option<Trinity.U32>, t: Targets): string {
    if v == V3 then versionUrl.GetOr(t.unifiedApiUrl(build)) else VersionUrlText(versionUrl, build)
  }

  /** The version URL: v1, then v2, then v3; the first found has its whole
      match overwritten by the URL sized to the pattern, and with none found
      nothing changes. */
  function VersionStep(d: seq<Byte>, versionUrl: Option<string>, build: Option<Trinity.U32>, t: Targets): (r: (VersionVariant, seq<Byte>))
    ensures |r.1| == |d|
    ensures r.0 == V1 <==> Find(d, t.versionUrl).Some?
    ensures r.0 == V2 <==> Find(d, t.versionUrl).None? && Find(d, t.versionUrlV2).Some?
    ensures r.0 == V3 <==>
      Find(d, t.versionUrl).None? && Find(d, t.versionUrlV2).None? && Find(d, t.versionUrlV3).Some?
    ensures r.0 == NoVersionUrl ==> r.1 == d
    ensures r.0 != NoVersionUrl ==>
      var p := VersionPattern(r.0, t);
      Find(d, p).Some? &&
      WrittenAt(d, r.1, Find(d, p).value, Trinity.CreateUrlReplacement(VersionText(r.0, versionUrl, build, t), |p|))
  {
    var text := VersionUrlText(versionUrl, build);
    PatchOkIffFound(d, t.versionUrl);
    PatchOkIffFound(d, t.versionUrlV2);
    PatchOkIffFound(d, t.versionUrlV3);
    if PatchOutcome(d, t.versionUrl).Ok? then
      SizedUrlWrite(d, t.versionUrl, text);
      (V1, Patched(d, t.versionUrl, Trinity.CreateUrlReplacement(text, |t.versionUrl|)))
    else if PatchOutcome(d, t.versionUrlV2).Ok? then
      SizedUrlWrite(d, t.versionUrlV2, text);
      (V2, Patched(d, t.versionUrlV2, Trinity.CreateUrlReplacement(text, |t.versionUrlV2|)))
    else if PatchOutcome(d, t.versionUrlV3).Ok? then
      SizedUrlWrite(d, t.versionUrlV3, versionUrl.GetOr(t.unifiedApiUrl(build)));
      (V3, Patched(d, t.versionUrlV3, Trinity.CreateUrlReplacement(versionUrl.GetOr(t.unifiedApiUrl(build)), |t.versionUrlV3|)))
    else (NoVersionUrl, d)
  }

  function CdnsReplacement(cdnsUrl: Option<string>, t: Targets): seq<Byte> {
    Trinity.CreateUrlReplacement(cdnsUrl.GetOr(Trinity.CdnsUrl), |t.cdnsUrl|)
  }

  /** The CDNs URL, skipped when the v3 (unified API) pattern was patched;
      otherwise, when found, its whole match is overwritten by the URL sized
      to the pattern. */
  function CdnsStep(d: seq<Byte>, cdnsUrl: Option<string>, version: VersionVariant, t: Targets): (r: (bool, seq<Byte>))
    ensures |r.1| == |d|
    ensures r.0 <==> version != V3 && Find(d, t.cdnsUrl).Some?
    ensures r.0 ==> WrittenAt(d, r.1, Find(d, t.cdnsUrl).value, CdnsReplacement(cdnsUrl, t))
    ensures !r.0 ==> r.1 == d
  {
    PatchOkIffFound(d, t.cdnsUrl);
    if version != V3 && PatchOutcome(d, t.cdnsUrl).Ok? then
      SizedUrlWrite(d, t.cdnsUrl, cdnsUrl.GetOr(Trinity.CdnsUrl));
      (true, Patched(d, t.cdnsUrl, CdnsReplacement(cdnsUrl, t)))
    else (false, d)
  }

  function Count(b: bool): nat { if b then 1 else 0 }

  const PortalFailure := "Failed to patch portal pattern - unsupported WoW version"
  const RsaFailure := "Failed to patch RSA modulus - no known pattern found (unsupported WoW version)"

  /** The version URL and then the CDNs URL. */
  function UrlSteps(d: seq<Byte>, versionUrl: Option<string>, cdnsUrl: Option<string>, build: Option<Trinity.U32>, t: Targets)
    : (r: (VersionVariant, bool, seq<Byte>))
    ensures |r.2| == |d|
    ensures r.0 == V3 ==> !r.1
  {
    var version := VersionStep(d, versionUrl, build, t);
    var cdns := CdnsStep(version.1, cdnsUrl, version.0, t);
    (version.0, cdns.0, cdns.1)
  }

  /** The optional targets, once both mandatory ones are patched. */
  function ApplyOptional(d2: seq<Byte>, rsa: RsaVariant, usesEd25519: bool, req: Request, build: Option<Trinity.U32>, t: Targets): (o: Outcome)
    ensures |o.buffer| == |d2|
  {
    var ed := EdStep(d2, usesEd25519, req.keyConfig.ed25519PublicKey, t);
    var urls := UrlSteps(ed.1, req.versionUrl, req.cdnsUrl, build, t);
    var count := 2 + Count(ed.0) + Count(urls.0 != NoVersionUrl) + Count(urls.1);
    Outcome(Ok(Applied(count, rsa, ed.0, urls.0, urls.1)), urls.2)
  }

  /** The apply sequence: portal and RSA are mandatory, the rest best effort. */
  function Apply(d0: seq<Byte>, usesEd25519: bool, req: Request, build: Option<Trinity.U32>, t: Targets): (o: Outcome)
    ensures |o.buffer| == |d0|
  {
    match PatchOutcome(d0, t.portal)
    case Err(e) => Outcome(Err(Wrap(PatchingError, PortalFailure, Display(e))), d0)
    case Ok(_) =>
      var d1 := Patched(d0, t.portal, Empty(t.portal));
      var (rsa, d2) := RsaStep(d1, req.keyConfig.rsaModulus, t);
      if rsa.None? then Outcome(Err(New(PatchingError, RsaFailure)), d2)
      else ApplyOptional(d2, rsa.value, usesEd25519, req, build, t)
  }

  /** What the dry run reports; every probe runs on a fresh copy of the data. */
  function DryRunReport(data: seq<Byte>, usesEd25519: bool, req: Request, build: Option<Trinity.U32>, t: Targets): Report {
    DryRun(
      PatchOutcome(data, t.portal).Ok?,
      RsaStep(data, req.keyConfig.rsaModulus, t).0,
      if usesEd25519 then Some(PatchOutcome(data, t.edPublicKey).Ok?) else None,
      VersionStep(data, req.versionUrl, build, t).0,
      PatchOutcome(data, t.cdnsUrl).Ok?)
  }

  function BuildNumber(version: Option<Platform.Version>): Option<Trinity.U32> {
    match version
    case Some(v) => Some(v.build)
    case None => None
  }

  function ValidationFailure(errors: seq<string>): WowPatcherError {
    New(ValidationError, "Pattern validation failed:\n" + Join(errors, "\n"))
  }

  /** The whole run on the file contents `data`, whose parsed image is `obj`
      and whose extracted version is `version`. */
  function Execution(data: seq<Byte>, obj: Section.Object, version: Option<Platform.Version>, t: Targets, req: Request, windows: bool): (o: Outcome)
    ensures |o.buffer| == |data|
  {
    match SizeCheck(|data|)
    case Some(e) => Outcome(Err(e), data)
    case None =>
      var usesEd25519 := Platform.UsesEd25519(Platform.DetectClientType(req.inputPath, windows));
      var errors := Section.OffsetErrors(obj, CollectProbes(data, usesEd25519, t));
      if errors != [] then Outcome(Err(ValidationFailure(errors)), data)
      else if req.dryRun then Outcome(Ok(DryRunReport(data, usesEd25519, req, BuildNumber(version), t)), data)
      else Apply(data, usesEd25519, req, BuildNumber(version), t)
  }

  // ---- Properties of a run ----

  /** Sizes outside 1 KiB..1 GiB are refused with a validation error before
      anything else happens. */
  lemma SizeGateComesFirst(data: seq<Byte>, obj: Section.Object, version: Option<Platform.Version>, t: Targets, req: Request, windows: bool)
    requires |data| < MinFileSize || |data| > MaxFileSize
    ensures var o := Execution(data, obj, version, t, req, windows);
      o.result.Err? && o.result.error.category == ValidationError && o.buffer == data
  {
  }

  /** A located pattern outside a patchable section aborts the run with a
      validation error and no write, in dry-run and apply mode alike. */
  lemma ValidationGatesEveryWrite(data: seq<Byte>, obj: Section.Object, version: Option<Platform.Version>, t: Targets, req: Request, windows: bool)
    requires MinFileSize <= |data| <= MaxFileSize
    requires exists p :: (p in CollectProbes(data, Platform.UsesEd25519(Platform.DetectClientType(req.inputPath, windows)), t) &&
                          !Section.ProbeOk(obj, p))
    ensures var o := Execution(data, obj, version, t, req, windows);
      o.result.Err? && o.result.error.category == ValidationError &&
      StartsWith(o.result.error.message, "Pattern validation failed:\n") && o.buffer == data
  {
    var probes := CollectProbes(data, Platform.UsesEd25519(Platform.DetectClientType(req.inputPath, windows)), t);
    Section.OffsetErrorsEmptyIff(obj, probes);
    var msg := "Pattern validation failed:\n";
    assert (msg + Join(Section.OffsetErrors(obj, probes), "\n"))[..|msg|] == msg;
  }

  /** The buffer changes only in apply mode, after the size gate and the
      section check of every located pattern have passed. */
  lemma WritesOnlyAfterValidation(data: seq<Byte>, obj: Section.Object, version: Option<Platform.Version>, t: Targets, req: Request, windows: bool)
    ensures var o := Execution(data, obj, version, t, req, windows);
      o.buffer != data ==>
        !req.dryRun && MinFileSize <= |data| <= MaxFileSize &&
        forall p :: p in CollectProbes(data, Platform.UsesEd25519(Platform.DetectClientType(req.inputPath, windows)), t) ==>
          Section.ProbeOk(obj, p)
  {
    var probes := CollectProbes(data, Platform.UsesEd25519(Platform.DetectClientType(req.inputPath, windows)), t);
    Section.OffsetErrorsEmptyIff(obj, probes);
  }

  /** A dry run never changes the buffer and succeeds whenever the gates pass,
      whether or not any target is found. */
  lemma DryRunNeverWrites(data: seq<Byte>, obj: Section.Object, version: Option<Platform.Version>, t: Targets, req: Request, windows: bool)
    requires req.dryRun
    ensures var o := Execution(data, obj, version, t, req, windows);
      o.buffer == data &&
      (o.result.Ok? <==>
        (MinFileSize <= |data| <= MaxFileSize &&
         forall p :: p in CollectProbes(data, Platform.UsesEd25519(Platform.DetectClientType(req.inputPath, windows)), t) ==>
           Section.ProbeOk(obj, p))) &&
      (o.result.Ok? ==> o.result.value.DryRun?)
  {
    var probes := CollectProbes(data, Platform.UsesEd25519(Platform.DetectClientType(req.inputPath, windows)), t);
    Section.OffsetErrorsEmptyIff(obj, probes);
  }

  /** The portal is mandatory: without it the run fails with a patching error
      wrapping the search failure, and nothing else is tried. */
  lemma PortalIsMandatory(data: seq<Byte>, usesEd25519: bool, req: Request, build: Option<Trinity.U32>, t: Targets)
    requires Find(data, t.portal).None?
    ensures var o := Apply(data, usesEd25519, req, build, t);
      o.result.Err? && o.result.error.category == PatchingError &&
      o.result.error.message == PortalFailure && o.result.error.cause.Some? && o.buffer == data
  {
  }

  /** The portal match is overwritten with zeros. The RSA target then takes
      the first candidate, in the order ConnectTo, Signature, Crypto, found in
      the buffer as it stands after the portal patch, and the leading key
      bytes land on that match; with none found the run fails with a
      patching error. */
  lemma RsaFallbackOrder(data: seq<Byte>, usesEd25519: bool, req: Request, build: Option<Trinity.U32>, t: Targets)
    requires Find(data, t.portal).Some?
    ensures WrittenAt(data, Patched(data, t.portal, Empty(t.portal)), Find(data, t.portal).value, Empty(t.portal))
    ensures var d1 := Patched(data, t.portal, Empty(t.portal));
      var rsa := req.keyConfig.rsaModulus;
      var d2 := RsaStep(d1, rsa, t).1;
      var o := Apply(data, usesEd25519, req, build, t);
      && (Find(d1, t.connectToModulus).Some? ==>
            o.result.Ok? && o.result.value.rsaPatched == ConnectTo &&
            WrittenAt(d1, d2, Find(d1, t.connectToModulus).value, rsa[..Min(|rsa|, |t.connectToModulus|)]))
      && (Find(d1, t.connectToModulus).None? && Find(d1, t.signatureModulus).Some? ==>
            o.result.Ok? && o.result.value.rsaPatched == Signature &&
            WrittenAt(d1, d2, Find(d1, t.signatureModulus).value, rsa[..Min(|rsa|, |t.signatureModulus|)]))
      && (Find(d1, t.connectToModulus).None? && Find(d1, t.signatureModulus).None? && Find(d1, t.cryptoRsaModulus).Some? ==>
            o.result.Ok? && o.result.value.rsaPatched == Crypto &&
            WrittenAt(d1, d2, Find(d1, t.cryptoRsaModulus).value, rsa[..Min(|rsa|, |t.cryptoRsaModulus|)]))
      && (Find(d1, t.connectToModulus).None? && Find(d1, t.signatureModulus).None? && Find(d1, t.cryptoRsaModulus).None? ==>
            o.result.Err? && o.result.error == New(PatchingError, RsaFailure) && o.buffer == d1)
  {
    PatchWritesAtFound(data, t.portal, Empty(t.portal));
    assert Empty(t.portal)[..Min(|t.portal|, |t.portal|)] == Empty(t.portal);
    PatchOkIffFound(data, t.portal);
  }

  /** A URL replacement sized to its pattern covers the whole match: the match
      is overwritten by exactly the replacement and the bytes around it stay. */
  lemma SizedUrlWrite(d: seq<Byte>, p: Pattern, url: string)
    requires Find(d, p).Some?
    ensures WrittenAt(d, Patched(d, p, Trinity.CreateUrlReplacement(url, |p|)), Find(d, p).value,
                      Trinity.CreateUrlReplacement(url, |p|))
  {
    var rep := Trinity.CreateUrlReplacement(url, |p|);
    PatchWritesAtFound(d, p, rep);
    assert rep[..Min(|rep|, |p|)] == rep;
  }

  /** The default version URL for a known build: 38 bytes plus at most five
      digits, since a build is a 16-bit number. */
  lemma KnownBuildUrlLength(build: Platform.U16)
    ensures |Utf8(Trinity.GetVersionUrl(Some(build), None, None))| <= 43
  {
    var digits := DecimalString(build);
    DecimalStringLength(build, 5);
    var url := Trinity.GetVersionUrl(Some(build), None, None);
    assert url == Trinity.UrlPrefix + "%s/%s/" + digits + Trinity.VersionsSuffix;
    assert IsAscii(url) by {
      forall i | 0 <= i < |url| ensures url[i] as int < 128 {
        if Trinity.UrlPrefix + "%s/%s/" <= url[..i] && i < 29 + |digits| {
          assert url[i] == digits[i - 29];
        }
      }
    }
    Utf8OfAscii(url);
  }

  /** With a known build the default version URL fits the v1 pattern, so the
      whole URL is written, padded with NULs. */
  lemma KnownBuildUrlFits(build: Platform.U16)
    ensures var url := Trinity.GetVersionUrl(Some(build), None, None);
      |Utf8(url)| <= |Patterns.VersionUrl| &&
      Trinity.CreateUrlReplacement(url, |Patterns.VersionUrl|)[..|Utf8(url)|] == Utf8(url)
  {
    KnownBuildUrlLength(build);
    Patterns.VersionUrlShape();
  }

  /** Without a build the default version URL, ending in `latest/versions`, is
      one byte longer than the v1 pattern, so its final byte is cut off. */
  lemma LatestUrlIsCut()
    ensures var url := Trinity.GetVersionUrl(None, None, None);
      |Utf8(url)| == |Patterns.VersionUrl| + 1 &&
      Trinity.CreateUrlReplacement(url, |Patterns.VersionUrl|) == Utf8(url)[..|Utf8(url)| - 1]
  {
    var url := Trinity.GetVersionUrl(None, None, None);
    assert url == "http://ngdp.arctium.io/%s/%s/latest/versions";
    Utf8OfAscii(url);
    Patterns.VersionUrlShape();
  }

  /** The default CDNs URL fills the CDNs pattern exactly. */
  lemma DefaultCdnsUrlFillsPattern()
    ensures Trinity.CreateUrlReplacement(Trinity.CdnsUrl, |Patterns.CdnsUrl|) == Utf8(Trinity.CdnsUrl)
  {
    var url := Trinity.CdnsUrl;
    assert IsAscii(url);
    Utf8OfAscii(url);
    Patterns.CdnsUrlShape();
    Trinity.UrlReplacementRoundTrip(url, |Patterns.CdnsUrl|);
  }

  /** The version URL takes the first pattern, in the order v1, v2, v3, found
      in the buffer it is given, and overwrites that whole match with a URL
      sized to it: the version URL over v1 and v2, the unified API URL (or
      the custom one) over v3. */
  lemma VersionFallbackOrder(d: seq<Byte>, versionUrl: Option<string>, build: Option<Trinity.U32>, t: Targets)
    ensures var text := VersionUrlText(versionUrl, build);
      var (version, afterVersion) := VersionStep(d, versionUrl, build, t);
      Find(d, t.versionUrl).Some? ==>
        version == V1 &&
        WrittenAt(d, afterVersion, Find(d, t.versionUrl).value, Trinity.CreateUrlReplacement(text, |t.versionUrl|))
    ensures var text := VersionUrlText(versionUrl, build);
      var (version, afterVersion) := VersionStep(d, versionUrl, build, t);
      Find(d, t.versionUrl).None? && Find(d, t.versionUrlV2).Some? ==>
        version == V2 &&
        WrittenAt(d, afterVersion, Find(d, t.versionUrlV2).value, Trinity.CreateUrlReplacement(text, |t.versionUrlV2|))
    ensures var text := versionUrl.GetOr(t.unifiedApiUrl(build));
      var (version, afterVersion) := VersionStep(d, versionUrl, build, t);
      Find(d, t.versionUrl).None? && Find(d, t.versionUrlV2).None? && Find(d, t.versionUrlV3).Some? ==>
        version == V3 &&
        WrittenAt(d, afterVersion, Find(d, t.versionUrlV3).value, Trinity.CreateUrlReplacement(text, |t.versionUrlV3|))
    ensures Find(d, t.versionUrl).None? && Find(d, t.versionUrlV2).None? && Find(d, t.versionUrlV3).None? ==>
      VersionStep(d, versionUrl, build, t) == (NoVersionUrl, d)
  {
  }

  /** The CDNs URL is patched exactly when the version step did not patch v3
      and the CDNs pattern is found in the buffer the version step left; then
      its whole match holds the sized CDNs URL, and otherwise that buffer is
      kept. */
  lemma CdnsSkippedExactlyAfterV3(d: seq<Byte>, versionUrl: Option<string>, cdnsUrl: Option<string>, build: Option<Trinity.U32>, t: Targets)
    ensures var (version, afterVersion) := VersionStep(d, versionUrl, build, t);
      var urls := UrlSteps(d, versionUrl, cdnsUrl, build, t);
      && urls.0 == version
      && (urls.1 <==> version != V3 && Find(afterVersion, t.cdnsUrl).Some?)
      && (urls.1 ==> WrittenAt(afterVersion, urls.2, Find(afterVersion, t.cdnsUrl).value, CdnsReplacement(cdnsUrl, t)))
      && (!urls.1 ==> urls.2 == afterVersion)
  {
  }

  /** A successful apply counts the two mandatory targets plus each optional
      one patched; Ed25519 is patched only for clients that use it, and the
      CDNs URL never after the v3 version pattern. */
  lemma PatchCountMatchesTargets(data: seq<Byte>, usesEd25519: bool, req: Request, build: Option<Trinity.U32>, t: Targets)
    ensures var o := Apply(data, usesEd25519, req, build, t);
      o.result.Ok? ==>
        var r := o.result.value;
        && r.Applied?
        && 2 <= r.patchCount <= 5
        && r.patchCount == 2 + Count(r.edPatched) + Count(r.versionPatched != NoVersionUrl) + Count(r.cdnsPatched)
        && (r.edPatched ==> usesEd25519)
        && (r.versionPatched == V3 ==> !r.cdnsPatched && r.patchCount <= 4)
  {
  }

  // ---- The imperative run ----

  method Locate(data: array<Byte>, p: Pattern, name: string, offsets: seq<Section.Probe>) returns (r: seq<Section.Probe>)
    ensures r == offsets + Located(data[..], p, name)
  {
    var found := FindPattern(data[..], p);
    r := offsets;
    if found.Some? {
      r := r + [Section.Probe(found.value, name)];
    }
  }

  /** Builds `offsets_to_validate` by pushing each located pattern. */
  method CollectOffsets(data: array<Byte>, usesEd25519: bool, t: Targets) returns (offsets: seq<Section.Probe>)
    ensures offsets == CollectProbes(data[..], usesEd25519, t)
  {
    offsets := [];
    offsets := Locate(data, t.portal, "Portal (.actual.battle.net)", offsets);
    offsets := Locate(data, t.connectToModulus, "RSA Modulus (ConnectTo)", offsets);
    offsets := Locate(data, t.signatureModulus, "RSA Modulus (Signature)", offsets);
    offsets := Locate(data, t.cryptoRsaModulus, "RSA Modulus (Crypto)", offsets);
    if usesEd25519 {
      offsets := Locate(data, t.edPublicKey, "Ed25519 Public Key", offsets);
    }
    offsets := Locate(data, t.versionUrl, "Version URL", offsets);
    offsets := Locate(data, t.versionUrlV2, "Version URL v2", offsets);
    offsets := Locate(data, t.versionUrlV3, "Version URL v3", offsets);
    offsets := Locate(data, t.cdnsUrl, "CDNs URL", offsets);
  }

  /** Patches a fresh copy of `data` and reports whether it worked. */
  method ProbeOnCopy(data: array<Byte>, p: Pattern, replace: seq<Byte>) returns (ok: bool)
    ensures ok <==> PatchOutcome(data[..], p).Ok?
  {
    var copy := new Byte[data.Length](i reads data requires 0 <= i < data.Length => data[i]);
    assert copy[..] == data[..];
    var r := Patch(copy, p, replace);
    ok := r.Ok?;
  }

  method RsaProbe(data: array<Byte>, rsa: seq<Byte>, t: Targets) returns (found: Option<RsaVariant>)
    ensures found == RsaStep(data[..], rsa, t).0
  {
    var ok := ProbeOnCopy(data, t.connectToModulus, rsa);
    if ok { return Some(ConnectTo); }
    ok := ProbeOnCopy(data, t.signatureModulus, rsa);
    if ok { return Some(Signature); }
    ok := ProbeOnCopy(data, t.cryptoRsaModulus, rsa);
    if ok { return Some(Crypto); }
    return None;
  }

  method VersionProbe(data: array<Byte>, versionUrl: Option<string>, build: Option<Trinity.U32>, t: Targets) returns (found: VersionVariant)
    ensures found == VersionStep(data[..], versionUrl, build, t).0
  {
    var text := VersionUrlText(versionUrl, build);
    var ok := ProbeOnCopy(data, t.versionUrl, Trinity.CreateUrlReplacement(text, |t.versionUrl|));
    if ok { return V1; }
    ok := ProbeOnCopy(data, t.versionUrlV2, Trinity.CreateUrlReplacement(text, |t.versionUrlV2|));
    if ok { return V2; }
    ok := ProbeOnCopy(data, t.versionUrlV3, Trinity.CreateUrlReplacement(versionUrl.GetOr(t.unifiedApiUrl(build)), |t.versionUrlV3|));
    if ok { return V3; }
    return NoVersionUrl;
  }

  /** The dry-run branch: every probe on a copy, the real buffer untouched. */
  method DryRunProbes(data: array<Byte>, usesEd25519: bool, req: Request, build: Option<Trinity.U32>, t: Targets) returns (report: Report)
    ensures report == DryRunReport(data[..], usesEd25519, req, build, t)
  {
    var portal := ProbeOnCopy(data, t.portal, Empty(t.portal));
    var rsa := RsaProbe(data, req.keyConfig.rsaModulus, t);
    var ed: Option<bool> := None;
    if usesEd25519 {
      var found := ProbeOnCopy(data, t.edPublicKey, req.keyConfig.ed25519PublicKey);
      ed := Some(found);
    }
    var version := VersionProbe(data, req.versionUrl, build, t);
    var cdns := ProbeOnCopy(data, t.cdnsUrl, CdnsReplacement(req.cdnsUrl, t));
    report := DryRun(portal, rsa, ed, version, cdns);
  }

  method PatchRsa(data: array<Byte>, rsa: seq<Byte>, t: Targets) returns (patched: Option<RsaVariant>)
    modifies data
    ensures (patched, data[..]) == RsaStep(old(data[..]), rsa, t)
  {
    var r := Patch(data, t.connectToModulus, rsa);
    if r.Ok? { return Some(ConnectTo); }
    r := Patch(data, t.signatureModulus, rsa);
    if r.Ok? { return Some(Signature); }
    r := Patch(data, t.cryptoRsaModulus, rsa);
    if r.Ok? { return Some(Crypto); }
    return None;
  }

  method PatchVersionUrl(data: array<Byte>, versionUrl: Option<string>, build: Option<Trinity.U32>, t: Targets) returns (patched: VersionVariant)
    modifies data
    ensures (patched, data[..]) == VersionStep(old(data[..]), versionUrl, build, t)
  {
    var text := VersionUrlText(versionUrl, build);
    var r := Patch(data, t.versionUrl, Trinity.CreateUrlReplacement(text, |t.versionUrl|));
    if r.Ok? { return V1; }
    r := Patch(data, t.versionUrlV2, Trinity.CreateUrlReplacement(text, |t.versionUrlV2|));
    if r.Ok? { return V2; }
    r := Patch(data, t.versionUrlV3, Trinity.CreateUrlReplacement(versionUrl.GetOr(t.unifiedApiUrl(build)), |t.versionUrlV3|));
    if r.Ok? { return V3; }
    return NoVersionUrl;
  }

  method PatchEd(data: array<Byte>, usesEd25519: bool, ed: seq<Byte>, t: Targets) returns (patched: bool)
    modifies data
    ensures (patched, data[..]) == EdStep(old(data[..]), usesEd25519, ed, t)
  {
    patched := false;
    if usesEd25519 {
      var r := Patch(data, t.edPublicKey, ed);
      patched := r.Ok?;
    }
  }

  method PatchCdns(data: array<Byte>, cdnsUrl: Option<string>, version: VersionVariant, t: Targets) returns (patched: bool)
    modifies data
    ensures (patched, data[..]) == CdnsStep(old(data[..]), cdnsUrl, version, t)
  {
    patched := false;
    if version != V3 {
      var r := Patch(data, t.cdnsUrl, CdnsReplacement(cdnsUrl, t));
      patched := r.Ok?;
    }
  }

  method PatchUrls(data: array<Byte>, versionUrl: Option<string>, cdnsUrl: Option<string>, build: Option<Trinity.U32>, t: Targets)
    returns (version: VersionVariant, cdns: bool)
    modifies data
    ensures (version, cdns, data[..]) == UrlSteps(old(data[..]), versionUrl, cdnsUrl, build, t)
  {
    version := PatchVersionUrl(data, versionUrl, build, t);
    cdns := PatchCdns(data, cdnsUrl, version, t);
  }

  /** The optional targets, continuing the running `patch_count` from 2. */
  method PatchOptional(data: array<Byte>, rsa: RsaVariant, usesEd25519: bool, req: Request, build: Option<Trinity.U32>, t: Targets)
    returns (r: Result<Report, WowPatcherError>)
    modifies data
    ensures Outcome(r, data[..]) == ApplyOptional(old(data[..]), rsa, usesEd25519, req, build, t)
  {
    var patchCount := 2;
    var ed := PatchEd(data, usesEd25519, req.keyConfig.ed25519PublicKey, t);
    patchCount := patchCount + Count(ed);
    var version, cdns := PatchUrls(data, req.versionUrl, req.cdnsUrl, build, t);
    patchCount := patchCount + Count(version != NoVersionUrl);
    patchCount := patchCount + Count(cdns);
    return Ok(Applied(patchCount, rsa, ed, version, cdns));
  }

  /** The apply branch. */
  method ApplyPatches(data: array<Byte>, usesEd25519: bool, req: Request, build: Option<Trinity.U32>, t: Targets)
    returns (r: Result<Report, WowPatcherError>)
    modifies data
    ensures Outcome(r, data[..]) == Apply(old(data[..]), usesEd25519, req, build, t)
  {
    var portal := Patch(data, t.portal, Empty(t.portal));
    if portal.Err? {
      return Err(Wrap(PatchingError, PortalFailure, Display(portal.error)));
    }
    var rsa := PatchRsa(data, req.keyConfig.rsaModulus, t);
    if rsa.None? {
      return Err(New(PatchingError, RsaFailure));
    }
    r := PatchOptional(data, rsa.value, usesEd25519, req, build, t);
  }

  /** `execute_patch` on the file contents held in `data`, with the fixed patterns. */
  method ExecutePatch(data: array<Byte>, obj: Section.Object, version: Option<Platform.Version>, u: Unknowns, req: Request, windows: bool)
    returns (r: Result<Report, WowPatcherError>)
    modifies data
    ensures Outcome(r, data[..]) == Execution(old(data[..]), obj, version, StandardTargets(u), req, windows)
  {
    r := Run(data, obj, version, StandardTargets(u), req, windows);
  }

  /** The run for any pattern table. */
  method Run(data: array<Byte>, obj: Section.Object, version: Option<Platform.Version>, t: Targets, req: Request, windows: bool)
    returns (r: Result<Report, WowPatcherError>)
    modifies data
    ensures Outcome(r, data[..]) == Execution(old(data[..]), obj, version, t, req, windows)
  {
    var sizeError := SizeCheck(data.Length);
    if sizeError.Some? {
      return Err(sizeError.value);
    }
    var clientType := Platform.DetectClientType(req.inputPath, windows);
    var usesEd25519 := Platform.UsesEd25519(clientType);
    var offsets := CollectOffsets(data, usesEd25519, t);
    var validation := Section.ValidatePatchOffsets(obj, offsets);
    Section.OffsetErrorsEmptyIff(obj, offsets);
    if validation.Err? {
      return Err(New(ValidationError, "Pattern validation failed:\n" + validation.error));
    }
    var build := BuildNumber(version);
    if req.dryRun {
      var report := DryRunProbes(data, usesEd25519, req, build, t);
      return Ok(report);
    }
    r := ApplyPatches(data, usesEd25519, req, build, t);
  }
}
