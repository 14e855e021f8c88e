/** The builder front end: a `Patcher` record filled in by chained setters,
    the key loaders it delegates to, and the defaults `patch` applies before
    handing the record to the run. */
module Patcher {
  import opened Wrappers
  import opened Bytes
  import opened Strings
  import opened Errors
  import Keys
  import Section
  import Platform
  import Execute

  datatype Patcher = Patcher(
    input: string,
    output: Option<string>,
    keyConfig: Option<Keys.KeyConfig>,
    versionUrl: Option<string>,
    cdnsUrl: Option<string>,
    dryRun: bool,
    stripCodesign: bool,
    verbose: bool)

  /** `Patcher::new`: nothing chosen yet, every flag off. */
  function New(input: string): (p: Patcher)
    ensures p.input == input
    ensures p.output.None? && p.keyConfig.None? && p.versionUrl.None? && p.cdnsUrl.None?
    ensures !p.dryRun && !p.stripCodesign && !p.verbose
  {
    Patcher(input, None, None, None, None, false, false, false)
  }

  // ---- Setters: each sets one field and leaves the others alone ----

  function Output(p: Patcher, output: string): (r: Patcher)
    ensures r.output == Some(output) && r.(output := p.output) == p
  {
    p.(output := Some(output))
  }

  function TrinityCoreKeys(p: Patcher): (r: Patcher)
    ensures r.keyConfig.Some? && Keys.IsTrinityCore(r.keyConfig.value)
    ensures r.(keyConfig := p.keyConfig) == p
  {
    p.(keyConfig := Some(Keys.TrinityCore()))
  }

  function VersionUrl(p: Patcher, url: string): (r: Patcher)
    ensures r.versionUrl == Some(url) && r.(versionUrl := p.versionUrl) == p
  {
    p.(versionUrl := Some(url))
  }

  function CdnsUrl(p: Patcher, url: string): (r: Patcher)
    ensures r.cdnsUrl == Some(url) && r.(cdnsUrl := p.cdnsUrl) == p
  {
    p.(cdnsUrl := Some(url))
  }

  function DryRun(p: Patcher, enabled: bool): (r: Patcher)
    ensures r.dryRun == enabled && r.(dryRun := p.dryRun) == p
  {
    p.(dryRun := enabled)
  }

  function StripCodesign(p: Patcher, enabled: bool): (r: Patcher)
    ensures r.stripCodesign == enabled && r.(stripCodesign := p.stripCodesign) == p
  {
    p.(stripCodesign := enabled)
  }

  function Verbose(p: Patcher, enabled: bool): (r: Patcher)
    ensures r.verbose == enabled && r.(verbose := p.verbose) == p
  {
    p.(verbose := enabled)
  }

  const RegionProduct := "/{region}/{product}"

  /** `custom_cdn`: both URLs on the same base, with the placeholders the run
      leaves for the client to fill in. */
  function CustomCdn(p: Patcher, base: string): (r: Patcher)
    ensures r.versionUrl.Some? && StartsWith(r.versionUrl.value, base + RegionProduct)
    ensures r.cdnsUrl.Some? && StartsWith(r.cdnsUrl.value, base + RegionProduct)
    ensures EndsWith(r.versionUrl.value, "/versions") && EndsWith(r.cdnsUrl.value, "/cdns")
    ensures |r.versionUrl.value| == |base| + 28 && |r.cdnsUrl.value| == |base| + 24
    ensures r.(versionUrl := p.versionUrl, cdnsUrl := p.cdnsUrl) == p
  {
    var v := base + RegionProduct + "/versions";
    var c := base + RegionProduct + "/cdns";
    assert v[..|base + RegionProduct|] == base + RegionProduct;
    assert c[..|base + RegionProduct|] == base + RegionProduct;
    p.(versionUrl := Some(v), cdnsUrl := Some(c))
  }

  // ---- Key loaders ----

  /** `custom_keys`: the record takes the keys exactly when they validate. */
  function CustomKeys(p: Patcher, rsaModulus: seq<Byte>, ed25519PublicKey: seq<Byte>): (r: Result<Patcher, WowPatcherError>)
    ensures r.Ok? <==>
      Keys.WellFormedKey(rsaModulus, Keys.RsaLength) && Keys.WellFormedKey(ed25519PublicKey, Keys.Ed25519Length)
    ensures r.Ok? ==> r.value == p.(keyConfig := Some(Keys.KeyConfig(rsaModulus, ed25519PublicKey)))
    ensures r.Err? ==> r.error.category == ValidationError
  {
    Keys.CustomOkIff(rsaModulus, ed25519PublicKey);
    match Keys.Custom(rsaModulus, ed25519PublicKey)
    case Err(e) => Err(e)
    case Ok(c) => Ok(p.(keyConfig := Some(c)))
  }

  /** The TrinityCore Ed25519 key is well formed, so a loader that replaces
      only the RSA modulus is judged on the new modulus alone. */
  lemma TrinityCoreKeysWellFormed()
    ensures Keys.WellFormedKey(Keys.TrinityCore().rsaModulus, Keys.RsaLength)
    ensures Keys.WellFormedKey(Keys.TrinityCore().ed25519PublicKey, Keys.Ed25519Length)
  {
    Keys.TrinityCoreIsValid();
    Keys.ValidateOkIff(Keys.TrinityCore());
  }

  /** `custom_keys_from_hex`: the RSA modulus and then the Ed25519 key are
      loaded over the TrinityCore defaults. */
  function CustomKeysFromHex(p: Patcher, rsaHex: string, ed25519Hex: string): (r: Result<Patcher, WowPatcherError>)
    ensures r.Ok? <==>
      |Keys.FilterHex(rsaHex)| == 512 && |Keys.FilterHex(ed25519Hex)| == 64 &&
      Keys.WellFormedKey(Keys.HexDecode(Keys.FilterHex(rsaHex)), Keys.RsaLength) &&
      Keys.WellFormedKey(Keys.HexDecode(Keys.FilterHex(ed25519Hex)), Keys.Ed25519Length)
    ensures r.Ok? ==>
      r.value == p.(keyConfig := Some(Keys.KeyConfig(Keys.HexDecode(Keys.FilterHex(rsaHex)), Keys.HexDecode(Keys.FilterHex(ed25519Hex)))))
    ensures r.Err? ==> r.error.category == ValidationError
  {
    TrinityCoreKeysWellFormed();
    Keys.WithRsaFromHexSpec(Keys.TrinityCore(), rsaHex);
    match Keys.WithRsaFromHex(Keys.TrinityCore(), rsaHex)
    case Err(e) => Err(e)
    case Ok(c) =>
      Keys.WithEd25519FromHexSpec(c, ed25519Hex);
      match Keys.WithEd25519FromHex(c, ed25519Hex)
      case Err(e) => Err(e)
      case Ok(c') => Ok(p.(keyConfig := Some(c')))
  }

  /** `custom_keys_from_files`, on the contents of the two files. */
  function CustomKeysFromFiles(p: Patcher, rsaContents: seq<Byte>, ed25519Contents: seq<Byte>): (r: Result<Patcher, WowPatcherError>)
    ensures r.Ok? <==>
      Keys.WellFormedKey(rsaContents, Keys.RsaLength) && Keys.WellFormedKey(ed25519Contents, Keys.Ed25519Length)
    ensures r.Ok? ==> r.value == p.(keyConfig := Some(Keys.KeyConfig(rsaContents, ed25519Contents)))
    ensures r.Err? ==> r.error.category == ValidationError
  {
    TrinityCoreKeysWellFormed();
    Keys.FileLoadersSpec(Keys.TrinityCore(), rsaContents);
    match Keys.WithRsaFromFile(Keys.TrinityCore(), rsaContents)
    case Err(e) => Err(e)
    case Ok(c) =>
      Keys.FileLoadersSpec(c, ed25519Contents);
      match Keys.WithEd25519FromFile(c, ed25519Contents)
      case Err(e) => Err(e)
      case Ok(c') => Ok(p.(keyConfig := Some(c')))
  }

  // ---- Defaults applied by `patch` ----

  const Exe := ".exe"

  lemma ExeDoesNotOverlapItself()
    ensures forall k :: 0 < k < |Exe| ==> Exe[k] != Exe[0]
  {
  }

  /** The default output path as the code computes it: on an ".exe" input
      every occurrence of ".exe" in the path is rewritten. */
  function DefaultOutputReplacingAll(input: string): (r: string)
    ensures EndsWith(input, Exe) ==>
      r == ReplaceAll(input[..|input| - 4], Exe, "-patched.exe") + "-patched.exe"
    ensures !EndsWith(input, Exe) ==> StartsWith(r, input) && EndsWith(r, "-patched") && |r| == |input| + 8
    ensures |r| >= |input| + 8
  {
    if EndsWith(input, Exe) then
      ExeDoesNotOverlapItself();
      assert input == input[..|input| - 4] + Exe;
      ReplaceAppended(input[..|input| - 4], Exe, "-patched.exe");
      ReplaceAllGrows(input[..|input| - 4], Exe, "-patched.exe");
      ReplaceAll(input, Exe, "-patched.exe")
    else
      var r := input + "-patched";
      assert r[..|input|] == input;
      r
  }

  /** The default output path with only the trailing extension rewritten, so
      that the output stays beside the input. */
  function DefaultOutput(input: string): (r: string)
    ensures EndsWith(input, Exe) ==>
      StartsWith(r, input[..|input| - 4]) && EndsWith(r, "-patched.exe") && |r| == |input| + 8
    ensures !EndsWith(input, Exe) ==> StartsWith(r, input) && EndsWith(r, "-patched") && |r| == |input| + 8
  {
    if EndsWith(input, Exe) then
      var r := input[..|input| - 4] + "-patched.exe";
      assert r[..|input| - 4] == input[..|input| - 4];
      r
    else
      var r := input + "-patched";
      assert r[..|input|] == input;
      r
  }

  /** A default output is never the input itself, so a run without an
      explicit output never overwrites the client it reads. */
  lemma DefaultOutputIsNotInput(input: string)
    ensures DefaultOutput(input) != input
    ensures DefaultOutputReplacingAll(input) != input
  {
  }

  /** The two computations agree unless ".exe" also occurs before the
      extension. */
  lemma DefaultOutputsAgree(input: string)
    requires !(EndsWith(input, Exe) && Contains(input[..|input| - 4], Exe))
    ensures DefaultOutputReplacingAll(input) == DefaultOutput(input)
  {
    if EndsWith(input, Exe) {
      ReplaceAbsent(input[..|input| - 4], Exe, "-patched.exe");
    }
  }

  lemma ReplaceInDirectoryName()
    ensures ReplaceAll("a.exe/W", Exe, "-patched.exe") == "a-patched.exe/W"
  {
    var stem := "a.exe/W";
    assert stem[..4][0] != Exe[0];
    assert stem[1..][..4] == Exe;
    assert stem[1..][4..] == "/W";
    assert ReplaceAll("/W", Exe, "-patched.exe") == "/W";
    assert ReplaceAll(stem[1..], Exe, "-patched.exe") == "-patched.exe/W";
  }

  /** An ".exe" in a directory name moves the code's default output into a
      different directory. */
  lemma ReplacingAllRenamesDirectories()
    ensures DefaultOutputReplacingAll("a.exe/W.exe") == "a-patched.exe/W-patched.exe"
    ensures !StartsWith(DefaultOutputReplacingAll("a.exe/W.exe"), "a.exe/")
    ensures DefaultOutput("a.exe/W.exe") == "a.exe/W-patched.exe"
  {
    ReplacingAllExample();
    assert "a-patched.exe/W-patched.exe"[..6][1] != "a.exe/"[1];
    CorrectedExample();
  }

  lemma ReplacingAllExample()
    ensures DefaultOutputReplacingAll("a.exe/W.exe") == "a-patched.exe/W-patched.exe"
  {
    var input := "a.exe/W.exe";
    assert EndsWith(input, Exe);
    assert input[..7] == "a.exe/W";
    ReplaceInDirectoryName();
    assert DefaultOutputReplacingAll(input) == ReplaceAll("a.exe/W", Exe, "-patched.exe") + "-patched.exe";
    assert "a-patched.exe/W" + "-patched.exe" == "a-patched.exe/W-patched.exe";
  }

  lemma CorrectedExample()
    ensures DefaultOutput("a.exe/W.exe") == "a.exe/W-patched.exe"
  {
    var input := "a.exe/W.exe";
    assert EndsWith(input, Exe);
    assert input[..7] == "a.exe/W";
  }

  /** The run arguments `patch` passes on: the output defaults to the
      replace-all rule the code applies, the keys to TrinityCore's. */
  function RunRequest(p: Patcher): (r: Execute.Request)
    ensures r.inputPath == p.input
    ensures r.outputPath != p.input || p.output == Some(p.input)
    ensures p.output.Some? ==> r.outputPath == p.output.value
    ensures p.output.None? ==> r.outputPath == DefaultOutputReplacingAll(p.input)
    ensures p.keyConfig.None? ==> r.keyConfig == Keys.TrinityCore()
    ensures p.keyConfig.Some? ==> r.keyConfig == p.keyConfig.value
    ensures r.versionUrl == p.versionUrl && r.cdnsUrl == p.cdnsUrl
    ensures r.dryRun == p.dryRun && r.stripCodesign == p.stripCodesign && r.verbose == p.verbose
  {
    DefaultOutputIsNotInput(p.input);
    Execute.Request(p.input, p.output.GetOr(DefaultOutputReplacingAll(p.input)), p.keyConfig.GetOr(Keys.TrinityCore()),
                    p.versionUrl, p.cdnsUrl, p.dryRun, p.stripCodesign, p.verbose)
  }

  /** `patch`: the run on the input's contents `data`, with the defaults filled in. */
  method Patch(p: Patcher, data: array<Byte>, obj: Section.Object, version: Option<Platform.Version>, u: Execute.Unknowns, windows: bool)
    returns (r: Result<Execute.Report, WowPatcherError>)
    modifies data
    ensures Execute.Outcome(r, data[..]) ==
      Execute.Execution(old(data[..]), obj, version, Execute.StandardTargets(u), RunRequest(p), windows)
  {
    r := Execute.ExecutePatch(data, obj, version, u, RunRequest(p), windows);
  }

  // ---- Properties of the builder ----

  /** Setting the same field twice keeps the last value. */
  lemma LastSetterWins(p: Patcher, a: string, b: string, x: bool, y: bool)
    ensures Output(Output(p, a), b) == Output(p, b)
    ensures VersionUrl(VersionUrl(p, a), b) == VersionUrl(p, b)
    ensures CdnsUrl(CdnsUrl(p, a), b) == CdnsUrl(p, b)
    ensures DryRun(DryRun(p, x), y) == DryRun(p, y)
    ensures StripCodesign(StripCodesign(p, x), y) == StripCodesign(p, y)
    ensures Verbose(Verbose(p, x), y) == Verbose(p, y)
  {
  }

  /** The builder chain of the examples sets every field it names and keeps
      the input. */
  lemma BuilderChain(input: string, output: string, base: string)
    ensures var p := StripCodesign(DryRun(Verbose(CustomCdn(TrinityCoreKeys(Output(New(input), output)), base), true), true), true);
      && p.input == input
      && p.output == Some(output)
      && p.keyConfig.Some? && Keys.IsTrinityCore(p.keyConfig.value)
      && p.versionUrl.Some? && Contains(p.versionUrl.value, base)
      && p.cdnsUrl.Some? && Contains(p.cdnsUrl.value, base)
      && p.verbose && p.dryRun && p.stripCodesign
  {
    var p := StripCodesign(DryRun(Verbose(CustomCdn(TrinityCoreKeys(Output(New(input), output)), base), true), true), true);
    assert OccursAt(p.versionUrl.value, base, 0);
    assert OccursAt(p.cdnsUrl.value, base, 0);
  }

  /** A 100-byte RSA modulus is refused, whatever the Ed25519 key. */
  lemma ShortRsaKeyRefused(p: Patcher, rsaModulus: seq<Byte>, ed25519PublicKey: seq<Byte>)
    requires |rsaModulus| == 100
    ensures CustomKeys(p, rsaModulus, ed25519PublicKey).Err?
    ensures CustomKeysFromFiles(p, rsaModulus, ed25519PublicKey).Err?
  {
  }
}
