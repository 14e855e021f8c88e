# wow-patcher, modelled in Dafny

wow-patcher rewrites a World of Warcraft client executable so that it talks to
a TrinityCore private server. It works on the file as one byte buffer.

1. A size gate refuses files outside 1 KiB .. 1 GiB.
2. Every candidate byte pattern is located in the unpatched buffer: the portal
   host name, three RSA modulus variants, the Ed25519 key, three version URL
   variants and the CDNs URL.
3. Each located offset must lie in a patchable section of the PE or Mach-O
   image. One bad offset aborts the run before any byte is written.
4. A dry run probes each target on a fresh copy of the buffer and reports what
   it would do.
5. Otherwise the targets are patched in place, in order:
   - the portal (mandatory, overwritten with zeros);
   - the first RSA modulus variant found (mandatory);
   - the Ed25519 key (only for clients that use one);
   - the first version URL variant found;
   - the CDNs URL, skipped when the unified v3 URL was used.

   A running patch count is kept.

Around this engine sit the pattern scanner with its `-1` wildcard, the key
configuration with its entropy checks and hex/file loaders, the URL builders,
client-type detection from the path, the error value, and the builder-style
`Patcher` front end.

The project has one Dafny module per source file, plus three small helper
modules:

| file | module | models |
|---|---|---|
| wrappers.dfy | Wrappers | `Option` / `Result` |
| bytes.dfy | Bytes | bytes and the UTF-8 encoding of Rust strings |
| strings.dfy | Strings | decimal text, `join`, `contains`, ASCII lowercase, `str::replace` |
| errors.dfy | Errors | `src/errors/mod.rs` |
| binary.dfy | Binary | `src/binary/mod.rs` |
| section.dfy | Section | `src/binary/section.rs` |
| trinity.dfy | Trinity | `src/trinity/mod.rs` |
| keys.dfy | Keys | `src/keys/mod.rs` |
| patterns.dfy | Patterns | `src/patterns/mod.rs` |
| platform.dfy | Platform | the pure part of `src/platform/mod.rs` |
| execute.dfy | Execute | `execute_patch` in `src/cmd/execute.rs` |
| patcher.dfy | Patcher | `src/patcher.rs` |

**Imperative code.** Code that mutates is modelled as methods, each proved
equal to a specification function:

- `find_pattern` is a method with nested loops.
- `patch` is a method on an `array`.
- The PE and Mach-O section walks are loops.
- `validate_patch_offsets` accumulates its messages in a loop.
- `execute_patch` is a method that patches the array in place through
  per-target methods.

A run is specified by the function `Execute.Execution`, which returns the
result together with the buffer left behind. This is how the properties
"nothing is written before validation" and "a dry run never writes" are
stated.

**Pure code.** The patterns, keys, URLs, errors, platform helpers and the
builder are functions, with lemmas proved about them.

## Model

| member | source | states |
|---|---|---|
| Binary.StringToPattern | src/binary/mod.rs:5-7 | one pattern element per UTF-8 byte of the text, each equal to that byte and within 0..255 |
| Binary.StringPatternHasNoWildcard | src/binary/mod.rs:5-7 | a pattern built from text never contains the wildcard -1 |
| Binary.Empty | src/binary/mod.rs:13-17 | a vector of zeros exactly as long as the pattern, wildcards included |
| Binary.Find | src/binary/mod.rs:65-80 | `find_pattern`'s result (characterised by the lemmas below) |
| Binary.FindFromCorrect | src/binary/mod.rs:65-80 | the scan from position i returns the leftmost match at or after i, or None when no position from i on matches |
| Binary.FindIsLeftmostMatch | src/binary/mod.rs:65-80 | a found offset is a full match that fits in the data, and no earlier offset matches |
| Binary.FindNoneIff | src/binary/mod.rs:65-80 | nothing is found iff the pattern is empty or no offset matches (non-wildcard bytes equal, wildcards free) |
| Binary.FindsInjectedPattern | src/binary/mod.rs:65-80 | wherever the data agrees with every non-wildcard byte, a match is found at or before that place |
| Binary.FindPattern | src/binary/mod.rs:65-80 | the nested-loop scan returns exactly the leftmost match of `Find` |
| Binary.PatchOutcome | src/binary/mod.rs:35-63 | every failure of `patch` is a patching error without a cause |
| Binary.Overwrite | src/binary/mod.rs:54-55 | the write covers exactly the range from the position, and every other byte is kept |
| Binary.Patched | src/binary/mod.rs:35-63 | patching never changes the buffer length |
| Binary.PatchFailsIff | src/binary/mod.rs:35-63 | `patch` fails iff the data is empty, the pattern is longer than the data, the pattern is empty, or no offset matches; a failed patch leaves the data unchanged |
| Binary.PatchWritesAtLeftmostMatch | src/binary/mod.rs:50-56 | a successful patch writes the first min(|replace|, |find|) replacement bytes at the leftmost match and nothing else |
| Binary.EmptyReplacementIsNoOp | src/binary/mod.rs:54-55 | an empty replacement changes nothing |
| Binary.KeyLongerThanPatternIsCut | src/binary/mod.rs:54-55 | a 256-byte key over an 8-byte pattern puts only its first 8 bytes at the match; every byte after them is unchanged |
| Binary.Patch | src/binary/mod.rs:35-63 | the array is updated in place to the specified result, and the result is Ok iff the specification succeeds, with the same error |
| Section.TrimEndNul | src/binary/section.rs:28-30 | removes exactly the trailing NUL characters and keeps the rest as a prefix |
| Section.PeLookupFromHit | src/binary/section.rs:26-49 | a hit is the first section, from the start index on, whose raw range holds the offset |
| Section.PeLookupFromMiss | src/binary/section.rs:26-49 | the walk from an index finds nothing iff no later section's raw range holds the offset |
| Section.PeLookupIsFirstHit | src/binary/section.rs:26-49 | PE lookup: None iff no raw range holds the offset; otherwise the first such section's info, patchable iff its name is ".rdata" or ".data" |
| Section.PeLookup | src/binary/section.rs:26-49 | the PE answer (characterised by `PeLookupIsFirstHit`) |
| Section.CheckPeOffset | src/binary/section.rs:26-49 | the loop over the section table returns the specified lookup |
| Section.SectionScanIsFirstHit | src/binary/section.rs:67-91 | the section scan misses iff no section holds the offset; otherwise it answers as the first section that holds it: it gives up when that name does not decode, else it is a hit named "segment.section" carrying the section's addr, size and offset, patchable by the __DATA / __DATA_CONST / __TEXT.__const rule |
| Section.SegmentAnswerPatchable | src/binary/section.rs:65-100 | with no section holding the offset, or an unparsable section table, the answer is the bare segment: its name, vmaddr, vmsize and fileoff, patchable iff __DATA or __DATA_CONST; otherwise it is the first holding section (nothing if its name does not decode) with its own addr, size and offset; every answer follows the patchable-name rules |
| Section.MachLookupFromHit | src/binary/section.rs:60-102 | a Mach-O answer comes from the first segment whose file range holds the offset, and all earlier segments have decodable names |
| Section.MachLookupSound | src/binary/section.rs:52-113 | fat binaries give None; the first segment holding the offset answers with its segment answer, provided every earlier segment name decodes; an undecodable name before it, or no holding segment, gives None; every answer obeys the patchable rules |
| Section.MachLookup | src/binary/section.rs:52-113 | the Mach-O answer (characterised by `MachLookupSound`) |
| Section.CheckMachOffset | src/binary/section.rs:52-113 | the nested segment and section loops return the specified lookup |
| Section.OffsetSection | src/binary/section.rs:15-23 | the dispatch on the image kind (specification of `CheckOffsetSection`) |
| Section.CheckOffsetSection | src/binary/section.rs:15-23 | dispatches on the image kind to the PE or Mach-O lookup, and gives None for anything else |
| Section.OffsetErrors | src/binary/section.rs:116-141 | one complaint per offset outside a patchable section, in order (characterised by `OffsetErrorsExact`) |
| Section.OffsetErrorsEmptyIff | src/binary/section.rs:116-141 | there are no complaints iff every offset lies in a known patchable section |
| Section.OffsetErrorsExact | src/binary/section.rs:116-141 | exactly as many complaints as failing offsets; the complaint about the i-th failing offset comes after one for each earlier failing offset, and reads "unable to determine section" when the lookup finds nothing, or else names the non-patchable section |
| Section.ValidatePatchOffsets | src/binary/section.rs:116-141 | Ok iff every offset is in a patchable section; otherwise the complaints in order, joined by newlines |
| Errors.CategoryName | src/errors/mod.rs:13-22 | every category displays as non-empty text |
| Errors.CategoryNamesDistinct | src/errors/mod.rs:13-22 | two categories display the same iff they are the same |
| Errors.New | src/errors/mod.rs:33-40 | the given category and message, no cause, empty context |
| Errors.Wrap | src/errors/mod.rs:42-53 | the given category and message, the cause present, empty context |
| Errors.GetContext | src/errors/mod.rs:64-66 | Some exactly for present keys, with the stored value |
| Errors.WithContext | src/errors/mod.rs:55-62 | the key now reads back the value; every other key and the category, message and cause are unchanged |
| Errors.WithContextOverwrites | src/errors/mod.rs:55-62 | setting a key twice keeps only the second value |
| Errors.Display | src/errors/mod.rs:69-77 | "[category] message", followed by ": cause" exactly when a cause is present |
| Errors.NewFileError | src/errors/mod.rs:87-95 | a wrapped file-operation error carrying file_path and platform context |
| Errors.NewValidationError | src/errors/mod.rs:97-105 | a validation error without a cause, carrying field and value context |
| Errors.NewPatchingError | src/errors/mod.rs:107-118 | a wrapped patching error carrying the pattern and the fixed suggestion |
| Errors.NewPlatformError | src/errors/mod.rs:120-128 | a wrapped platform error carrying operation and platform context |
| Trinity.KeysHaveEntropy | src/trinity/mod.rs:1-23 | the built-in keys are 256 and 32 bytes long, and neither is all zeros or all one byte |
| Trinity.GetVersionUrl | src/trinity/mod.rs:26-43 | `get_version_url` (characterised by `VersionUrlCarriesBuild`) |
| Trinity.VersionUrlCarriesBuild | src/trinity/mod.rs:27-43 | the URL starts with the Arctium host, region and product (or "%s"), ends in "/versions", and its build component reads back as the build number, or is "latest" |
| Trinity.CreateUrlReplacement | src/trinity/mod.rs:52-64 | the result is exactly the target length: the URL bytes followed by NULs, or the URL cut to that length |
| Trinity.UrlReplacementRoundTrip | src/trinity/mod.rs:52-64 | a URL that fits comes back unchanged at its own length, and as the prefix of any longer replacement |
| Keys.Validate | src/keys/mod.rs:170-228 | every rejection is a validation error without a cause |
| Keys.NotAllEqualIffTwoDifferent | src/keys/mod.rs:190-197 | "not all bytes equal the first" means two positions hold different bytes |
| Keys.ValidateOkIff | src/keys/mod.rs:170-228 | validation passes iff both keys have the right length (256, 32) and each has two differing bytes |
| Keys.ValidateReportsFirstFailure | src/keys/mod.rs:170-228 | the six checks run in source order (RSA length, all zeros, all identical, then the same three for Ed25519), and the first failing one gives its exact message |
| Keys.TrinityCore | src/keys/mod.rs:23-28 | the built-in keys (proved valid by `TrinityCoreIsValid`) |
| Keys.IsTrinityCore | src/keys/mod.rs:231-233 | both keys equal the built-in ones |
| Keys.TrinityCoreIsValid | src/keys/mod.rs:23-28 | the TrinityCore keys validate and are recognised by `is_trinity_core` |
| Keys.Custom | src/keys/mod.rs:31-41 | `custom` (characterised by `CustomOkIff`) |
| Keys.CustomOkIff | src/keys/mod.rs:31-41 | `custom` succeeds iff both keys are well formed, and then holds exactly those keys |
| Keys.FilterHex | src/keys/mod.rs:101-104 | the cleaned string holds only hex digits and is no longer than the input |
| Keys.FilterHexKeepsHex | src/keys/mod.rs:101-104 | cleaning an all-hex string changes nothing |
| Keys.HexDecode | src/keys/mod.rs:116-122 | each byte is 16 times its first digit plus its second digit |
| Keys.HexRoundTrip | src/keys/mod.rs:116-122 | decoding the hex encoding of a byte string gives it back |
| Keys.WithRsaFromHex | src/keys/mod.rs:100-127 | `with_rsa_from_hex` (characterised by `WithRsaFromHexSpec`) |
| Keys.WithEd25519FromHex | src/keys/mod.rs:130-157 | `with_ed25519_from_hex` (characterised by `WithEd25519FromHexSpec`) |
| Keys.WithRsaFromHexSpec | src/keys/mod.rs:100-127 | non-hex characters are ignored, exactly 512 digits are needed, only the modulus is replaced, and the result must validate |
| Keys.WithEd25519FromHexSpec | src/keys/mod.rs:130-157 | as for RSA, with 64 digits, replacing only the Ed25519 key |
| Keys.HexLoadInstallsEncodedKey | src/keys/mod.rs:100-157 | loading the hex image of well-formed keys installs exactly those keys |
| Keys.WithRsaFromFile | src/keys/mod.rs:44-66 | `with_rsa_from_file` on the bytes read (characterised by `FileLoadersSpec`) |
| Keys.WithEd25519FromFile | src/keys/mod.rs:69-97 | `with_ed25519_from_file` on the bytes read (characterised by `FileLoadersSpec`) |
| Keys.FileLoadersSpec | src/keys/mod.rs:44-97 | contents of the wrong length give the exact "bytes" error; otherwise only that key is replaced, and the result is Ok iff it validates |
| Patterns.AsciiPattern | src/patterns/mod.rs:13-33 | the pattern of ASCII text has one element per character, equal to its code |
| Patterns.PortalShape | src/patterns/mod.rs:13-15 | the portal pattern is the 18 bytes of ".actual.battle.net", with no wildcard |
| Patterns.VersionUrlShape | src/patterns/mod.rs:26-29 | the version URL pattern is the 43 bytes of its text, with no wildcard |
| Patterns.CdnsUrlShape | src/patterns/mod.rs:31-33 | the CDNs URL pattern is the 39 bytes of its text, with no wildcard |
| Patterns.KeyPatternShapes | src/patterns/mod.rs:17-24 | both key patterns are 8 concrete bytes |
| Patterns.AuthSeedShape | src/patterns/mod.rs:35-42 | 11 elements, wildcards exactly at positions 5..8 |
| Patterns.PatternsDistinct | src/patterns/mod.rs:6-42 | the five patterns the patcher searches for are pairwise different |
| Platform.VersionString | src/platform/mod.rs:23-31 | `Version`'s display (its inverse is proved in `VersionStringRoundTrip`) |
| Platform.VersionStringRoundTrip | src/platform/mod.rs:23-31 | "major.minor.patch.build" parses back to the same version |
| Platform.UsesEd25519 | src/platform/mod.rs:42-47 | every client type except Classic Era |
| Platform.ClientTypeName | src/platform/mod.rs:50-59 | the four display names |
| Platform.ClientTypeFacts | src/platform/mod.rs:41-59 | the four display names are distinct, and only Classic Era goes without Ed25519 |
| Platform.FileName | src/platform/mod.rs:76-80 | `Path::file_name` of the path, as text |
| Platform.DetectClientType | src/platform/mod.rs:61-90 | `detect_client_type` (characterised by `DetectionPrecedence`) |
| Platform.ClassicMarkerInEraMarker | src/platform/mod.rs:65-73 | "_classic_era_" contains "_classic_", so the era test must come first |
| Platform.DetectionPrecedence | src/platform/mod.rs:61-90 | each result in terms of the markers: Retail iff "_retail_", or no classic marker and the file name wow.exe or "world of warcraft"; Classic Era iff "_classic_era_" without "_retail_"; Classic iff "_classic_" or a "wowclassic" file name without the two earlier markers; Unknown iff none of these |
| Platform.FileNameCommutesWithLower | src/platform/mod.rs:76-80 | taking the file name commutes with lowercasing |
| Platform.DetectionIgnoresCase | src/platform/mod.rs:61-90 | detection gives the same answer on the lowercased path |
| Platform.UpperCaseRetailPath | src/platform/mod.rs:61-90 | an upper-case Windows retail path is detected as Retail |
| Execute.SizeCheck | src/cmd/execute.rs:43-71 | no error iff 1024 <= size <= 1 GiB, and every refusal is a validation error |
| Execute.RsaStep | src/cmd/execute.rs:400-447 | ConnectTo iff found; Signature iff ConnectTo is missing and Signature is found; Crypto iff both are missing and Crypto is found; the chosen match gets the first min(key, pattern) key bytes with every other byte kept; with none found the buffer is unchanged |
| Execute.EdStep | src/cmd/execute.rs:461-486 | patched iff the client uses Ed25519 and the pattern is found; then the match gets the leading key bytes with every other byte kept, otherwise the buffer is unchanged |
| Execute.VersionStep | src/cmd/execute.rs:488-534 | v1 iff found; v2 iff v1 is missing and v2 is found; v3 iff both are missing and v3 is found; the chosen match is overwritten in full by the URL sized to it (the default or custom version URL over v1 and v2, the unified API or custom URL over v3), every other byte kept; with none found the buffer is unchanged |
| Execute.CdnsStep | src/cmd/execute.rs:565-585 | patched iff the version step did not use v3 and the pattern is found; then the whole match holds the sized CDNs URL with every other byte kept, otherwise the buffer is unchanged |
| Execute.UrlSteps | src/cmd/execute.rs:488-585 | the buffer keeps its length, and there is no CDNs patch after v3 |
| Execute.ApplyOptional | src/cmd/execute.rs:461-585 | the optional targets keep the buffer length |
| Execute.Apply | src/cmd/execute.rs:379-585 | the apply sequence keeps the buffer length (the bytes each target writes are stated by `RsaFallbackOrder`, `EdStep`, `VersionStep` and `CdnsStep`) |
| Execute.Execution | src/cmd/execute.rs:43-591 | a run keeps the buffer length |
| Execute.SizeGateComesFirst | src/cmd/execute.rs:43-71 | a size outside the bounds gives a validation error and leaves the buffer untouched |
| Execute.ValidationGatesEveryWrite | src/cmd/execute.rs:96-155 | one located pattern outside a patchable section gives "Pattern validation failed:" and no write, in dry-run and apply mode alike |
| Execute.WritesOnlyAfterValidation | src/cmd/execute.rs:96-155 | a changed buffer implies apply mode, an accepted size, and every located pattern in a patchable section |
| Execute.DryRunNeverWrites | src/cmd/execute.rs:157-378 | a dry run never changes the buffer, and succeeds with a dry-run report iff the size and section gates pass |
| Execute.PortalIsMandatory | src/cmd/execute.rs:385-398 | without the portal, the run fails with a wrapped patching error and the buffer unchanged |
| Execute.RsaFallbackOrder | src/cmd/execute.rs:386-447 | the portal match is overwritten with zeros and nothing else; then ConnectTo, Signature, Crypto are searched in that order after the portal patch, and the chosen match gets the leading key bytes; with none found, the exact RSA error |
| Execute.PatchCountMatchesTargets | src/cmd/execute.rs:379-585 | the count is 2 plus one per optional target patched, between 2 and 5; Ed25519 only where used; never the CDNs URL after v3 |
| Execute.Locate | src/cmd/execute.rs:99-136 | pushes the probe exactly when the pattern is found |
| Execute.CollectOffsets | src/cmd/execute.rs:96-136 | the probes are the located patterns, in source order and with their labels, Ed25519 only where used |
| Execute.ProbeOnCopy | src/cmd/execute.rs:186-194 | patching a fresh copy succeeds iff `patch` would succeed on the data |
| Execute.RsaProbe | src/cmd/execute.rs:196-244 | the dry-run RSA probe reports the variant the ConnectTo, Signature, Crypto fallback order picks on an unpatched copy of the data |
| Execute.VersionProbe | src/cmd/execute.rs:266-352 | the dry-run version probe reports the variant the v1, v2, v3 fallback order picks on an unpatched copy of the data |
| Execute.DryRunProbes | src/cmd/execute.rs:157-378 | the dry-run report is computed on copies |
| Execute.PatchRsa | src/cmd/execute.rs:400-447 | the in-place RSA step equals its specification |
| Execute.PatchEd | src/cmd/execute.rs:461-486 | the in-place Ed25519 step equals its specification |
| Execute.PatchVersionUrl | src/cmd/execute.rs:488-534 | the in-place version URL step equals its specification |
| Execute.PatchCdns | src/cmd/execute.rs:565-585 | the in-place CDNs URL step equals its specification |
| Execute.PatchUrls | src/cmd/execute.rs:488-585 | the two URL steps in sequence equal their specification |
| Execute.PatchOptional | src/cmd/execute.rs:461-585 | the optional steps with the running count equal their specification |
| Execute.ApplyPatches | src/cmd/execute.rs:379-585 | the in-place apply branch equals `Apply` |
| Execute.Run | src/cmd/execute.rs:43-591 | the whole run on the array, for any pattern table, equals `Execution` |
| Execute.ExecutePatch | src/cmd/execute.rs:17-591 | the run with the built-in patterns equals `Execution` |
| Execute.CollectProbes | src/cmd/execute.rs:96-136 | the located patterns with their labels, in the order checked; the Ed25519 key only for clients that use it (specification of `CollectOffsets`) |
| Execute.DryRunReport | src/cmd/execute.rs:157-378 | what a dry run reports, each target probed on the unpatched data (specification of `DryRunProbes`) |
| Binary.PatchOkIffFound | src/binary/mod.rs:35-80 | `patch` succeeds exactly when `find_pattern` finds the pattern |
| Binary.PatchWritesAtFound | src/binary/mod.rs:35-63 | where `find_pattern` finds the pattern, `patch` writes the first min(|replace|, |find|) replacement bytes there and keeps every other byte |
| Execute.SizedUrlWrite | src/cmd/execute.rs:492-496 | a URL replacement sized to the pattern overwrites the whole match with exactly that replacement and keeps the bytes around it |
| Execute.VersionFallbackOrder | src/cmd/execute.rs:487-531 | v1 if found; else v2 if found; else v3 if found; else nothing and the buffer unchanged; the chosen match is overwritten in full by the URL sized to it, the unified API or custom URL over v3 |
| Execute.CdnsSkippedExactlyAfterV3 | src/cmd/execute.rs:532-583 | the CDNs URL is patched iff the version step did not use v3 and the CDNs pattern is found in the buffer that step left; then its match holds the sized CDNs URL, otherwise that buffer is kept |
| Execute.KnownBuildUrlFits | src/cmd/execute.rs:488-495 | with a known 16-bit build the default version URL is at most 43 bytes and is written whole over the v1 pattern |
| Execute.LatestUrlIsCut | src/cmd/execute.rs:488-495 | without a build the default URL ".../latest/versions" is 44 bytes, one more than the v1 pattern, and its final byte is cut off |
| Execute.DefaultCdnsUrlFillsPattern | src/trinity/mod.rs:46-48 | the default CDNs URL fills the 39-byte CDNs pattern exactly |
| Strings.ReplaceAll | src/patcher.rs:421-422 | `str::replace`: every non-overlapping occurrence, left to right (properties in the three lemmas below) |
| Strings.ReplaceAppended | src/patcher.rs:421-422 | a pattern whose first character does not recur in it (like ".exe"), appended to the text, comes out as the replacement after the replaced text |
| Strings.ReplaceAbsent | src/patcher.rs:421-422 | replacing a pattern that does not occur changes nothing |
| Strings.ReplaceAllGrows | src/patcher.rs:421-422 | a replacement at least as long as the pattern never shortens the text |
| Patcher.New | src/patcher.rs:87-98 | the input is kept; output, keys and both URLs are unset; all three flags are off |
| Patcher.Output | src/patcher.rs:116-119 | sets the output and changes no other field |
| Patcher.TrinityCoreKeys | src/patcher.rs:137-140 | installs keys recognised as TrinityCore's and changes no other field |
| Patcher.VersionUrl | src/patcher.rs:292-295 | sets the version URL only |
| Patcher.CdnsUrl | src/patcher.rs:315-318 | sets the CDNs URL only |
| Patcher.DryRun | src/patcher.rs:338-341 | sets the dry-run flag only |
| Patcher.StripCodesign | src/patcher.rs:363-366 | sets the code-sign flag only |
| Patcher.Verbose | src/patcher.rs:386-389 | sets the verbose flag only |
| Patcher.CustomCdn | src/patcher.rs:267-272 | both URLs start with base + "/{region}/{product}" and end in "/versions" and "/cdns"; nothing else changes |
| Patcher.CustomKeys | src/patcher.rs:168-175 | succeeds iff both keys are well formed, then holds exactly them; otherwise a validation error |
| Patcher.CustomKeysFromHex | src/patcher.rs:203-210 | succeeds iff both cleaned hex strings have the right digit counts and decode to well-formed keys, then holds the decoded keys |
| Patcher.CustomKeysFromFiles | src/patcher.rs:235-245 | succeeds iff both file contents are well-formed keys, then holds exactly them |
| Patcher.DefaultOutputReplacingAll | src/patcher.rs:419-427 | as written: an ".exe" input has every ".exe" replaced (at least the last); any other input gets "-patched" appended |
| Patcher.DefaultOutput | src/patcher.rs:419-427 | corrected: an ".exe" input keeps everything before the extension and ends in "-patched.exe"; any other input gets "-patched" appended |
| Patcher.DefaultOutputIsNotInput | src/patcher.rs:419-427 | neither default output is ever the input path itself |
| Patcher.DefaultOutputsAgree | src/patcher.rs:419-427 | the two defaults agree unless ".exe" also occurs before the extension |
| Patcher.ReplacingAllRenamesDirectories | src/patcher.rs:421-422 | "a.exe/W.exe" gives "a-patched.exe/W-patched.exe", which is outside the input's directory; the corrected rule gives "a.exe/W-patched.exe" |
| Patcher.RunRequest | src/patcher.rs:417-443 | passes the input; an explicit output, or else the code's replace-all default (`DefaultOutputReplacingAll`), which is never the input; the keys or TrinityCore's; and the URLs and flags unchanged |
| Patcher.Patch | src/patcher.rs:417-443 | the run on the input's contents with those defaults |
| Patcher.LastSetterWins | src/patcher.rs:116-389 | setting a field twice keeps the last value |
| Patcher.BuilderChain | src/patcher.rs:539-556 | the documented chain sets every field it names, and both URLs contain the base |
| Patcher.ShortRsaKeyRefused | src/patcher.rs:488-496 | a 100-byte RSA key is refused by `custom_keys` and by the file loader |

## Left out

- I/O is not modelled: reading the input, writing the output, the metadata call, and the text of every `println!`. The facts the verbose and dry-run output report are modelled: which targets were found or patched, and the patch count (`Execute.Report`). A run takes the file contents as an array and returns the buffer that would be written.
- The output-directory check and the final write, both after the patches, are not modelled. A modelled success can still fail there with a file-operation error.
- Parsing the executable (`goblin`) is not modelled. The parsed image is an input: PE section tables, Mach-O segments and sections, or an unrecognised object.
- Section names decoded with `from_utf8_lossy` arrive as strings. Mach-O names that fail to decode are `None`.
- `start + size` in the section walks is unbounded here; a `usize` overflow is not modelled.
- `extract_version` and `extract_version_fallback` are not modelled; the extracted version is an input of the run.
- `remove_codesigning_signature`, `find_warcraft_client_executable`, the CLI (`cli.rs`, `cmd/root.rs`, `cmd/version.rs`) and `KeyConfig::display_info` are not part of this model.
- `signature_modulus_pattern`, `crypto_rsa_modulus_pattern`, `version_url_v2_pattern`, `version_url_v3_pattern` and `get_unified_api_url` are used by `execute_patch` but defined in no source file here. They are parameters (`Execute.Unknowns`).
- The auth-seed pattern is defined and proved about, but `execute_patch` never uses it.
- The output path, the code-sign flag and the verbose flag are carried in the request. They only affect the left-out writing and printing.
- Execute.SizeCheck: the oversize message gives both sizes in bytes, not in megabytes with two decimals, because floating-point formatting is not modelled. The bounds, the order of the three checks and the other two messages are exact.
- Keys.WithRsaFromHex and Keys.WithEd25519FromHex: the `hex::decode` error path is absent. It cannot be reached once the cleaned string holds only an even number of hex digits.
- Keys.WithRsaFromFile and Keys.WithEd25519FromFile: the file-read error is not modelled; these take the bytes read.
- Patcher.CustomKeysFromFiles: the file-read error is not modelled; it takes both files' contents.
- Lowercasing is ASCII-only. `to_lowercase` on other Unicode letters is not modelled.
- Platform.FileName: follows `Path::file_name` on a text path with '/' (and '\\' on Windows) separators. Windows drive prefixes and "." components are not treated specially.
- `patcher.rs` calls `KeyConfig::new`, `KeyConfig::from_hex` and `KeyConfig::from_files`, which `keys/mod.rs` does not define. They are modelled as follows:
  - `new` as `custom`;
  - `from_hex` as the TrinityCore keys followed by `with_rsa_from_hex`, then `with_ed25519_from_hex`;
  - `from_files` as the same chain with the file loaders.
- A dry run aborts on a pattern outside a patchable section too: `execute.rs` returns the validation error (139-155) before it reaches the dry-run branch (157). This is modelled (`Execute.ValidationGatesEveryWrite`).
- The portal is overwritten with as many zeros as its pattern is long, which is 18 bytes (`Binary.Empty`, `Patterns.PortalShape`).
- After validation, later targets are searched in the buffer as already patched. The offsets written can therefore differ from the validated ones, as in the code; this is modelled, not left out.

## Findings

| source | as written | input that shows it | evidently intended | confidence | as-written member | corrected member |
|---|---|---|---|---|---|---|
| src/patcher.rs:421-422 | the default output for an ".exe" input replaces every ".exe" in the whole path | input "a.exe/W.exe" gives "a-patched.exe/W-patched.exe", a file in a different directory | only the trailing extension is rewritten: "a.exe/W-patched.exe", beside the input | medium, not executed | Patcher.ReplacingAllRenamesDirectories | Patcher.DefaultOutput |

`Patcher.DefaultOutputReplacingAll` is the code as written. `Patcher.DefaultOutputsAgree` shows it matches the corrected rule whenever ".exe" occurs only as the extension. `Patcher.RunRequest`, and so `Patcher.Patch`, passes the default as written, so the run model behaves as the code does. `Patcher.DefaultOutput` is the corrected rule, with its properties proved beside it.
