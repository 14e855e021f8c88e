/** Which section of a PE or Mach-O image holds a file offset, and whether
    bytes there can be patched on disk. The parsed image is an input: the
    header tables become sequences. */
module Section {
  import opened Wrappers
  import opened Strings

  datatype SectionInfo = SectionInfo(
    name: string,
    virtualAddress: nat,
    virtualSize: nat,
    fileOffset: nat,
    isPatchable: bool)

  /** A PE section header; `name` is the 8-byte name field already decoded. */
  datatype PeSection = PeSection(
    name: string,
    virtualAddress: nat,
    virtualSize: nat,
    pointerToRawData: nat,
    sizeOfRawData: nat)

  /** A Mach-O section; `name` is None when it does not decode. */
  datatype MachSection = MachSection(name: Option<string>, addr: nat, size: nat, offset: nat)

  /** A Mach-O segment; `sections` is None when its section table does not parse. */
  datatype MachSegment = MachSegment(
    name: Option<string>,
    vmaddr: nat,
    vmsize: nat,
    fileoff: nat,
    filesize: nat,
    sections: Option<seq<MachSection>>)

  datatype Mach = MachBinary(segments: seq<MachSegment>) | MachFat

  /** The result of parsing the image: PE, Mach-O, or anything else
      (another format, or data that does not parse). */
  datatype Object = Pe(peSections: seq<PeSection>) | MachO(mach: Mach) | Other

  /** A located pattern: its file offset and the name used in messages. */
  datatype Probe = Probe(offset: nat, name: string)

  predicate InRange(offset: nat, start: nat, size: nat) {
    start <= offset < start + size
  }

  /** `trim_end_matches('\0')`. */
  function TrimEndNul(s: string): (r: string)
    ensures |r| <= |s| && r == s[..|r|]
    ensures |r| == 0 || r[|r| - 1] != '\0'
    ensures forall i :: |r| <= i < |s| ==> s[i] == '\0'
  {
    if |s| > 0 && s[|s| - 1] == '\0' then TrimEndNul(s[..|s| - 1]) else s
  }

  predicate PePatchableName(name: string) {
    name == ".rdata" || name == ".data"
  }

  function PeInfo(s: PeSection): SectionInfo {
    var name := TrimEndNul(s.name);
    SectionInfo(name, s.virtualAddress, s.virtualSize, s.pointerToRawData, PePatchableName(name))
  }

  predicate PeHolds(s: PeSection, offset: nat) {
    InRange(offset, s.pointerToRawData, s.sizeOfRawData)
  }

  /** The first section, from index `k` on, whose raw data holds `offset`. */
  function PeLookupFrom(sections: seq<PeSection>, offset: nat, k: nat): Option<SectionInfo>
    decreases |sections| - k
  {
    if k >= |sections| then None
    else if PeHolds(sections[k], offset) then Some(PeInfo(sections[k]))
    else PeLookupFrom(sections, offset, k + 1)
  }

  function PeLookup(sections: seq<PeSection>, offset: nat): Option<SectionInfo> {
    PeLookupFrom(sections, offset, 0)
  }

  /** The index of the section a successful lookup from `k` answers with. */
  lemma {:induction false} PeLookupFromHit(sections: seq<PeSection>, offset: nat, k: nat) returns (m: nat)
    requires PeLookupFrom(sections, offset, k).Some?
    ensures k <= m < |sections| && PeHolds(sections[m], offset)
    ensures forall n :: k <= n < m ==> !PeHolds(sections[n], offset)
    ensures PeLookupFrom(sections, offset, k).value == PeInfo(sections[m])
    decreases |sections| - k
  {
    if PeHolds(sections[k], offset) {
      m := k;
    } else {
      m := PeLookupFromHit(sections, offset, k + 1);
    }
  }

  lemma {:induction false} PeLookupFromMiss(sections: seq<PeSection>, offset: nat, k: nat)
    ensures PeLookupFrom(sections, offset, k).None? <==>
      forall m :: k <= m < |sections| ==> !PeHolds(sections[m], offset)
    decreases |sections| - k
  {
    if k < |sections| && !PeHolds(sections[k], offset) {
      PeLookupFromMiss(sections, offset, k + 1);
    }
  }

  /** A PE lookup answers with the first section whose raw data holds the
      offset, and finds nothing only when no section holds it; the answer is
      patchable exactly when its trimmed name is `.rdata` or `.data`. */
  lemma PeLookupIsFirstHit(sections: seq<PeSection>, offset: nat)
    ensures PeLookup(sections, offset).None? <==>
      forall m :: 0 <= m < |sections| ==> !PeHolds(sections[m], offset)
    ensures PeLookup(sections, offset).Some? ==>
      exists m :: 0 <= m < |sections| && PeHolds(sections[m], offset) &&
        (forall n :: 0 <= n < m ==> !PeHolds(sections[n], offset)) &&
        PeLookup(sections, offset).value == PeInfo(sections[m])
    ensures PeLookup(sections, offset).Some? ==>
      var info := PeLookup(sections, offset).value;
      info.isPatchable <==> info.name == ".rdata" || info.name == ".data"
  {
    PeLookupFromMiss(sections, offset, 0);
    if PeLookup(sections, offset).Some? {
      var m := PeLookupFromHit(sections, offset, 0);
    }
  }

  /** `check_pe_offset`. */
  method CheckPeOffset(sections: seq<PeSection>, offset: nat) returns (r: Option<SectionInfo>)
    ensures r == PeLookup(sections, offset)
  {
    var k := 0;
    while k < |sections|
      invariant 0 <= k <= |sections|
      invariant PeLookup(sections, offset) == PeLookupFrom(sections, offset, k)
    {
      var s := sections[k];
      if s.pointerToRawData <= offset < s.pointerToRawData + s.sizeOfRawData {
        return Some(PeInfo(s));
      }
      k := k + 1;
    }
    return None;
  }

  /** Patchability of a Mach-O section: anything in `__DATA` or
      `__DATA_CONST`, and `__TEXT.__const`. */
  predicate MachSectionPatchable(segName: string, sectName: string) {
    segName == "__DATA" || segName == "__DATA_CONST" || (segName == "__TEXT" && sectName == "__const")
  }

  /** Patchability of a segment when no section of it holds the offset. */
  predicate MachSegmentPatchable(segName: string) {
    segName == "__DATA" || segName == "__DATA_CONST"
  }

  /** Outcome of scanning a segment's sections: a hit, a hit whose name does
      not decode (the whole lookup gives up), or no hit. */
  datatype Scan = Hit(info: SectionInfo) | Abort | Miss

  /** What a section holding the offset answers: the lookup gives up when its
      name does not decode, otherwise it is named "segment.section" and
      carries the section's own address, size and file offset. */
  function SectionHit(segName: string, s: MachSection): Scan {
    match s.name
    case None => Abort
    case Some(sectName) =>
      Hit(SectionInfo(segName + "." + sectName, s.addr, s.size, s.offset, MachSectionPatchable(segName, sectName)))
  }

  function SectionScanFrom(segName: string, sects: seq<MachSection>, offset: nat, k: nat): Scan
    decreases |sects| - k
  {
    if k >= |sects| then Miss
    else if InRange(offset, sects[k].offset, sects[k].size) then
      match sects[k].name
      case None => Abort
      case Some(sectName) =>
        Hit(SectionInfo(segName + "." + sectName, sects[k].addr, sects[k].size, sects[k].offset,
                        MachSectionPatchable(segName, sectName)))
    else SectionScanFrom(segName, sects, offset, k + 1)
  }

  function SegmentInfo(segName: string, seg: MachSegment): SectionInfo {
    SectionInfo(segName, seg.vmaddr, seg.vmsize, seg.fileoff, MachSegmentPatchable(segName))
  }

  /** What a segment holding the offset answers. */
  function SegmentAnswer(segName: string, seg: MachSegment, offset: nat): Option<SectionInfo> {
    var scan := if seg.sections.Some? then SectionScanFrom(segName, seg.sections.value, offset, 0) else Miss;
    match scan
    case Hit(info) => Some(info)
    case Abort => None
    case Miss => Some(SegmentInfo(segName, seg))
  }

  /** The segment walk from index `k`: a segment whose name does not decode
      ends the walk with nothing, the first segment holding the offset answers. */
  function MachLookupFrom(segs: seq<MachSegment>, offset: nat, k: nat): Option<SectionInfo>
    decreases |segs| - k
  {
    if k >= |segs| then None
    else match segs[k].name
      case None => None
      case Some(segName) =>
        if InRange(offset, segs[k].fileoff, segs[k].filesize) then SegmentAnswer(segName, segs[k], offset)
        else MachLookupFrom(segs, offset, k + 1)
  }

  function MachLookup(mach: Mach, offset: nat): Option<SectionInfo> {
    match mach
    case MachBinary(segs) => MachLookupFrom(segs, offset, 0)
    case MachFat => None
  }

  predicate SectionHolds(s: MachSection, offset: nat) {
    InRange(offset, s.offset, s.size)
  }

  /** The section scan from `k` misses exactly when no section from `k` on
      holds the offset, and otherwise answers as the first section that does. */
  lemma {:induction false} SectionScanIsFirstHit(segName: string, sects: seq<MachSection>, offset: nat, k: nat)
    ensures SectionScanFrom(segName, sects, offset, k).Miss? <==>
      forall m :: k <= m < |sects| ==> !SectionHolds(sects[m], offset)
    ensures forall m :: k <= m < |sects| && SectionHolds(sects[m], offset) &&
                        (forall n :: k <= n < m ==> !SectionHolds(sects[n], offset)) ==>
      SectionScanFrom(segName, sects, offset, k) == SectionHit(segName, sects[m])
    decreases |sects| - k
  {
    if k < |sects| && !SectionHolds(sects[k], offset) {
      SectionScanIsFirstHit(segName, sects, offset, k + 1);
    }
    forall m | k <= m < |sects| && SectionHolds(sects[m], offset) &&
               (forall n :: k <= n < m ==> !SectionHolds(sects[n], offset))
      ensures SectionScanFrom(segName, sects, offset, k) == SectionHit(segName, sects[m])
    {
      SectionScanSkips(segName, sects, offset, k, m);
    }
  }

  /** The scan passes over sections that do not hold the offset. */
  lemma {:induction false} SectionScanSkips(segName: string, sects: seq<MachSection>, offset: nat, k: nat, m: nat)
    requires k <= m <= |sects|
    requires forall n :: k <= n < m ==> !SectionHolds(sects[n], offset)
    ensures SectionScanFrom(segName, sects, offset, k) == SectionScanFrom(segName, sects, offset, m)
    decreases m - k
  {
    if k < m {
      SectionScanSkips(segName, sects, offset, k + 1, m);
    }
  }

  /** How an answer relates to the segment it came from. */
  predicate PatchableAnswer(segName: string, info: SectionInfo) {
    && (info.isPatchable ==> MachSegmentPatchable(segName) || (segName == "__TEXT" && info.name == "__TEXT.__const"))
    && (MachSegmentPatchable(segName) ==> info.isPatchable)
  }

  /** The section a scan that does not miss answers with. */
  lemma {:induction false} SectionScanHitAt(segName: string, sects: seq<MachSection>, offset: nat, k: nat) returns (m: nat)
    requires !SectionScanFrom(segName, sects, offset, k).Miss?
    ensures k <= m < |sects| && SectionScanFrom(segName, sects, offset, k) == SectionHit(segName, sects[m])
    decreases |sects| - k
  {
    if SectionHolds(sects[k], offset) {
      m := k;
    } else {
      m := SectionScanHitAt(segName, sects, offset, k + 1);
    }
  }

  /** The segment answers with its first section holding the offset. */
  lemma SegmentSectionAnswer(segName: string, seg: MachSegment, offset: nat, m: nat)
    requires seg.sections.Some? && m < |seg.sections.value|
    requires SectionHolds(seg.sections.value[m], offset)
    requires forall n :: 0 <= n < m ==> !SectionHolds(seg.sections.value[n], offset)
    ensures var s := seg.sections.value[m];
      SegmentAnswer(segName, seg, offset) ==
        if s.name.None? then None
        else Some(SectionInfo(segName + "." + s.name.value, s.addr, s.size, s.offset, MachSectionPatchable(segName, s.name.value)))
  {
    SectionScanIsFirstHit(segName, seg.sections.value, offset, 0);
  }

  /** A segment holding the offset answers with its first section holding the
      offset (nothing when that section's name does not decode); when no
      section holds it, or the section table does not parse, with the bare
      segment: its name, vmaddr, vmsize and fileoff, patchable only in
      `__DATA` and `__DATA_CONST`. */
  lemma SegmentAnswerPatchable(segName: string, seg: MachSegment, offset: nat)
    ensures (seg.sections.None? ||
             forall m :: 0 <= m < |seg.sections.value| ==> !SectionHolds(seg.sections.value[m], offset)) ==>
      SegmentAnswer(segName, seg, offset) ==
        Some(SectionInfo(segName, seg.vmaddr, seg.vmsize, seg.fileoff, segName == "__DATA" || segName == "__DATA_CONST"))
    ensures seg.sections.Some? ==>
      var sects := seg.sections.value;
      forall m :: 0 <= m < |sects| && SectionHolds(sects[m], offset) &&
                  (forall n :: 0 <= n < m ==> !SectionHolds(sects[n], offset)) ==>
        SegmentAnswer(segName, seg, offset) ==
          if sects[m].name.None? then None
          else Some(SectionInfo(segName + "." + sects[m].name.value, sects[m].addr, sects[m].size, sects[m].offset,
                                MachSectionPatchable(segName, sects[m].name.value)))
    ensures SegmentAnswer(segName, seg, offset).Some? ==> PatchableAnswer(segName, SegmentAnswer(segName, seg, offset).value)
  {
    SegmentAnswerFollowsRule(segName, seg, offset);
    if seg.sections.Some? {
      var sects := seg.sections.value;
      SectionScanIsFirstHit(segName, sects, offset, 0);
      forall m | 0 <= m < |sects| && SectionHolds(sects[m], offset) &&
                 (forall n :: 0 <= n < m ==> !SectionHolds(sects[n], offset))
        ensures SegmentAnswer(segName, seg, offset) ==
          if sects[m].name.None? then None
          else Some(SectionInfo(segName + "." + sects[m].name.value, sects[m].addr, sects[m].size, sects[m].offset,
                                MachSectionPatchable(segName, sects[m].name.value)))
      {
        SegmentSectionAnswer(segName, seg, offset, m);
      }
    }
  }

  /** Any answer of a segment follows the patchable-name rules. */
  lemma SegmentAnswerFollowsRule(segName: string, seg: MachSegment, offset: nat)
    ensures SegmentAnswer(segName, seg, offset).Some? ==> PatchableAnswer(segName, SegmentAnswer(segName, seg, offset).value)
  {
    if seg.sections.Some? && !SectionScanFrom(segName, seg.sections.value, offset, 0).Miss? {
      var m := SectionScanHitAt(segName, seg.sections.value, offset, 0);
    }
  }

  /** The index of the segment a successful walk from `k` answers from. */
  lemma {:induction false} MachLookupFromHit(segs: seq<MachSegment>, offset: nat, k: nat) returns (m: nat)
    requires MachLookupFrom(segs, offset, k).Some?
    ensures k <= m < |segs| && segs[m].name.Some? && SegmentHolds(segs[m], offset)
    ensures forall n :: k <= n < m ==> segs[n].name.Some? && !SegmentHolds(segs[n], offset)
    ensures MachLookupFrom(segs, offset, k) == SegmentAnswer(segs[m].name.value, segs[m], offset)
    decreases |segs| - k
  {
    if InRange(offset, segs[k].fileoff, segs[k].filesize) {
      m := k;
    } else {
      m := MachLookupFromHit(segs, offset, k + 1);
    }
  }

  predicate SegmentHolds(seg: MachSegment, offset: nat) {
    InRange(offset, seg.fileoff, seg.filesize)
  }

  /** The walk passes over named segments that do not hold the offset. */
  lemma {:induction false} MachLookupSkips(segs: seq<MachSegment>, offset: nat, k: nat, m: nat)
    requires k <= m <= |segs|
    requires forall n :: k <= n < m ==> segs[n].name.Some? && !SegmentHolds(segs[n], offset)
    ensures MachLookupFrom(segs, offset, k) == MachLookupFrom(segs, offset, m)
    decreases m - k
  {
    if k < m {
      MachLookupSkips(segs, offset, k + 1, m);
    }
  }

  /** A Mach-O lookup walks the segments in order. The first segment that
      holds the offset answers, as `SegmentAnswerPatchable` describes: with
      its first section holding the offset, or else with the bare segment.
      A segment name that does not decode before that segment, or no
      segment holding the offset, gives nothing, as does a fat binary. Any
      answer in `__DATA` or `__DATA_CONST` is patchable, and in any other
      segment only `__TEXT.__const` is. */
  lemma MachLookupSound(mach: Mach, offset: nat)
    ensures mach.MachFat? ==> MachLookup(mach, offset).None?
    ensures mach.MachBinary? ==>
      var segs := mach.segments;
      forall m :: 0 <= m < |segs| && segs[m].name.Some? && SegmentHolds(segs[m], offset) &&
                  (forall n :: 0 <= n < m ==> segs[n].name.Some? && !SegmentHolds(segs[n], offset)) ==>
        MachLookup(mach, offset) == SegmentAnswer(segs[m].name.value, segs[m], offset)
    ensures mach.MachBinary? ==>
      var segs := mach.segments;
      forall m :: 0 <= m < |segs| && segs[m].name.None? &&
                  (forall n :: 0 <= n < m ==> segs[n].name.Some? && !SegmentHolds(segs[n], offset)) ==>
        MachLookup(mach, offset).None?
    ensures (mach.MachBinary? &&
             forall n :: 0 <= n < |mach.segments| ==> mach.segments[n].name.Some? && !SegmentHolds(mach.segments[n], offset)) ==>
      MachLookup(mach, offset).None?
    ensures MachLookup(mach, offset).Some? ==>
      var segs := mach.segments;
      exists m :: 0 <= m < |segs| && segs[m].name.Some? && SegmentHolds(segs[m], offset) &&
        (forall n :: 0 <= n < m ==> segs[n].name.Some? && !SegmentHolds(segs[n], offset)) &&
        MachLookup(mach, offset) == SegmentAnswer(segs[m].name.value, segs[m], offset) &&
        PatchableAnswer(segs[m].name.value, MachLookup(mach, offset).value)
  {
    if mach.MachBinary? {
      var segs := mach.segments;
      forall m | 0 <= m < |segs| && segs[m].name.Some? && SegmentHolds(segs[m], offset) &&
                 (forall n :: 0 <= n < m ==> segs[n].name.Some? && !SegmentHolds(segs[n], offset))
        ensures MachLookup(mach, offset) == SegmentAnswer(segs[m].name.value, segs[m], offset)
      {
        MachLookupSkips(segs, offset, 0, m);
      }
      forall m | 0 <= m < |segs| && segs[m].name.None? &&
                 (forall n :: 0 <= n < m ==> segs[n].name.Some? && !SegmentHolds(segs[n], offset))
        ensures MachLookup(mach, offset).None?
      {
        MachLookupSkips(segs, offset, 0, m);
      }
      if forall n :: 0 <= n < |segs| ==> segs[n].name.Some? && !SegmentHolds(segs[n], offset) {
        MachLookupSkips(segs, offset, 0, |segs|);
      }
      if MachLookup(mach, offset).Some? {
        var m := MachLookupFromHit(segs, offset, 0);
        SegmentAnswerPatchable(segs[m].name.value, segs[m], offset);
      }
    }
  }

  /** `check_macho_offset`: the segment loop with the section loop inside. */
  method CheckMachOffset(mach: Mach, offset: nat) returns (r: Option<SectionInfo>)
    ensures r == MachLookup(mach, offset)
  {
    if mach.MachFat? {
      return None;
    }
    var segs := mach.segments;
    var k := 0;
    while k < |segs|
      invariant 0 <= k <= |segs|
      invariant MachLookup(mach, offset) == MachLookupFrom(segs, offset, k)
    {
      var seg := segs[k];
      if seg.name.None? {
        return None;
      }
      var segName := seg.name.value;
      if seg.fileoff <= offset < seg.fileoff + seg.filesize {
        if seg.sections.Some? {
          var sects := seg.sections.value;
          var j := 0;
          while j < |sects|
            invariant 0 <= j <= |sects|
            invariant SectionScanFrom(segName, sects, offset, 0) == SectionScanFrom(segName, sects, offset, j)
          {
            var sect := sects[j];
            if sect.offset <= offset < sect.offset + sect.size {
              if sect.name.None? {
                return None;
              }
              var sectName := sect.name.value;
              return Some(SectionInfo(segName + "." + sectName, sect.addr, sect.size, sect.offset,
                                      segName == "__DATA" || segName == "__DATA_CONST" ||
                                      (segName == "__TEXT" && sectName == "__const")));
            }
            j := j + 1;
          }
        }
        return Some(SectionInfo(segName, seg.vmaddr, seg.vmsize, seg.fileoff,
                                segName == "__DATA" || segName == "__DATA_CONST"));
      }
      k := k + 1;
    }
    return None;
  }

  /** `check_offset_section`: only PE and single-architecture Mach-O answer. */
  function OffsetSection(obj: Object, offset: nat): Option<SectionInfo> {
    match obj
    case Pe(sections) => PeLookup(sections, offset)
    case MachO(mach) => MachLookup(mach, offset)
    case Other => None
  }

  method CheckOffsetSection(obj: Object, offset: nat) returns (r: Option<SectionInfo>)
    ensures r == OffsetSection(obj, offset)
  {
    match obj {
      case Pe(sections) => r := CheckPeOffset(sections, offset);
      case MachO(mach) => r := CheckMachOffset(mach, offset);
      case Other => r := None;
    }
  }

  function NonPatchableMessage(p: Probe, sectionName: string): string {
    "Pattern '" + p.name + "' found at offset 0x" + HexString(p.offset) + " in non-patchable section '"
      + sectionName + "'. Binary patching only works reliably in .rdata or .data sections."
  }

  function UnknownSectionMessage(p: Probe): string {
    "Pattern '" + p.name + "' at offset 0x" + HexString(p.offset) + " - unable to determine section"
  }

  /** The complaint about one probe, if any. */
  function ProbeError(obj: Object, p: Probe): Option<string> {
    match OffsetSection(obj, p.offset)
    case None => Some(UnknownSectionMessage(p))
    case Some(info) => if info.isPatchable then None else Some(NonPatchableMessage(p, info.name))
  }

  predicate ProbeOk(obj: Object, p: Probe) {
    OffsetSection(obj, p.offset).Some? && OffsetSection(obj, p.offset).value.isPatchable
  }

  /** The complaints about `probes`, in order. */
  function OffsetErrors(obj: Object, probes: seq<Probe>): seq<string>
    decreases |probes|
  {
    if probes == [] then []
    else
      var rest := OffsetErrors(obj, probes[..|probes| - 1]);
      match ProbeError(obj, probes[|probes| - 1])
      case None => rest
      case Some(msg) => rest + [msg]
  }

  /** There is no complaint exactly when every probe lies in a patchable
      section, and never more complaints than probes. */
  lemma {:induction false} OffsetErrorsEmptyIff(obj: Object, probes: seq<Probe>)
    ensures OffsetErrors(obj, probes) == [] <==> forall i :: 0 <= i < |probes| ==> ProbeOk(obj, probes[i])
    ensures |OffsetErrors(obj, probes)| <= |probes|
    decreases |probes|
  {
    if probes != [] {
      var init := probes[..|probes| - 1];
      OffsetErrorsEmptyIff(obj, init);
      assert forall i :: 0 <= i < |init| ==> init[i] == probes[i];
    }
  }

  /** The indices below `i` of the probes that are not in a patchable section. */
  function Failing(obj: Object, probes: seq<Probe>, i: nat): set<nat>
    requires i <= |probes|
  {
    set n: nat | n < i && !ProbeOk(obj, probes[n])
  }

  lemma FailingStep(obj: Object, probes: seq<Probe>, i: nat)
    requires i < |probes|
    ensures |Failing(obj, probes, i + 1)| == |Failing(obj, probes, i)| + (if ProbeOk(obj, probes[i]) then 0 else 1)
  {
    if ProbeOk(obj, probes[i]) {
      assert Failing(obj, probes, i + 1) == Failing(obj, probes, i);
    } else {
      assert Failing(obj, probes, i + 1) == Failing(obj, probes, i) + {i};
    }
  }

  lemma FailingOfPrefix(obj: Object, probes: seq<Probe>, init: seq<Probe>, i: nat)
    requires |init| <= |probes| && init == probes[..|init|] && i <= |init|
    ensures Failing(obj, probes, i) == Failing(obj, init, i)
  {
    assert forall n :: 0 <= n < i ==> init[n] == probes[n];
  }

  /** Appending a probe appends its complaint, if it has one. */
  lemma OffsetErrorsSnoc(obj: Object, probes: seq<Probe>)
    requires probes != []
    ensures var last := probes[|probes| - 1];
      && (ProbeError(obj, last).None? <==> ProbeOk(obj, last))
      && OffsetErrors(obj, probes) ==
           OffsetErrors(obj, probes[..|probes| - 1]) + (if ProbeOk(obj, last) then [] else [ProbeError(obj, last).value])
  {
  }

  /** The complaint about the i-th failing probe is the complaint numbered by
      the failing probes before it. */
  lemma {:induction false} OffsetErrorsInOrder(obj: Object, probes: seq<Probe>)
    ensures |OffsetErrors(obj, probes)| == |Failing(obj, probes, |probes|)|
    ensures forall i :: 0 <= i < |probes| && !ProbeOk(obj, probes[i]) ==>
      |Failing(obj, probes, i)| < |OffsetErrors(obj, probes)| &&
      ProbeError(obj, probes[i]) == Some(OffsetErrors(obj, probes)[|Failing(obj, probes, i)|])
    decreases |probes|
  {
    if probes != [] {
      var k := |probes| - 1;
      var init := probes[..k];
      OffsetErrorsInOrder(obj, init);
      OffsetErrorsSnoc(obj, probes);
      FailingStep(obj, probes, k);
      FailingOfPrefix(obj, probes, init, k);
      forall i | 0 <= i < |probes| && !ProbeOk(obj, probes[i])
        ensures |Failing(obj, probes, i)| < |OffsetErrors(obj, probes)|
        ensures ProbeError(obj, probes[i]) == Some(OffsetErrors(obj, probes)[|Failing(obj, probes, i)|])
      {
        if i < k {
          FailingOfPrefix(obj, probes, init, i);
          assert probes[i] == init[i];
        }
      }
    }
  }

  /** Exactly one complaint per probe outside a patchable section, in probe
      order: the complaint about the i-th probe sits after one complaint for
      each earlier failing probe, and says that its section is unknown when
      the lookup finds none, or else names the non-patchable section. */
  lemma OffsetErrorsExact(obj: Object, probes: seq<Probe>)
    ensures |OffsetErrors(obj, probes)| == |Failing(obj, probes, |probes|)|
    ensures forall i :: 0 <= i < |probes| && !ProbeOk(obj, probes[i]) ==>
      var j := |Failing(obj, probes, i)|;
      j < |OffsetErrors(obj, probes)| &&
      OffsetErrors(obj, probes)[j] ==
        if OffsetSection(obj, probes[i].offset).None? then UnknownSectionMessage(probes[i])
        else NonPatchableMessage(probes[i], OffsetSection(obj, probes[i].offset).value.name)
  {
    OffsetErrorsInOrder(obj, probes);
  }

  /** `validate_patch_offsets`: every complaint, joined by newlines, or success. */
  method ValidatePatchOffsets(obj: Object, probes: seq<Probe>) returns (r: Result<(), string>)
    ensures r.Ok? <==> forall i :: 0 <= i < |probes| ==> ProbeOk(obj, probes[i])
    ensures r.Err? ==> r.error == Join(OffsetErrors(obj, probes), "\n")
  {
    var errors: seq<string> := [];
    var i := 0;
    while i < |probes|
      invariant 0 <= i <= |probes|
      invariant errors == OffsetErrors(obj, probes[..i])
    {
      var p := probes[i];
      var section := CheckOffsetSection(obj, p.offset);
      if section.Some? {
        if !section.value.isPatchable {
          errors := errors + [NonPatchableMessage(p, section.value.name)];
        }
      } else {
        errors := errors + [UnknownSectionMessage(p)];
      }
      assert probes[..i + 1][..i] == probes[..i];
      i := i + 1;
    }
    assert probes[..i] == probes;
    OffsetErrorsEmptyIff(obj, probes);
    if errors == [] {
      return Ok(());
    }
    return Err(Join(errors, "\n"));
  }
}
