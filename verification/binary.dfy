/** Wildcard byte patterns, the leftmost naive search, and the in-place
    overwrite of the first match. */
module Binary {
  import opened Wrappers
  import opened Bytes
  import opened Errors

  /** A pattern element is a 16-bit signed value; -1 matches any byte. */
  type I16 = x: int | -0x8000 <= x < 0x8000
  type Pattern = seq<I16>

  const Wildcard: I16 := -1

  /** One element per byte of the string's UTF-8 image, each equal to that byte. */
  function StringToPattern(s: string): (p: Pattern)
    ensures |p| == |Utf8(s)|
    ensures forall i :: 0 <= i < |p| ==> p[i] == Utf8(s)[i] && 0 <= p[i] < 256
  {
    var b := Utf8(s);
    seq(|b|, i requires 0 <= i < |b| => b[i])
  }

  /** A pattern built from text never contains the wildcard. */
  lemma StringPatternHasNoWildcard(s: string)
    ensures Wildcard !in StringToPattern(s)
  {
  }

  /** `pattern.empty()`: as many zero bytes as the pattern has elements. */
  function Empty(p: Pattern): (z: seq<Byte>)
    ensures |z| == |p|
    ensures forall i :: 0 <= i < |z| ==> z[i] == 0
  {
    seq(|p|, _ => 0)
  }

  /** `p` matches `data` at `i`: it fits, and every non-wildcard element
      equals the byte under it. A byte is compared as a 16-bit value, so an
      element outside 0..255 other than -1 matches nothing. */
  predicate MatchesAt(data: seq<Byte>, p: Pattern, i: nat) {
    i + |p| <= |data| && forall j :: 0 <= j < |p| ==> p[j] == Wildcard || data[i + j] == p[j]
  }

  /** The leftmost match at or after `i`. */
  function FindFrom(data: seq<Byte>, p: Pattern, i: nat): Option<nat>
    decreases |data| - i
  {
    if i + |p| > |data| then None
    else if MatchesAt(data, p, i) then Some(i)
    else FindFrom(data, p, i + 1)
  }

  /** The specification of `find_pattern`: none for an empty pattern or one
      longer than the data, otherwise the leftmost match. */
  function Find(data: seq<Byte>, p: Pattern): Option<nat> {
    if |p| == 0 || |data| < |p| then None else FindFrom(data, p, 0)
  }

  lemma {:induction false} FindFromCorrect(data: seq<Byte>, p: Pattern, i: nat)
    ensures FindFrom(data, p, i).Some? ==>
      var k := FindFrom(data, p, i).value;
      i <= k && MatchesAt(data, p, k) && forall m :: i <= m < k ==> !MatchesAt(data, p, m)
    ensures FindFrom(data, p, i).None? ==> forall m :: i <= m ==> !MatchesAt(data, p, m)
    decreases |data| - i
  {
    if i + |p| <= |data| && !MatchesAt(data, p, i) {
      FindFromCorrect(data, p, i + 1);
    }
  }

  /** A found index is a match that fits in the data, and no smaller index matches. */
  lemma FindIsLeftmostMatch(data: seq<Byte>, p: Pattern)
    ensures Find(data, p).Some? ==>
      var k := Find(data, p).value;
      |p| > 0 && k + |p| <= |data| && MatchesAt(data, p, k) &&
      forall m :: 0 <= m < k ==> !MatchesAt(data, p, m)
  {
    if |p| > 0 && |data| >= |p| {
      FindFromCorrect(data, p, 0);
    }
  }

  /** Nothing is found exactly when the pattern is empty or matches nowhere. */
  lemma FindNoneIff(data: seq<Byte>, p: Pattern)
    ensures Find(data, p).None? <==> |p| == 0 || forall m :: 0 <= m <= |data| ==> !MatchesAt(data, p, m)
  {
    FindIsLeftmostMatch(data, p);
    if |p| > 0 && |data| >= |p| {
      FindFromCorrect(data, p, 0);
    }
  }

  /** Wildcard positions accept any byte: a pattern placed at `k` with arbitrary
      bytes under its wildcards is found, at `k` or further left. */
  lemma FindsInjectedPattern(data: seq<Byte>, p: Pattern, k: nat)
    requires |p| > 0 && k + |p| <= |data|
    requires forall j :: 0 <= j < |p| && p[j] != Wildcard ==> data[k + j] == p[j]
    ensures Find(data, p).Some? && Find(data, p).value <= k
  {
    assert MatchesAt(data, p, k);
    FindNoneIff(data, p);
    FindIsLeftmostMatch(data, p);
  }

  /** `find_pattern`: the nested index scan of the source, with the labelled
      `continue` as a `break` out of the inner loop. */
  method FindPattern(data: seq<Byte>, p: Pattern) returns (r: Option<nat>)
    ensures r == Find(data, p)
  {
    if |p| == 0 || |data| < |p| {
      return None;
    }
    var i := 0;
    while i <= |data| - |p|
      invariant 0 <= i <= |data| - |p| + 1
      invariant Find(data, p) == FindFrom(data, p, i)
    {
      var j := 0;
      var matched := true;
      while j < |p|
        invariant 0 <= j <= |p|
        invariant matched <==> forall m :: 0 <= m < j ==> p[m] == Wildcard || data[i + m] == p[m]
      {
        if p[j] != Wildcard && data[i + j] != p[j] {
          matched := false;
          break;
        }
        j := j + 1;
      }
      if matched {
        return Some(i);
      }
      i := i + 1;
    }
    return None;
  }

  /** Where `patch` writes, or why it fails. */
  function PatchOutcome(data: seq<Byte>, find: Pattern): (r: Result<nat, WowPatcherError>)
    ensures r.Err? ==> r.error.category == PatchingError && r.error.cause.None?
  {
    if |data| == 0 then Err(New(PatchingError, "cannot patch empty data"))
    else if |find| > |data| then Err(New(PatchingError, "pattern longer than data"))
    else match Find(data, find)
      case Some(pos) => Ok(pos)
      case None => Err(New(PatchingError, "pattern not found in data"))
  }

  function Min(a: nat, b: nat): nat { if a < b then a else b }

  /** `data` with `w` written over it from `pos` on. */
  function Overwrite(data: seq<Byte>, pos: nat, w: seq<Byte>): (r: seq<Byte>)
    requires pos + |w| <= |data|
    ensures |r| == |data|
    ensures forall i :: 0 <= i < |r| ==> r[i] == if pos <= i < pos + |w| then w[i - pos] else data[i]
  {
    data[..pos] + w + data[pos + |w|..]
  }

  /** The buffer after `patch`: unchanged on failure, otherwise the first
      `min(|replace|, |find|)` bytes of `replace` written at the match. */
  function Patched(data: seq<Byte>, find: Pattern, replace: seq<Byte>): (r: seq<Byte>)
    ensures |r| == |data|
  {
    match PatchOutcome(data, find)
    case Err(_) => data
    case Ok(pos) =>
      FindIsLeftmostMatch(data, find);
      Overwrite(data, pos, replace[..Min(|replace|, |find|)])
  }

  /** `patch` fails exactly on empty data, a pattern longer than the data, or no
      match (an empty pattern never matches); on failure the data is unchanged. */
  lemma PatchFailsIff(data: seq<Byte>, find: Pattern, replace: seq<Byte>)
    ensures PatchOutcome(data, find).Err? <==>
      |data| == 0 || |find| > |data| || |find| == 0 ||
      forall m :: 0 <= m <= |data| ==> !MatchesAt(data, find, m)
    ensures PatchOutcome(data, find).Err? ==> Patched(data, find, replace) == data
  {
    FindNoneIff(data, find);
  }

  /** On success `patch` writes `replace[0..k]`, `k = min(|replace|, |find|)`, at
      the leftmost match; every other byte and the length stay as they were. */
  lemma PatchWritesAtLeftmostMatch(data: seq<Byte>, find: Pattern, replace: seq<Byte>)
    requires PatchOutcome(data, find).Ok?
    ensures var pos := PatchOutcome(data, find).value;
      var k := Min(|replace|, |find|);
      var out := Patched(data, find, replace);
      && MatchesAt(data, find, pos)
      && (forall m :: 0 <= m < pos ==> !MatchesAt(data, find, m))
      && |out| == |data|
      && (forall i :: pos <= i < pos + k ==> out[i] == replace[i - pos])
      && (forall i :: 0 <= i < |data| && !(pos <= i < pos + k) ==> out[i] == data[i])
  {
    FindIsLeftmostMatch(data, find);
    var pos := PatchOutcome(data, find).value;
    var w := replace[..Min(|replace|, |find|)];
    assert Patched(data, find, replace) == Overwrite(data, pos, w);
  }

  /** `patch` succeeds exactly when `find_pattern` finds the pattern. */
  lemma PatchOkIffFound(data: seq<Byte>, find: Pattern)
    ensures PatchOutcome(data, find).Ok? <==> Find(data, find).Some?
  {
    PatchFailsIff(data, find, []);
    FindNoneIff(data, find);
  }

  /** `out` is `data` with `w` written from `pos` on and every other byte kept. */
  predicate WrittenAt(data: seq<Byte>, out: seq<Byte>, pos: nat, w: seq<Byte>) {
    && |out| == |data|
    && pos + |w| <= |data|
    && out[pos..pos + |w|] == w
    && out[..pos] == data[..pos]
    && out[pos + |w|..] == data[pos + |w|..]
  }

  /** Where `find_pattern` finds the pattern, `patch` writes the first
      `min(|replace|, |find|)` replacement bytes there and nothing else. */
  lemma PatchWritesAtFound(data: seq<Byte>, find: Pattern, replace: seq<Byte>)
    requires Find(data, find).Some?
    ensures WrittenAt(data, Patched(data, find, replace), Find(data, find).value, replace[..Min(|replace|, |find|)])
  {
    PatchOkIffFound(data, find);
    FindIsLeftmostMatch(data, find);
    var pos := Find(data, find).value;
    var w := replace[..Min(|replace|, |find|)];
    var out := Patched(data, find, replace);
    assert out == Overwrite(data, pos, w);
    assert out == data[..pos] + w + data[pos + |w|..];
  }

  /** An empty replacement is a successful no-op. */
  lemma EmptyReplacementIsNoOp(data: seq<Byte>, find: Pattern)
    ensures Patched(data, find, []) == data
  {
    match PatchOutcome(data, find)
    case Err(_) =>
    case Ok(pos) =>
      FindIsLeftmostMatch(data, find);
      assert Overwrite(data, pos, []) == data;
  }

  /** An 8-element pattern overwritten with a 256-byte key receives exactly the
      first 8 key bytes; the bytes after the pattern are untouched. */
  lemma KeyLongerThanPatternIsCut(data: seq<Byte>, find: Pattern, key: seq<Byte>)
    requires |find| == 8 && |key| == 256
    requires PatchOutcome(data, find).Ok?
    ensures var pos := PatchOutcome(data, find).value;
      var out := Patched(data, find, key);
      pos + 8 <= |data| && out[pos..pos + 8] == key[..8] && out[pos + 8..] == data[pos + 8..]
  {
    PatchWritesAtLeftmostMatch(data, find, key);
    var pos := PatchOutcome(data, find).value;
    var out := Patched(data, find, key);
    assert out[pos..pos + 8] == key[..8];
    assert out[pos + 8..] == data[pos + 8..];
  }

  /** `patch`: overwrites the caller's buffer in place. */
  method Patch(data: array<Byte>, find: Pattern, replace: seq<Byte>) returns (r: Result<(), WowPatcherError>)
    modifies data
    ensures data[..] == Patched(old(data[..]), find, replace)
    ensures r.Ok? <==> PatchOutcome(old(data[..]), find).Ok?
    ensures r.Err? ==> r.error == PatchOutcome(old(data[..]), find).error
  {
    if data.Length == 0 {
      return Err(New(PatchingError, "cannot patch empty data"));
    }
    if |find| > data.Length {
      return Err(New(PatchingError, "pattern longer than data"));
    }
    var position := FindPattern(data[..], find);
    match position {
      case Some(pos) =>
        FindIsLeftmostMatch(data[..], find);
        var replaceLen := Min(|replace|, |find|);
        ghost var before := data[..];
        forall i | pos <= i < pos + replaceLen {
          data[i] := replace[i - pos];
        }
        assert data[..] == Overwrite(before, pos, replace[..replaceLen]);
        return Ok(());
      case None =>
        return Err(New(PatchingError, "pattern not found in data"));
    }
  }
}
