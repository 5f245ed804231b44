/** ExtraSounds (src/model/extra_sounds.js): the list of ExtraSounds
    releases with the Minecraft version each one targets, the lookups over
    it, and the bounds applied when a sound is played. */
module ExtraSounds {
  import opened Wrappers
  import opened Strs
  import opened Collation
  import opened Versions
  import opened MathHelper
  import opened MinecraftAssets

  /** `ExtraSounds.defaultRef`. */
  const DefaultRef: string := "dev"

  /** The volume handed to the audio element: `clamp(volume, 0.0, 1.0)`. */
  function PlaybackVolume(volume: real): (r: real)
    ensures 0.0 <= r <= 1.0
    ensures 0.0 <= volume <= 1.0 ==> r == volume
    ensures volume > 1.0 ==> r == 1.0
    ensures volume < 0.0 ==> r == 0.0
  {
    Clamp(volume, 0.0, 1.0)
  }

  /** The playback rate: `clamp(pitch, 0.1, 2.0)`. */
  function PlaybackRate(pitch: real): (r: real)
    ensures 0.1 <= r <= 2.0
    ensures 0.1 <= pitch <= 2.0 ==> r == pitch
    ensures pitch > 2.0 ==> r == 2.0
    ensures pitch < 0.1 ==> r == 0.1
  {
    Clamp(pitch, 0.1, 2.0)
  }

  // ---------------------------------------------------------------------
  // The two regular expressions `\d+\.\d+\.\d+` and `\d+\.\d+`

  /** The length of the run of ASCII digits starting at `i`. */
  function DigitRun(s: string, i: nat): (n: nat)
    requires i <= |s|
    ensures i + n <= |s|
    ensures i + n == |s| || !IsDigit(s[i + n])
    decreases |s| - i
  {
    if i < |s| && IsDigit(s[i]) then 1 + DigitRun(s, i + 1) else 0
  }

  /** The run is made of digits only. */
  lemma {:induction false} DigitRunIsNumeral(s: string, i: nat)
    requires i < |s| && DigitRun(s, i) > 0
    ensures IsNumeral(s[i..i + DigitRun(s, i)])
    decreases |s| - i
  {
    var n := DigitRun(s, i);
    var run := s[i..i + n];
    assert IsDigit(s[i]) && DigitRun(s, i + 1) == n - 1;
    if n > 1 {
      DigitRunIsNumeral(s, i + 1);
      var tail := s[i + 1..i + n];
      assert IsNumeral(tail);
      forall k | 0 <= k < |run| ensures IsDigit(run[k]) {
        if k > 0 {
          assert run[k] == tail[k - 1];
        }
      }
    } else {
      assert run == [s[i]];
    }
  }

  /** The end of a match of `\d+(\.\d+)` repeated to `groups` runs of
      digits, starting at `i`. A run is always taken whole: a shorter run
      is followed by a digit, not by the `.` or the end the pattern needs
      next, so the engine's backtracking cannot find another match. */
  function MatchAt(s: string, i: nat, groups: nat): (r: Option<nat>)
    requires i <= |s| && groups >= 1
    ensures r.Some? ==> i < r.value <= |s|
    decreases groups
  {
    var n := DigitRun(s, i);
    if n == 0 then None
    else if groups == 1 then Some(i + n)
    else if i + n < |s| && s[i + n] == '.' then MatchAt(s, i + n + 1, groups - 1)
    else None
  }

  /** `s.match(re)` from position `from` on: the leftmost start at which
      the pattern matches, with the end of that match. */
  function FirstMatch(s: string, groups: nat, from: nat): (r: Option<(nat, nat)>)
    requires from <= |s| && groups >= 1
    ensures r.Some? ==> from <= r.value.0 < r.value.1 <= |s| && MatchAt(s, r.value.0, groups) == Some(r.value.1)
    decreases |s| - from
  {
    match MatchAt(s, from, groups)
    case Some(e) => Some((from, e))
    case None => if from == |s| then None else FirstMatch(s, groups, from + 1)
  }

  /** The match found is the leftmost one from `from` on, and none is
      found only when there is none. */
  lemma {:induction false} FirstMatchLeftmost(s: string, groups: nat, from: nat)
    requires from <= |s| && groups >= 1
    ensures var r := FirstMatch(s, groups, from);
      && (r.Some? ==> forall k :: from <= k < r.value.0 ==> MatchAt(s, k, groups).None?)
      && (r.None? ==> forall k :: from <= k <= |s| ==> MatchAt(s, k, groups).None?)
    decreases |s| - from
  {
    if MatchAt(s, from, groups).None? && from < |s| {
      FirstMatchLeftmost(s, groups, from + 1);
    }
  }

  /** A run of digits is a dotted-decimal version with one component. */
  lemma SingleNumeral(x: string)
    requires IsNumeral(x)
    ensures ParseDotted(x) == Some([DigitsValue(x)])
  {
    forall k | 0 <= k < |x| ensures x[k] != '.' {
      assert IsDigit(x[k]);
    }
    assert '.' !in x;
    SplitNoSeparator(x, '.');
    assert Split(x, '.') == [x];
    assert [x][1..] == [];
    assert ParseComponents([x][1..]) == Some([]);
    assert [DigitsValue(x)] + [] == [DigitsValue(x)];
  }

  /** A numeral, a `.` and a dotted-decimal version form a dotted-decimal
      version with one more component in front. */
  lemma ParseDottedCons(head: string, tail: string)
    requires IsNumeral(head) && IsDotted(tail)
    ensures ParseDotted(head + ['.'] + tail) == Some([DigitsValue(head)] + ParseDotted(tail).value)
  {
    forall k | 0 <= k < |head| ensures head[k] != '.' {
      assert IsDigit(head[k]);
    }
    SplitAtFirst(head, tail, '.');
    var pieces := [head] + Split(tail, '.');
    assert pieces[0] == head && pieces[1..] == Split(tail, '.');
  }

  /** A match of more than one group is a run of digits, a `.` and a match
      of one group fewer. */
  lemma MatchAtStep(s: string, i: nat, groups: nat)
    requires i <= |s| && groups >= 2 && MatchAt(s, i, groups).Some?
    ensures var n := DigitRun(s, i);
      && n > 0 && i + n < |s| && s[i + n] == '.'
      && MatchAt(s, i + n + 1, groups - 1) == MatchAt(s, i, groups)
  {
  }

  /** Whatever the pattern matches is a dotted-decimal version with exactly
      `groups` components. */
  lemma {:induction false} MatchIsDotted(s: string, i: nat, groups: nat, j: nat)
    requires i <= |s| && groups >= 1 && MatchAt(s, i, groups) == Some(j)
    ensures IsDotted(s[i..j]) && |ParseDotted(s[i..j]).value| == groups
    decreases groups
  {
    var n := DigitRun(s, i);
    assert IsNumeral(s[i..i + n]) by {
      DigitRunIsNumeral(s, i);
    }
    if groups == 1 {
      assert j == i + n;
      SingleNumeral(s[i..j]);
    } else {
      assert i + n < j && s[i + n] == '.' && MatchAt(s, i + n + 1, groups - 1) == Some(j) by {
        MatchAtStep(s, i, groups);
      }
      MatchIsDotted(s, i + n + 1, groups - 1, j);
      DottedJoin(s, i, n, j, groups);
    }
  }

  /** A numeral, a `.` and a dotted-decimal version of `groups - 1`
      components form one of `groups` components. */
  lemma DottedJoin(s: string, i: nat, n: nat, j: nat, groups: nat)
    requires i + n < j <= |s| && s[i + n] == '.' && groups >= 2
    requires IsNumeral(s[i..i + n])
    requires IsDotted(s[i + n + 1..j]) && |ParseDotted(s[i + n + 1..j]).value| == groups - 1
    ensures IsDotted(s[i..j]) && |ParseDotted(s[i..j]).value| == groups
  {
    var head, tail := s[i..i + n], s[i + n + 1..j];
    assert s[i..j] == head + ['.'] + tail;
    ParseDottedCons(head, tail);
  }

  /** Some position of `s` starts a match of `groups` runs of digits. */
  predicate HasMatch(s: string, groups: nat) {
    groups >= 1 && exists i :: 0 <= i <= |s| && MatchAt(s, i, groups).Some?
  }

  /** `i` is the leftmost position of `s` that starts such a match. */
  predicate LeftmostMatch(s: string, groups: nat, i: nat) {
    groups >= 1 && i <= |s| && MatchAt(s, i, groups).Some?
    && forall k :: 0 <= k < i ==> MatchAt(s, k, groups).None?
  }

  /** A match of more groups starts with a match of fewer: the pattern with
      the patch component matches only where the one without it does. */
  lemma {:induction false} MatchAtFewerGroups(s: string, i: nat, groups: nat)
    requires i <= |s| && groups >= 2 && MatchAt(s, i, groups).Some?
    ensures MatchAt(s, i, groups - 1).Some?
    decreases groups
  {
    var n := DigitRun(s, i);
    if groups > 2 {
      MatchAtFewerGroups(s, i + n + 1, groups - 1);
    }
  }

  /** The `minecraft_version` of a tag name: the first match of
      `\d+\.\d+\.\d+`, else the first match of `\d+\.\d+`, else none
      (the tag is skipped). */
  function TagMCVersion(tagName: string): Option<string> {
    match FirstMatch(tagName, 3, 0)
    case Some((i, j)) => Some(tagName[i..j])
    case None =>
      match FirstMatch(tagName, 2, 0)
      case Some((i, j)) => Some(tagName[i..j])
      case None => None
  }

  /** The version taken from a tag name is a dotted-decimal version of
      three components, or of two. */
  lemma TagMCVersionDotted(tagName: string)
    ensures var r := TagMCVersion(tagName);
      r.Some? ==> IsDotted(r.value) && |ParseDotted(r.value).value| in {2, 3}
  {
    match FirstMatch(tagName, 3, 0)
    case Some((i, j)) =>
      MatchIsDotted(tagName, i, 3, j);
    case None =>
      match FirstMatch(tagName, 2, 0)
      case Some((i, j)) =>
        MatchIsDotted(tagName, i, 2, j);
      case None =>
  }

  /** The version taken from a tag name is the text of the leftmost match
      of the pattern with the patch component when the name has one, else
      that of the leftmost match without it; a name with neither gives
      none. */
  lemma TagMCVersionLeftmost(tagName: string)
    ensures var r := TagMCVersion(tagName);
      && (HasMatch(tagName, 3) ==>
        exists i: nat :: LeftmostMatch(tagName, 3, i) && r == Some(tagName[i..MatchAt(tagName, i, 3).value]))
      && (!HasMatch(tagName, 3) && HasMatch(tagName, 2) ==>
        exists i: nat :: LeftmostMatch(tagName, 2, i) && r == Some(tagName[i..MatchAt(tagName, i, 2).value]))
      && (r.None? <==> !HasMatch(tagName, 2))
  {
    FirstMatchLeftmost(tagName, 3, 0);
    FirstMatchLeftmost(tagName, 2, 0);
    match FirstMatch(tagName, 3, 0)
    case Some((i, j)) =>
      MatchAtFewerGroups(tagName, i, 3);
      assert LeftmostMatch(tagName, 3, i);
    case None =>
      match FirstMatch(tagName, 2, 0)
      case Some((i, j)) =>
        assert LeftmostMatch(tagName, 2, i);
      case None =>
  }

  // ---------------------------------------------------------------------
  // Revisions

  /** One element of the tags list GitHub returns. */
  datatype GitTag = GitTag(name: string, sha: string)

  /** One element of `ExtraSounds.revisions`. */
  datatype Revision = Revision(tag: string, commitHash: string, minecraftVersion: string)

  /** The revision one tag contributes: none when its name holds no
      version. */
  function TagRevision(tag: GitTag): seq<Revision> {
    match TagMCVersion(tag.name)
    case None => []
    case Some(v) => [Revision(tag.name, tag.sha, v)]
  }

  /** The revisions the tag list contributes, in list order: one per tag
      with a version in its name. */
  function KeptRevisions(tags: seq<GitTag>): (r: seq<Revision>)
    ensures |r| <= |tags|
  {
    if tags == [] then []
    else
      TagRevision(tags[0]) + KeptRevisions(tags[1..])
  }

  /** Every kept revision carries a dotted-decimal version, and a list
      whose every tag names a version loses none of them. */
  lemma {:induction false} KeptRevisionsDotted(tags: seq<GitTag>)
    ensures var r := KeptRevisions(tags);
      && (forall rev :: rev in r ==> IsDotted(rev.minecraftVersion))
      && ((forall k :: 0 <= k < |tags| ==> TagMCVersion(tags[k].name).Some?) ==> |r| == |tags|)
  {
    if tags != [] {
      KeptRevisionsDotted(tags[1..]);
      TagMCVersionDotted(tags[0].name);
      var head: seq<Revision>, rest: seq<Revision> := TagRevision(tags[0]), KeptRevisions(tags[1..]);
      assert KeptRevisions(tags) == head + rest;
      assert forall rev :: rev in head ==> IsDotted(rev.minecraftVersion);
      if forall k :: 0 <= k < |tags| ==> TagMCVersion(tags[k].name).Some? {
        assert forall k :: 0 <= k < |tags[1..]| ==> tags[1..][k] == tags[k + 1];
        assert TagMCVersion(tags[0].name).Some?;
      }
    }
  }

  /** `getCompatMCVerFromExtraSoundsVer(esVer)` over the first `n`
      revisions: the version of the last one tagged `esVer`, else the
      sentinel. */
  function CompatMCVer(revisions: seq<Revision>, esVer: string, n: nat): (r: McVersion)
    requires n <= |revisions|
    ensures r == Latest <==> forall i :: 0 <= i < n ==> revisions[i].tag != esVer
  {
    if n == 0 then Latest
    else if revisions[n - 1].tag == esVer then Named(revisions[n - 1].minecraftVersion)
    else CompatMCVer(revisions, esVer, n - 1)
  }

  /** The sentinel exactly when no revision carries the tag; otherwise the
      version of the last revision that does. */
  lemma {:induction false} CompatMCVerLastMatch(revisions: seq<Revision>, esVer: string, n: nat)
    requires n <= |revisions|
    ensures var r := CompatMCVer(revisions, esVer, n);
      && (r == Latest <==> forall i :: 0 <= i < n ==> revisions[i].tag != esVer)
      && (r.Named? ==> exists i :: (0 <= i < n && revisions[i].tag == esVer
            && revisions[i].minecraftVersion == r.name
            && forall j :: i < j < n ==> revisions[j].tag != esVer))
  {
    if n > 0 && revisions[n - 1].tag != esVer {
      CompatMCVerLastMatch(revisions, esVer, n - 1);
    }
  }

  /** `rev['minecraft_version'] === mcVer`: the sentinel is no version. */
  predicate Targets(rev: Revision, mcVer: McVersion) {
    mcVer.Named? && rev.minecraftVersion == mcVer.name
  }

  /** `filtered.map(rev => rev['tag'])`. */
  function TagsFor(revisions: seq<Revision>, mcVer: McVersion): (r: seq<string>)
    ensures forall k :: 0 <= k < |revisions| && Targets(revisions[k], mcVer) ==> revisions[k].tag in r
    ensures forall t :: t in r ==> exists k :: 0 <= k < |revisions| && Targets(revisions[k], mcVer) && revisions[k].tag == t
  {
    if revisions == [] then []
    else
      var rest := TagsFor(revisions[1..], mcVer);
      assert forall t :: t in rest ==> exists k :: 1 <= k < |revisions| && Targets(revisions[k], mcVer) && revisions[k].tag == t;
      if Targets(revisions[0], mcVer) then [revisions[0].tag] + rest else rest
  }

  /** The static `ExtraSounds.revisions` list, which only ever grows. */
  class Revisions {
    var revisions: seq<Revision>

    constructor ()
      ensures revisions == []
    {
      revisions := [];
    }

    /** The callback of that `forEach`: the tag's revision is pushed when
      its name holds a version, and the call returns early otherwise. */
    method PushTag(tag: GitTag)
      modifies this
      ensures revisions == old(revisions) + TagRevision(tag)
    {
      var mcVer := TagMCVersion(tag.name);
      if mcVer.None? {
        return;
      }
      revisions := revisions + [Revision(tag.name, tag.sha, mcVer.value)];
    }

    /** The `forEach` of `fetchTagRevisionsAsync` over the fetched tags:
      every tag with a version is pushed, in order; nothing is removed. */
    method FetchTagRevisions(tags: seq<GitTag>) returns (all: seq<Revision>)
      modifies this
      ensures revisions == old(revisions) + KeptRevisions(tags)
      ensures all == revisions
    {
      for n := 0 to |tags|
        invariant revisions == old(revisions) + KeptRevisions(tags[..n])
      {
        PushTag(tags[n]);
        KeptRevisionsStep(tags, n);
      }
      assert tags[..|tags|] == tags;
      all := revisions;
    }

    /** `getCompatMCVerFromExtraSoundsVer(esVer)`: a `forEach` that
      overwrites the result at every revision with the tag. */
    method GetCompatMCVer(esVer: string) returns (mcVer: McVersion)
      ensures mcVer == CompatMCVer(revisions, esVer, |revisions|)
    {
      mcVer := Latest;
      for n := 0 to |revisions|
        invariant mcVer == CompatMCVer(revisions, esVer, n)
      {
        if revisions[n].tag == esVer {
          mcVer := Named(revisions[n].minecraftVersion);
        }
      }
    }

    /** `getLatestRevFromMCVer(mcVer)`: the highest tag among the revisions
      for that Minecraft version, or `'dev'` when there is none. */
    function GetLatestRevFromMCVer(mcVer: McVersion): (r: string)
      reads this
      ensures (forall k :: 0 <= k < |revisions| ==> !Targets(revisions[k], mcVer)) ==> r == DefaultRef
      ensures (exists k :: 0 <= k < |revisions| && Targets(revisions[k], mcVer)) ==>
        (exists k :: 0 <= k < |revisions| && Targets(revisions[k], mcVer) && revisions[k].tag == r)
        && forall k :: 0 <= k < |revisions| && Targets(revisions[k], mcVer) ==> Compare(r, revisions[k].tag) >= 0
    {
      var tags := TagsFor(revisions, mcVer);
      var sorted := VersionSort(tags);
      if sorted == [] then
        VersionSortPermutation(tags, true);
        DefaultRef
      else
        VersionSortPermutation(tags, true);
        VersionSortFirstIsMax(tags);
        sorted[0]
    }
  }

  /** The prefix of one more tag extends the kept revisions by at most
      that tag's revision. */
  lemma KeptRevisionsStep(tags: seq<GitTag>, n: nat)
    requires n < |tags|
    ensures KeptRevisions(tags[..n + 1]) == KeptRevisions(tags[..n]) + TagRevision(tags[n])
  {
    assert tags[..n + 1] == tags[..n] + [tags[n]];
    KeptRevisionsSnoc(tags[..n], tags[n]);
  }

  /** One more tag extends the kept revisions by at most that tag's. */
  lemma {:induction false} KeptRevisionsSnoc(tags: seq<GitTag>, tag: GitTag)
    ensures KeptRevisions(tags + [tag]) == KeptRevisions(tags) + TagRevision(tag)
  {
    if tags == [] {
      assert [tag][1..] == [];
    } else {
      assert (tags + [tag])[0] == tags[0];
      assert (tags + [tag])[1..] == tags[1..] + [tag];
      KeptRevisionsSnoc(tags[1..], tag);
    }
  }
}
