/** MinecraftResPack (src/model/minecraft_res_pack.js): the table from
    Minecraft versions to resource-pack formats and the `pack.mcmeta`
    fields of one resource pack. */
module MinecraftResPack {
  import opened Wrappers
  import opened Versions
  import opened SoundsJson
  import opened MinecraftAssets

  /** The module-level `packFormats` object: version to `pack_format`,
      together with its keys in `Object.keys` order. */
  datatype FormatTable = FormatTable(formats: map<string, int>, order: seq<string>)
  {
    /** The key order lists every key exactly once. */
    ghost predicate Valid() {
      (forall i, j :: 0 <= i < j < |order| ==> order[i] != order[j])
      && (forall k :: k in formats <==> k in order)
    }
  }

  /** The index of the first element of `vs` from `i` on that satisfies
      `p`; `|vs|` when there is none. */
  function FirstWhere(vs: seq<string>, p: string -> bool, i: nat): (r: nat)
    requires i <= |vs|
    ensures i <= r <= |vs|
    ensures r < |vs| ==> p(vs[r])
    ensures forall j :: i <= j < r ==> !p(vs[j])
    decreases |vs| - i
  {
    if i == |vs| then i
    else if p(vs[i]) then i
    else FirstWhere(vs, p, i + 1)
  }

  /** Holds of the versions that do not exceed `target`. */
  function NotAbove(target: string): string -> bool {
    v => Compare(target, v) >= 0
  }

  /** The value `retrievePackFormatFromMCVer(target)` computes: the exact
      entry, else the entry of the first version in descending order that
      is at most the target, else 0. */
  function PackFormatFor(table: FormatTable, target: string): int
    requires table.Valid()
  {
    if target in table.formats then table.formats[target]
    else
      var versions := VersionSort(table.order);
      var k := FirstWhere(versions, NotAbove(target), 0);
      if k < |versions| then
        VersionSortSameElements(table.order);
        assert versions[k] in versions;
        table.formats[versions[k]]
      else 0
  }

  /** The first sorted version not above the target gives the format. */
  lemma PackFormatAtFirst(table: FormatTable, target: string)
    requires table.Valid() && target !in table.formats
    requires FirstWhere(VersionSort(table.order), NotAbove(target), 0) < |VersionSort(table.order)|
    ensures var versions := VersionSort(table.order);
      var i := FirstWhere(versions, NotAbove(target), 0);
      versions[i] in table.formats && PackFormatFor(table, target) == table.formats[versions[i]]
  {
    var versions := VersionSort(table.order);
    var i := FirstWhere(versions, NotAbove(target), 0);
    VersionSortSameElements(table.order);
    assert versions[i] in versions;
  }

  /** The `for` loop of `retrievePackFormatFromMCVer` over the sorted
      versions: it stops at the first one the target does not fall below. */
  method FindFirstNotAbove(versions: seq<string>, target: string) returns (i: nat)
    ensures i == FirstWhere(versions, NotAbove(target), 0)
  {
    // `targetMCVer.localeCompare(ver, ...) >= 0`
    var notAbove := NotAbove(target);
    i := 0;
    while i < |versions|
      invariant 0 <= i <= |versions|
      invariant FirstWhere(versions, notAbove, 0) == FirstWhere(versions, notAbove, i)
    {
      if notAbove(versions[i]) {
        break;
      }
      i := i + 1;
    }
  }

  /** `retrievePackFormatFromMCVer(targetMCVer)`: the exact entry if
      there is one, else the loop's pick, else `packFormat ?? 0`. */
  method RetrievePackFormatFromMCVer(table: FormatTable, target: string) returns (packFormat: int)
    requires table.Valid()
    ensures packFormat == PackFormatFor(table, target)
  {
    if target in table.formats {
      return table.formats[target];
    }
    var versions := VersionSort(table.order);
    var i := FindFirstNotAbove(versions, target);
    if i < |versions| {
      PackFormatAtFirst(table, target);
      return table.formats[versions[i]];
    }
    return 0;
  }

  /** When the scan finds no version the target is not below, the target
      is below every known version. */
  lemma NoVersionNotAbove(table: FormatTable, target: string)
    requires table.Valid()
    requires FirstWhere(VersionSort(table.order), NotAbove(target), 0) == |VersionSort(table.order)|
    ensures forall k :: k in table.formats ==> Compare(target, k) < 0
  {
    var versions := VersionSort(table.order);
    VersionSortSameElements(table.order);
    forall k | k in table.formats ensures Compare(target, k) < 0 {
      var j :| 0 <= j < |versions| && versions[j] == k;
      assert !NotAbove(target)(versions[j]);
    }
  }

  /** The version the scan stops at is the greatest known version not
      above the target. */
  lemma FirstNotAboveIsGreatest(table: FormatTable, target: string)
    requires table.Valid()
    requires FirstWhere(VersionSort(table.order), NotAbove(target), 0) < |VersionSort(table.order)|
    ensures var versions := VersionSort(table.order);
      var v := versions[FirstWhere(versions, NotAbove(target), 0)];
      && v in table.formats && Compare(target, v) >= 0
      && forall w :: w in table.formats && Compare(target, w) >= 0 ==> Compare(v, w) >= 0
  {
    var versions := VersionSort(table.order);
    var i := FirstWhere(versions, NotAbove(target), 0);
    VersionSortSameElements(table.order);
    VersionSortPermutation(table.order, true);
    assert versions[i] in versions;
    forall w | w in table.formats && Compare(target, w) >= 0 ensures Compare(versions[i], w) >= 0 {
      var j :| 0 <= j < |versions| && versions[j] == w;
      assert NotAbove(target)(versions[j]);
      VersionSortDescending(table.order, i, j);
    }
  }

  /** The three outcomes of the lookup: an exact key gives its format; a
      target between known versions gives the format of the greatest known
      version not above it; a target below every known version gives 0. */
  lemma PackFormatForCases(table: FormatTable, target: string)
    requires table.Valid()
    ensures target in table.formats ==> PackFormatFor(table, target) == table.formats[target]
    ensures target !in table.formats && (exists k :: k in table.formats && Compare(target, k) >= 0) ==>
      exists v :: (v in table.formats && Compare(target, v) >= 0 && PackFormatFor(table, target) == table.formats[v]
        && forall w :: w in table.formats && Compare(target, w) >= 0 ==> Compare(v, w) >= 0)
    ensures target !in table.formats && (forall k :: k in table.formats ==> Compare(target, k) < 0) ==>
      PackFormatFor(table, target) == 0
  {
    if target !in table.formats {
      var versions := VersionSort(table.order);
      var i := FirstWhere(versions, NotAbove(target), 0);
      if i == |versions| {
        NoVersionNotAbove(table, target);
      } else {
        PackFormatAtFirst(table, target);
        FirstNotAboveIsGreatest(table, target);
        var v := versions[i];
        assert v in table.formats && Compare(target, v) >= 0 && PackFormatFor(table, target) == table.formats[v];
      }
    }
  }

  /** `getLatestMCVer()`: the first version of the descending sort, or
      `undefined` for an empty table. */
  function GetLatestMCVer(table: FormatTable): (r: Option<string>)
    requires table.Valid()
    ensures r.None? <==> table.formats == map[]
    ensures r.Some? ==> r.value in table.formats && forall k :: k in table.formats ==> Compare(r.value, k) >= 0
  {
    if table.order == [] then None
    else
      VersionSortFirstIsMax(table.order);
      Some(VersionSort(table.order)[0])
  }

  /** The format `setPackFormatFromMCVer` stores and `checkExactPackFormat`
      expects: the sentinel first becomes the latest version. An empty
      table leaves it `undefined`; the lookup of `undefined` in an empty
      table falls through to 0. */
  function ExpectedPackFormat(table: FormatTable, mcVer: McVersion): int
    requires table.Valid()
  {
    match mcVer
    case Named(v) => PackFormatFor(table, v)
    case Latest =>
      match GetLatestMCVer(table)
      case Some(v) => PackFormatFor(table, v)
      case None => 0
  }

  /** The sentinel stands for the format of the newest known version. */
  lemma LatestFormatIsNewest(table: FormatTable)
    requires table.Valid()
    ensures table.formats == map[] ==> ExpectedPackFormat(table, Latest) == 0
    ensures table.formats != map[] ==> exists v :: (v in table.formats
      && ExpectedPackFormat(table, Latest) == table.formats[v]
      && forall k :: k in table.formats ==> Compare(v, k) >= 0)
  {
  }

  /** `getMCVerFromPackFormat()` over the first `n` keys: the last key
      whose format equals `packFormat`, else the sentinel. */
  function VersionForFormat(table: FormatTable, packFormat: int, n: nat): McVersion
    requires table.Valid() && n <= |table.order|
  {
    if n == 0 then Latest
    else if table.formats[table.order[n - 1]] == packFormat then Named(table.order[n - 1])
    else VersionForFormat(table, packFormat, n - 1)
  }

  /** The reverse lookup gives the sentinel exactly when no key has the
      format, and otherwise the last key in key order that has it. */
  lemma {:induction false} VersionForFormatLastMatch(table: FormatTable, packFormat: int, n: nat)
    requires table.Valid() && n <= |table.order|
    ensures var r := VersionForFormat(table, packFormat, n);
      && (r == Latest <==> forall i :: 0 <= i < n ==> table.formats[table.order[i]] != packFormat)
      && (r.Named? ==> exists i :: (0 <= i < n && table.order[i] == r.name
            && table.formats[r.name] == packFormat
            && forall j :: i < j < n ==> table.formats[table.order[j]] != packFormat))
  {
    if n > 0 && table.formats[table.order[n - 1]] != packFormat {
      VersionForFormatLastMatch(table, packFormat, n - 1);
    }
  }

  /** From a format to a version and back: the version the reverse lookup
      finds is an exact key, so the forward lookup gives the format again. */
  lemma FormatVersionRoundTrip(table: FormatTable, packFormat: int)
    requires table.Valid()
    requires VersionForFormat(table, packFormat, |table.order|).Named?
    ensures PackFormatFor(table, VersionForFormat(table, packFormat, |table.order|).name) == packFormat
  {
    VersionForFormatLastMatch(table, packFormat, |table.order|);
  }

  /** A resource pack: the `pack.mcmeta` fields the editor reads and
      writes, the parsed ExtraSounds sounds.json, and the paths in the zip. */
  class ResPack {
    /** `pack.pack_format`. */
    var packFormat: int
    /** `pack.x_mc_version`; `None` when the file lacks it. */
    var mcVersion: Option<McVersion>
    /** `null` after a failed parse. */
    var soundsJson: Option<Table>
    /** `None` when the zip could not be opened. */
    var files: Option<set<string>>

    /** `new MinecraftResPack()`: the default `pack.mcmeta` and an empty zip. */
    constructor ()
      ensures packFormat == 0 && mcVersion == Some(Latest)
      ensures soundsJson == Some(map[]) && files == Some({})
    {
      packFormat := 0;
      mcVersion := Some(Latest);
      soundsJson := Some(map[]);
      files := Some({});
    }

    /** `x_mc_version` counts as falsy when absent or empty. */
    predicate HasMCVer()
      reads this
    {
      mcVersion.Some? && mcVersion.value != Named("")
    }

    /** `getMCVerFromPackFormat()`: a `forEach` over the keys that
      overwrites the result at every key with this pack's format. */
    method GetMCVerFromPackFormat(table: FormatTable) returns (result: McVersion)
      requires table.Valid()
      ensures result == VersionForFormat(table, packFormat, |table.order|)
    {
      result := Latest;
      for n := 0 to |table.order|
        invariant result == VersionForFormat(table, packFormat, n)
      {
        var mcVer := table.order[n];
        if table.formats[mcVer] == packFormat {
          result := Named(mcVer);
        }
      }
    }

    /** `getMCVer()`: a falsy `x_mc_version` falls back to the reverse
      lookup, the sentinel becomes the latest version (`None` stands for
      `undefined`), any other value is returned as stored. */
    method GetMCVer(table: FormatTable) returns (result: Option<McVersion>)
      requires table.Valid()
      ensures !HasMCVer() ==> result == Some(VersionForFormat(table, packFormat, |table.order|))
      ensures mcVersion == Some(Latest) ==>
        result == (match GetLatestMCVer(table) case Some(v) => Some(Named(v)) case None => None)
      ensures HasMCVer() && mcVersion != Some(Latest) ==> result == mcVersion
    {
      if !HasMCVer() {
        var v := GetMCVerFromPackFormat(table);
        result := Some(v);
      } else if mcVersion.value == Latest {
        result := match GetLatestMCVer(table) case Some(v) => Some(Named(v)) case None => None;
      } else {
        result := mcVersion;
      }
    }

    /** `setMCVer(mcVer)`: only `x_mc_version` changes. */
    method SetMCVer(mcVer: Option<McVersion>)
      modifies this
      ensures mcVersion == mcVer
      ensures packFormat == old(packFormat) && soundsJson == old(soundsJson) && files == old(files)
    {
      mcVersion := mcVer;
    }

    /** `setPackFormatFromMCVer(targetMCVer)`: only `pack_format` changes,
      to the format of the (sentinel-resolved) version. */
    method SetPackFormatFromMCVer(table: FormatTable, targetMCVer: McVersion)
      requires table.Valid()
      modifies this
      ensures packFormat == ExpectedPackFormat(table, targetMCVer)
      ensures mcVersion == old(mcVersion) && soundsJson == old(soundsJson) && files == old(files)
    {
      var target := targetMCVer;
      if target == Latest {
        target := match GetLatestMCVer(table) case Some(v) => Named(v) case None => Latest;
      }
      if target.Named? {
        packFormat := RetrievePackFormatFromMCVer(table, target.name);
      } else {
        packFormat := 0;
      }
    }

    /** `checkExactPackFormat(mcVer)`: an `undefined` argument takes the
      default, the sentinel. True exactly when the stored format is the
      expected one. */
    method CheckExactPackFormat(table: FormatTable, mcVer: Option<McVersion>) returns (exact: bool)
      requires table.Valid()
      ensures exact <==> packFormat == ExpectedPackFormat(table, mcVer.GetOr(Latest))
    {
      var target := mcVer.GetOr(Latest);
      if target == Latest {
        target := match GetLatestMCVer(table) case Some(v) => Named(v) case None => Latest;
      }
      var expected := 0;
      if target.Named? {
        expected := RetrievePackFormatFromMCVer(table, target.name);
      }
      exact := packFormat == expected;
    }
  }
}
