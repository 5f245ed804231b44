/** MinecraftAssets (src/model/minecraft_assets.js): the content-addressed
    resource URI, the merge of sounds.json tables, the scan for entries
    with unnamed sounds and the version pick in the launcher manifest. */
module MinecraftAssets {
  import opened Wrappers
  import opened Strs
  import opened SoundsJson

  /** A Minecraft version as the core passes it around: a version string,
      or the sentinel `latestVerStr` that stands for the newest one. */
  datatype McVersion = Latest | Named(name: string)

  const ResourcesBase: string := "https://resources.download.minecraft.net/"
  const First2Placeholder: string := "${first2Letter}"
  const HashPlaceholder: string := "${hash}"

  /** `resourcesUriTemplate`. */
  const ResourcesTemplate: string := ResourcesBase + First2Placeholder + "/" + HashPlaceholder

  /** `getResourceUri(hash)`: the template with its two placeholders
      replaced, first by `hash.slice(0, 2)`, then by the hash. */
  function GetResourceUri(hash: string): string {
    var first2 := if |hash| < 2 then hash else hash[..2];
    ReplaceFirst(ReplaceFirst(ResourcesTemplate, First2Placeholder, first2), HashPlaceholder, hash)
  }

  /** No occurrence of a pattern can span a character the pattern lacks. */
  lemma NoOccurrenceAcross(s: string, pattern: string, i: nat, m: nat)
    requires i <= m < i + |pattern| && m < |s| && s[m] !in pattern
    ensures !OccursAt(s, pattern, i)
  {
  }

  /** Neither placeholder occurs inside the host part of the template. */
  lemma NoPlaceholderInBase(rest: string)
    ensures forall i :: 0 <= i < |ResourcesBase| ==> !OccursAt(ResourcesBase + rest, First2Placeholder, i)
    ensures forall i :: 0 <= i < |ResourcesBase| ==> !OccursAt(ResourcesBase + rest, HashPlaceholder, i)
  {
    assert '$' !in ResourcesBase;
    NoOccurrenceWithout(ResourcesBase, rest, First2Placeholder);
    NoOccurrenceWithout(ResourcesBase, rest, HashPlaceholder);
  }

  /** The first replacement puts the two leading characters in place. */
  lemma FirstReplacement(first2: string)
    ensures ReplaceFirst(ResourcesTemplate, First2Placeholder, first2) == ResourcesBase + first2 + "/" + HashPlaceholder
  {
    var rest := "/" + HashPlaceholder;
    assert ResourcesTemplate == ResourcesBase + (First2Placeholder + rest);
    NoPlaceholderInBase(First2Placeholder + rest);
    ReplaceFirstSkip(ResourcesTemplate, |ResourcesBase|, First2Placeholder, first2);
    assert ResourcesTemplate[..|ResourcesBase|] == ResourcesBase;
    assert ResourcesTemplate[|ResourcesBase|..] == First2Placeholder + rest;
    ReplaceFirstAtStart(First2Placeholder, rest, first2);
  }

  /** The second replacement puts the hash in place, because the first one
      left a slash between the leading characters and the placeholder. */
  lemma SecondReplacement(first2: string, hash: string)
    requires |first2| <= 2
    ensures ReplaceFirst(ResourcesBase + first2 + "/" + HashPlaceholder, HashPlaceholder, hash)
      == ResourcesBase + first2 + "/" + hash
  {
    var head := ResourcesBase + first2 + "/";
    var step := head + HashPlaceholder;
    forall i | 0 <= i < |head| ensures !OccursAt(step, HashPlaceholder, i) {
      if i < |ResourcesBase| {
        assert step == ResourcesBase + (first2 + "/" + HashPlaceholder);
        NoPlaceholderInBase(first2 + "/" + HashPlaceholder);
      } else {
        assert step[|head| - 1] == '/';
        NoOccurrenceAcross(step, HashPlaceholder, i, |head| - 1);
      }
    }
    ReplaceAfterPrefix(head, HashPlaceholder, hash);
  }

  /** When the pattern does not occur before it, the pattern that ends a
      string is the one replaced. */
  lemma ReplaceAfterPrefix(head: string, pattern: string, r: string)
    requires forall i :: 0 <= i < |head| ==> !OccursAt(head + pattern, pattern, i)
    ensures ReplaceFirst(head + pattern, pattern, r) == head + r
  {
    var s := head + pattern;
    ReplaceFirstSkip(s, |head|, pattern, r);
    assert s[..|head|] == head;
    assert s[|head|..] == pattern + "";
    ReplaceFirstAtStart(pattern, "", r);
    assert r + "" == r;
  }

  /** The URI is the download host, the first two characters of the hash,
      a slash and the hash. */
  lemma ResourceUriShape(hash: string)
    ensures var first2 := if |hash| < 2 then hash else hash[..2];
      GetResourceUri(hash) == ResourcesBase + first2 + "/" + hash
  {
    var first2 := if |hash| < 2 then hash else hash[..2];
    FirstReplacement(first2);
    SecondReplacement(first2, hash);
  }

  // ---------------------------------------------------------------------
  // mergeSoundsJson

  datatype MergeError = SoundsUndefined

  /** The overlay entry takes the key when the base lacks it or when its
      `replace` is strictly `true`. */
  predicate Takes(base: Table, overlay: Table, key: string)
    requires key in overlay
  {
    key !in base || overlay[key].replace == Some(Bool(true))
  }

  /** In the other case the code evaluates `base[key]['sounds'].concat(...)`,
      which throws when the base entry has no `sounds`. */
  predicate Throws(base: Table, overlay: Table, key: string)
    requires key in overlay
  {
    !Takes(base, overlay, key) && base[key].sounds.None?
  }

  /** One overlay applied to `base`. The `concat` result is discarded, so a
      key the overlay does not take keeps the base entry as it was. */
  function MergeOne(base: Table, overlay: Table): Result<Table, MergeError> {
    if exists key :: key in overlay && Throws(base, overlay, key) then
      Err(SoundsUndefined)
    else
      Ok(map key | key in base.Keys + overlay.Keys ::
        if key in overlay && Takes(base, overlay, key) then overlay[key] else base[key])
  }

  /** The overlays applied left to right, each seeing the previous result. */
  function MergeAll(base: Table, overlays: seq<Table>): Result<Table, MergeError>
    decreases |overlays|
  {
    if overlays == [] then Ok(base)
    else match MergeOne(base, overlays[0])
      case Err(e) => Err(e)
      case Ok(b) => MergeAll(b, overlays[1..])
  }

  /** `mergeSoundsJson(base, ...merger)`: nested loops over the overlays and
      their keys that update `base` key by key. */
  method MergeSoundsJson(base: Table, merger: seq<Table>) returns (r: Result<Table, MergeError>)
    ensures r.Ok? <==> MergeAll(base, merger).Ok?
    ensures r.Ok? ==> r == MergeAll(base, merger)
  {
    var current := base;
    var i := 0;
    while i < |merger|
      invariant 0 <= i <= |merger|
      invariant MergeAll(base, merger) == MergeAll(current, merger[i..])
    {
      var overlay := merger[i];
      var before := current;
      var todo := overlay.Keys;
      while todo != {}
        invariant todo <= overlay.Keys
        invariant forall k :: k in overlay && k !in todo ==> !Throws(before, overlay, k)
        invariant current.Keys == before.Keys + (overlay.Keys - todo)
        invariant forall k :: k in current ==>
          current[k] == if k in overlay && k !in todo && Takes(before, overlay, k) then overlay[k] else before[k]
        decreases todo
      {
        var key :| key in todo;
        assert key in current <==> key in before;
        if key !in current || overlay[key].replace == Some(Bool(true)) {
          current := current[key := overlay[key]];
        } else if current[key].sounds.None? {
          assert Throws(before, overlay, key);
          assert MergeOne(before, overlay).Err?;
          assert merger[i..][0] == overlay;
          return Err(SoundsUndefined);
        }
        todo := todo - {key};
      }
      assert !exists k :: k in overlay && Throws(before, overlay, k);
      ghost var merged := map key | key in before.Keys + overlay.Keys ::
        if key in overlay && Takes(before, overlay, key) then overlay[key] else before[key];
      assert merged.Keys == current.Keys;
      assert forall k :: k in current ==> current[k] == merged[k];
      assert current == merged;
      assert MergeOne(before, overlay) == Ok(current);
      assert merger[i..][0] == overlay && merger[i..][1..] == merger[i + 1..];
      i := i + 1;
    }
    assert merger[i..] == [];
    r := Ok(current);
  }

  /** A key the base lacks gets the overlay entry. */
  lemma MergeAbsentKey(base: Table, overlay: Table, key: string)
    requires key in overlay && key !in base && MergeOne(base, overlay).Ok?
    ensures key in MergeOne(base, overlay).value && MergeOne(base, overlay).value[key] == overlay[key]
  {
  }

  /** An overlay entry whose `replace` is strictly `true` replaces the base
      entry wholesale. */
  lemma MergeReplace(base: Table, overlay: Table, key: string)
    requires key in overlay && overlay[key].replace == Some(Bool(true))
    requires MergeOne(base, overlay).Ok?
    ensures key in MergeOne(base, overlay).value && MergeOne(base, overlay).value[key] == overlay[key]
  {
  }

  /** Otherwise the base entry is left exactly as it was: its `sounds` are
      NOT extended by the overlay's, because the `concat` result is
      discarded. */
  lemma MergeKeepsBaseEntry(base: Table, overlay: Table, key: string)
    requires key in overlay && key in base && overlay[key].replace != Some(Bool(true))
    requires MergeOne(base, overlay).Ok?
    ensures MergeOne(base, overlay).value[key] == base[key]
  {
  }

  /** The merge fails exactly when some key falls to the `concat` branch
      with a base entry that has no `sounds`. */
  lemma MergeFails(base: Table, overlay: Table)
    ensures MergeOne(base, overlay).Err? <==> exists key :: key in overlay && Throws(base, overlay, key)
  {
  }

  /** The result has the keys of the base and of the overlay; keys the
      overlay does not mention keep their base entry. */
  lemma MergeKeys(base: Table, overlay: Table, key: string)
    requires MergeOne(base, overlay).Ok?
    ensures MergeOne(base, overlay).value.Keys == base.Keys + overlay.Keys
    ensures key in base && key !in overlay ==> MergeOne(base, overlay).value[key] == base[key]
  {
  }

  /** Merging with `xs` and then with `ys` is merging with `xs + ys`. */
  lemma {:induction false} MergeAllAppend(base: Table, xs: seq<Table>, ys: seq<Table>)
    decreases |xs|
    ensures MergeAll(base, xs + ys) ==
      match MergeAll(base, xs)
      case Err(e) => Err(e)
      case Ok(b) => MergeAll(b, ys)
  {
    if xs != [] {
      assert (xs + ys)[0] == xs[0] && (xs + ys)[1..] == xs[1..] + ys;
      match MergeOne(base, xs[0])
      case Err(_) =>
      case Ok(b) => MergeAllAppend(b, xs[1..], ys);
    } else {
      assert xs + ys == ys;
    }
  }

  // ---------------------------------------------------------------------
  // getEmptySoundEntry

  /** `getEmptySoundEntry(soundsJson)` over the keys in `Object.keys`
      order. The filter callback returns the ARRAY
      `sounds.filter(sound => !sound['name'])`, and an array is truthy even
      when empty, so every key is kept; a missing `sounds` throws. */
  function GetEmptySoundEntry(table: Table, keys: seq<string>): (r: Result<seq<string>, string>)
    requires forall i :: 0 <= i < |keys| ==> keys[i] in table
    ensures r.Err? <==> exists i :: 0 <= i < |keys| && table[keys[i]].sounds.None?
    ensures r.Err? ==> exists i :: (0 <= i < |keys| && keys[i] == r.error && table[keys[i]].sounds.None?
      && forall j :: 0 <= j < i ==> table[keys[j]].sounds.Some?)
    ensures r.Ok? ==> r.value == keys
    decreases |keys|
  {
    if keys == [] then Ok([])
    else if table[keys[0]].sounds.None? then Err(keys[0])
    else match GetEmptySoundEntry(table, keys[1..])
      case Err(k) => Err(k)
      case Ok(rest) => Ok([keys[0]] + rest)
  }

  /** `!sound['name']`: the element has no truthy `name`; a bare string
      has no `name` property, so it counts as unnamed too. */
  predicate Unnamed(e: SoundEntry) {
    !Truthy(Prop(e, "name"))
  }

  /** A concrete consequence: a table whose only entry has a named sound is
      still reported, so the download that waits for an empty report is
      refused; the intended scan reports nothing. */
  lemma EmptySoundEntryReportsNamedEntry()
    ensures var table := map["a" := Sounds(Some([Obj(map["name" := Str("x")])]), None, None)];
      GetEmptySoundEntry(table, ["a"]) == Ok(["a"]) && EmptySoundEntries(table, ["a"]) == Ok([])
  {
    var table := map["a" := Sounds(Some([Obj(map["name" := Str("x")])]), None, None)];
    var e := Obj(map["name" := Str("x")]);
    assert Prop(e, "name") == Some(Str("x"));
    assert !Unnamed(e);
    assert !HasUnnamedSound(table["a"]);
  }


  predicate HasUnnamedSound(s: Sounds)
    requires s.sounds.Some?
  {
    exists i :: 0 <= i < |s.sounds.value| && Unnamed(s.sounds.value[i])
  }

  /** The scan as evidently intended, `.some(...)` in place of the inner
      `.filter(...)`: the entries holding an unnamed sound, in key order;
      a missing `sounds` still throws, at the first such key. */
  function EmptySoundEntries(table: Table, keys: seq<string>): (r: Result<seq<string>, string>)
    requires forall i :: 0 <= i < |keys| ==> keys[i] in table
    ensures r.Err? <==> exists i :: 0 <= i < |keys| && table[keys[i]].sounds.None?
    ensures r.Err? ==> exists i :: (0 <= i < |keys| && keys[i] == r.error && table[keys[i]].sounds.None?
      && forall j :: 0 <= j < i ==> table[keys[j]].sounds.Some?)
    ensures r.Ok? ==> forall k :: k in r.value <==> k in keys && HasUnnamedSound(table[k])
    ensures r.Ok? ==> |r.value| <= |keys|
    decreases |keys|
  {
    if keys == [] then Ok([])
    else if table[keys[0]].sounds.None? then Err(keys[0])
    else
      var rest := EmptySoundEntries(table, keys[1..]);
      assert forall k :: k in keys <==> k == keys[0] || k in keys[1..];
      match rest
      case Err(k) =>
        var i :| 0 <= i < |keys[1..]| && keys[1..][i] == k && table[keys[1..][i]].sounds.None?
          && forall j :: 0 <= j < i ==> table[keys[1..][j]].sounds.Some?;
        assert keys[i + 1] == k;
        Err(k)
      case Ok(r) => if HasUnnamedSound(table[keys[0]]) then Ok([keys[0]] + r) else Ok(r)
  }

  // ---------------------------------------------------------------------
  // getMCAssetsJsonAsync: choosing the version entry of the manifest

  datatype ManifestVersion = ManifestVersion(id: string, url: string)

  /** The local `versJsonUri`: `'latest'` stands for `latest.release`, and
      the `forEach` overwrites the choice at every matching entry, so the
      last match wins; `undefined` when none matches. */
  method PickVersionUrl(mcVersion: string, latestRelease: string, versions: seq<ManifestVersion>)
    returns (url: Option<string>)
    ensures var target := if mcVersion == "latest" then latestRelease else mcVersion;
      && (url.None? <==> forall i :: 0 <= i < |versions| ==> versions[i].id != target)
      && (url.Some? ==> exists i :: (0 <= i < |versions| && versions[i].id == target
            && versions[i].url == url.value
            && forall j :: i < j < |versions| ==> versions[j].id != target))
  {
    var target := if mcVersion == "latest" then latestRelease else mcVersion;
    url := None;
    ghost var at := -1;
    for n := 0 to |versions|
      invariant url.None? <==> forall i :: 0 <= i < n ==> versions[i].id != target
      invariant url.Some? ==> 0 <= at < n && versions[at].id == target && versions[at].url == url.value
      invariant url.Some? ==> forall j :: at < j < n ==> versions[j].id != target
    {
      if versions[n].id == target {
        url := Some(versions[n].url);
        at := n;
      }
    }
  }
}
