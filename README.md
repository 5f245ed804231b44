# ExtraSounds resource-pack editor — a Dafny model

The ExtraSounds resource-pack editor is a browser application. It lets a
player build a Minecraft resource pack for the ExtraSounds mod:

- The pack's `sounds.json` maps entry names to lists of sounds. Each sound is
  a bare file name or an object with `name`, `volume`, `pitch`, `type`, ….
- The editor merges the mod's own sound table with one generated for the
  targeted Minecraft version.
- It lets the user copy, rename, add and delete entries and sounds, and edit
  their properties.
- It plays a sound by resolving an event name down to an `.ogg` file. That
  file comes either from the Minecraft asset index (addressed by hash) or
  from the pack's zip.
- It keeps the pack's `pack_format` in step with the Minecraft version
  through a version → format table.
- A small PHP proxy (`curl.php`) forwards only `https` URLs, and only for
  requests whose referer has the host's own origin.

This project models that core as Dafny code and proves properties of it.
There is one module per source file:

| module | file | content |
|---|---|---|
| `Globals` | `globals.dfy` | the state holder and the sound resolver |
| `MinecraftAssets` | `minecraft_assets.dfy` | merge, resource URI, empty-entry scan, manifest pick |
| `MinecraftResPack` | `minecraft_res_pack.dfy` | the pack-format table and the `ResPack` class |
| `Versions` | `versions.dfy` | the numeric version order and `versionSort` |
| `ExtraSounds` | `extra_sounds.dfy` | tag parsing, revision lookups, playback clamps |
| `MathHelper` | `math_helper.dfy` | clamp |
| `Arrays` | `arrays.dfy` | `unique` and `sortedUnique` |
| `EditScreen` | `edit_screen.dfy` | the table-editing handlers |
| `SoundEntryEditor` | `sound_entry_editor.dfy` | per-entry editor state |
| `SoundEntryVisualizer` | `sound_entry_visualizer.dfy` | search and grouping |
| `Curl` | `curl.dfy` | the proxy's request gate |

Shared helpers live in `Wrappers` (Option and Result), `Strs` (split, join,
replace-first, prefix tests) and `Sorting` (the stable insertion sort that
stands for `Array.prototype.sort`).

How the source's features are represented:

- Pure expressions are functions.
- Code that mutates fields or loops step by step is modelled as classes and
  methods: `Globals.StateHandler`, `MinecraftResPack.ResPack`,
  `ExtraSounds.Revisions`, `EditScreen.ScreenState`,
  `SoundEntryEditor.EntryEditor`, `SoundEntryVisualizer.VisualizerState`,
  and the loops in `MergeSoundsJson`, `PickVersionUrl`,
  `FindFirstNotAbove`, `FetchTagRevisions`, `Curl.CheckRequest`, ….
- `Math.random` is replaced by an explicit sequence of draws. Nothing
  restricts a draw to `[0, 1)`, the range `Math.random` keeps to: a draw
  whose index falls outside the entry's list gives `NothingPicked`.
  Each event pick consumes one draw, so the resolver terminates. It returns
  `DrawsExhausted` when a cycle of event references outlives the draws.
- Volume and pitch are reals.
- The Minecraft version sentinel is a constructor `Latest` of `McVersion`,
  distinct from every real version `Named(s)`.

## Model

| member | source | states |
|---|---|---|
| MathHelper.Clamp | src/util/math_helper.js:12-14 | above max gives max; within [min, max] gives the input; below min (and not above max) gives min; with min ≤ max the result lies in [min, max]; the result is one of input, min, max |
| MathHelper.ClampIdempotent | src/util/math_helper.js:12-14 | with min ≤ max, clamping twice equals clamping once |
| MathHelper.ClampInvertedBounds | src/util/math_helper.js:12-14 | with min > max the max test comes first: above max gives max, otherwise min |
| Arrays.Unique | src/util/arrays.js:10-12 | every argument appears in the result and every result element is an argument, each exactly once, and the result is no longer than the arguments |
| Arrays.UniqueFirstOccurrenceOrder | src/util/arrays.js:10-12 | the result lists the distinct arguments in order of first occurrence |
| Arrays.FirstIndexPrefix | src/util/arrays.js:10-12 | the first occurrence of a value in a prefix that holds it is its first occurrence in the whole list |
| Arrays.UpperCaseSorted | src/util/arrays.js:14-16 | the upper-cased comparator sort is a permutation whose neighbours are in upper-cased order |
| Arrays.SortedUniqueProperties | src/util/arrays.js:14-16 | `sortedUnique` over the intended element list: same elements as `unique` (as a multiset), exactly the argument values, distinct, in upper-cased order, no longer than the arguments |
| Arrays.SortedUniqueOfOneArray | src/util/arrays.js:10-16 | called with one array (as at src/util/globals.js:105), the rest parameter wraps it: the result is the one-element list holding that array |
| Arrays.DistinctOnce | src/util/arrays.js:10-12 | a list without repeats holds each value at most once as a multiset |
| Collation.CompareDigitRuns | src/util/versions.js:11 | with `{ numeric: true }`, two strings that agree up to a run of digits compare as the values of those runs, whatever follows ("1.9.0-1.19.2" before "1.10.0-1.19.2") |
| Collation.NumericKeyAppend | src/util/versions.js:11 | the numeric sort key of a concatenation cut outside a run of digits is the concatenation of the keys |
| Versions.DotKey | src/util/versions.js:11 | a numeral followed by `.` contributes its value as one unit of the key |
| Versions.JoinKey | src/util/versions.js:11 | the key of a dotted-decimal version is the key built from its components |
| Versions.LexCompareDottedKey | src/util/versions.js:11 | comparing the keys of two component lists compares the lists |
| Versions.CompareDotted | src/util/versions.js:11 | two dotted-decimal versions compare as their component sequences, lexicographically, a proper prefix first |
| Versions.CompareAntisymmetric | src/util/versions.js:11 | swapping the operands of the comparison negates it |
| Versions.CompareTransitive | src/util/versions.js:11 | the comparison is transitive |
| Versions.BeforeTotalOrder | src/util/versions.js:11 | the comparator handed to `sort` is total and transitive in both directions |
| Versions.VersionSortPermutation | src/util/versions.js:10-12 | the sorted copy is a permutation of the input |
| Versions.VersionSortOrdered | src/util/versions.js:10-12 | descending: each element is at least its successor; ascending: at most |
| Versions.VersionSortFirstIsMax | src/util/versions.js:10-12 | the first element of the descending sort of a non-empty list is an element that is at least every element |
| Versions.VersionSortDescending | src/util/versions.js:10-12 | in the descending sort an element is at least every element after it |
| Versions.VersionSortSameElements | src/util/versions.js:10-12 | the sort keeps exactly the input's elements |
| MinecraftAssets.ResourceUriShape | src/model/minecraft_assets.js:12-25 | `getResourceUri(h)` is the resources host, the first two characters of h (all of h when shorter), `/`, then h |
| MinecraftAssets.MergeSoundsJson | src/model/minecraft_assets.js:74-85 | the key-by-key loop over the overlays fails or succeeds as the fold `MergeAll` does and yields its table |
| MinecraftAssets.MergeAbsentKey | src/model/minecraft_assets.js:77-78 | an overlay key missing from the base maps to the overlay entry |
| MinecraftAssets.MergeReplace | src/model/minecraft_assets.js:77-78 | an overlay entry whose `replace` is strictly `true` replaces the base entry wholesale |
| MinecraftAssets.MergeKeepsBaseEntry | src/model/minecraft_assets.js:79-81 | otherwise the base entry is left as it was: the concatenation is discarded |
| MinecraftAssets.MergeFails | src/model/minecraft_assets.js:79-81 | the merge throws exactly when an overlay key it does not take meets a base entry without `sounds` to call `concat` on |
| MinecraftAssets.MergeKeys | src/model/minecraft_assets.js:75-78 | the merged keys are the union of base and overlay keys; keys in no overlay keep their base entry |
| MinecraftAssets.MergeAllAppend | src/model/minecraft_assets.js:75-76 | overlays apply left to right: merging `xs + ys` is merging `xs`, then `ys` into the result |
| MinecraftAssets.GetEmptySoundEntry | src/model/minecraft_assets.js:93-97 | as written: fails exactly when some entry lacks `sounds`, at the first such key; otherwise reports every key, in order |
| MinecraftAssets.EmptySoundEntryReportsNamedEntry | src/model/minecraft_assets.js:93-97 | a table whose only sound is named is reported as written; the corrected scan reports nothing |
| MinecraftAssets.EmptySoundEntries | src/model/minecraft_assets.js:93-97 | corrected scan (`.some`): fails at the first key without `sounds`, and only if one exists; otherwise reports exactly the keys holding an unnamed sound |
| MinecraftAssets.PickVersionUrl | src/model/minecraft_assets.js:37-46 | `'latest'` means `latest.release`; the URL is that of the last manifest entry with the wanted id, none if no entry has it |
| MinecraftResPack.FirstWhere | src/model/minecraft_res_pack.js:179-185 | the first index from i whose version satisfies the test, or the length |
| MinecraftResPack.FindFirstNotAbove | src/model/minecraft_res_pack.js:177-185 | the loop with `break` stops at the first version in the sorted list that the target is not below |
| MinecraftResPack.RetrievePackFormatFromMCVer | src/model/minecraft_res_pack.js:176-187 | returns the lookup `PackFormatFor`: exact key, else nearest lower known version, else 0 |
| MinecraftResPack.PackFormatAtFirst | src/model/minecraft_res_pack.js:177-185 | without an exact key, the format is that of the first version in descending order not above the target |
| MinecraftResPack.PackFormatForCases | src/model/minecraft_res_pack.js:176-187 | exact match gives the table value; otherwise the greatest known version not above the target gives it; with none, 0 |
| MinecraftResPack.GetLatestMCVer | src/model/minecraft_res_pack.js:198-200 | none exactly for an empty table; otherwise a known version at least every known version |
| MinecraftResPack.LatestFormatIsNewest | src/model/minecraft_res_pack.js:169-174 | the sentinel resolves to the format of the newest known version, and 0 for an empty table |
| MinecraftResPack.VersionForFormatLastMatch | src/model/minecraft_res_pack.js:154-162 | the reverse lookup gives the last key (in key order) with the format, or the sentinel when none has it |
| MinecraftResPack.FormatVersionRoundTrip | src/model/minecraft_res_pack.js:154-187 | a version found by the reverse lookup maps back to the same format |
| MinecraftResPack.ResPack.constructor | src/model/minecraft_res_pack.js:19-41 | a new pack has `pack_format` 0, version the sentinel, an empty sound table and an empty zip |
| MinecraftResPack.ResPack.GetMCVerFromPackFormat | src/model/minecraft_res_pack.js:154-162 | the `forEach` loop returns the reverse lookup of the stored `pack_format` |
| MinecraftResPack.ResPack.GetMCVer | src/model/minecraft_res_pack.js:129-138 | a falsy `x_mc_version` falls back to the reverse lookup; the sentinel gives the latest version; otherwise the stored version |
| MinecraftResPack.ResPack.SetMCVer | src/model/minecraft_res_pack.js:145-147 | sets `x_mc_version` and nothing else |
| MinecraftResPack.ResPack.SetPackFormatFromMCVer | src/model/minecraft_res_pack.js:169-174 | sets `pack_format` to the lookup of the sentinel-resolved version and changes nothing else |
| MinecraftResPack.ResPack.CheckExactPackFormat | src/model/minecraft_res_pack.js:207-214 | true exactly when the stored `pack_format` equals the lookup for the sentinel-resolved version |
| ExtraSounds.PlaybackVolume | src/model/extra_sounds.js:45 | the volume is clamped into [0, 1] |
| ExtraSounds.PlaybackRate | src/model/extra_sounds.js:46 | the rate is clamped into [0.1, 2.0] |
| ExtraSounds.DigitRun | src/model/extra_sounds.js:14-17 | the longest run of digits starting at i |
| ExtraSounds.FirstMatch | src/model/extra_sounds.js:64-66 | the leftmost position where the pattern matches, with its end, or none when it matches nowhere |
| ExtraSounds.MatchIsDotted | src/model/extra_sounds.js:14-17 | a match of the pattern is a dotted-decimal version with the pattern's number of components |
| ExtraSounds.FirstMatchLeftmost | src/model/extra_sounds.js:64-66 | the match found is the leftmost one: no earlier position matches, and none is found only when no position matches |
| ExtraSounds.TagMCVersionLeftmost | src/model/extra_sounds.js:64-71 | the version is the text of the leftmost match of `\d+\.\d+\.\d+` when the tag has one, else that of the leftmost match of `\d+\.\d+`; none exactly when neither pattern matches |
| ExtraSounds.TagMCVersionDotted | src/model/extra_sounds.js:64-71 | the version taken from a tag is a dotted-decimal version of 3 or 2 components |
| ExtraSounds.KeptRevisions | src/model/extra_sounds.js:59-73 | the kept revisions are at most as many as the tags |
| ExtraSounds.KeptRevisionsDotted | src/model/extra_sounds.js:59-73 | every kept revision has a dotted version, and every tag is kept when every tag matches |
| ExtraSounds.KeptRevisionsSnoc | src/model/extra_sounds.js:59-73 | tags are kept in input order: one more tag appends its revision exactly when it matches |
| ExtraSounds.Revisions.constructor | src/model/extra_sounds.js:33 | the revision list starts empty |
| ExtraSounds.Revisions.PushTag | src/model/extra_sounds.js:60-72 | one tag appends its revision to the list exactly when its name matches, and nothing otherwise |
| ExtraSounds.Revisions.FetchTagRevisions | src/model/extra_sounds.js:55-76 | appends the kept revisions to the list (never cleared) and returns the whole list |
| ExtraSounds.CompatMCVerLastMatch | src/model/extra_sounds.js:111-120 | the compatible version is that of the last revision with the tag, the sentinel when none has it |
| ExtraSounds.CompatMCVer | src/model/extra_sounds.js:111-120 | the sentinel is returned exactly when no revision has the tag |
| ExtraSounds.Revisions.GetCompatMCVer | src/model/extra_sounds.js:111-120 | the `forEach` loop returns that lookup |
| ExtraSounds.TagsFor | src/model/extra_sounds.js:128-129 | exactly the tags of the revisions for the Minecraft version |
| ExtraSounds.Revisions.GetLatestRevFromMCVer | src/model/extra_sounds.js:127-131 | `'dev'` when no revision targets the version; otherwise one of their tags that is at least all of them in the numeric order |
| Globals.QualifiedName | src/util/globals.js:194-196 | `ns:path` splits back into ns and path and names the file `ns/sounds/path.ogg` |
| Globals.Locate | src/util/globals.js:217-232 | a file name keeps volume and pitch; it goes to the vanilla index exactly when `<ns>/sounds/<path>.ogg` is in it, else to `assets/` + that file in the zip; without an index it rejects |
| Globals.EventTableByNamespace | src/util/globals.js:191-199 | the event table is the vanilla one for the `minecraft` namespace, written or implied, the mod table of any other known namespace, and none for an unknown one |
| Globals.Resolve | src/util/globals.js:189-233 | a resolved file is located: in the vanilla index, or in the zip under `assets/` when the index lacks it; a non-event name resolves as `Locate` does; running out of draws happens only for events; an unknown namespace rejects |
| Globals.EventEntries | src/util/globals.js:191-199 | the vanilla table for `minecraft:` or colon-free names, the mod table under the namespace otherwise; an unknown namespace, entry or missing `sounds` rejects |
| Globals.ResolvePicked | src/util/globals.js:202-216 | a picked bare string plays that file at the volume and pitch asked; a picked file object plays the file it names with volume and pitch multiplied by its own factors only where they are truthy; a resolved element is located; an element with no string name rejects |
| Globals.ResolveThroughPick | src/util/globals.js:197-201 | an event resolves through the element its first draw picks, with the remaining draws |
| Globals.ResolveAlongChain | src/util/globals.js:189-216 | along a chain of event references, one draw per link, resolving the first name ends as the last pick resolves, with volume and pitch multiplied by the `?? 1` factors of every event passed through |
| Globals.ChainEndsAtFile | src/util/globals.js:189-216 | a chain of event references ending at a bare string or a file object plays that file, with volume and pitch multiplied by the `?? 1` factors of every event passed through and then by the file object's truthy factors |
| Globals.ModEventLookup | src/util/globals.js:191-199 | a non-`minecraft` event uses its namespace's table; an unknown namespace or entry rejects |
| Globals.ZeroVolumeFactor | src/util/globals.js:205-212 | an event object with volume 0 silences its target (`??` keeps 0); a file object with volume 0 keeps the volume (0 is falsy) |
| Globals.SelfStep | src/util/globals.js:197-207 | one pick of an entry whose only sound is an event naming itself leads back to that entry with volume and pitch unchanged and one draw fewer |
| Globals.SelfReferenceNeverResolves | src/util/globals.js:204-207 | with no visited set, an event whose only sound is itself as an event is followed until the draws run out |
| Globals.IsEventAgreesWithLocate | src/util/globals.js:241-251 | `isEventSoundName` is false exactly when the resolver finds the `.ogg`: in the vanilla index for `minecraft`, in the zip for a file of another namespace that the index lacks |
| Globals.GetAssetHash | src/util/globals.js:121-127 | the hash of the index entry, none exactly when the index, the entry or its hash is missing |
| Globals.PlayTarget | src/util/globals.js:154-178 | playback is clamped; a vanilla file plays from the hash URI exactly when it has a hash; a zip file plays exactly when the zip holds it |
| Globals.FilterAssetObjects | src/util/globals.js:70-74 | keeps exactly the `.ogg` keys not under `minecraft/sounds/music/`, with their objects |
| Globals.FilterVanillaSounds | src/util/globals.js:81-85 | drops exactly the keys starting with `music.` or `music_disc.` |
| Globals.Prefixed | src/util/globals.js:98-101 | each key with the prefix, in order |
| SoundsJson.KeysOf | src/util/globals.js:70 | `Object.keys`: each key of the object exactly once |
| Globals.AssetSoundNames | src/util/globals.js:102-103 | each asset key through its two replacements, in order |
| Globals.AssetSoundNameShape | src/util/globals.js:102-103 | `minecraft/sounds/p.ogg` becomes `minecraft:p` |
| Globals.ListedFileIsNotEvent | src/util/globals.js:102-103 | a listed vanilla file name is not an event and resolves, as a file, to its vanilla asset |
| Globals.NameListMembers | src/util/globals.js:98-109 | the concatenated name list holds exactly the prefixed ExtraSounds keys, the prefixed vanilla keys and the file names |
| Globals.BuildNameLists | src/util/globals.js:97-112 | as written: the name list is one element, the whole concatenated list (neither sorted nor de-duplicated); the ExtraSounds keys each once in upper-cased order |
| Globals.IntendedNameList | src/util/globals.js:105-109 | the evidently intended list: exactly the three kinds of names, each once, in upper-cased order |
| Globals.RunRefresh | src/util/globals.js:64-113 | the three refresh tasks and the name lists: the new state is related to the old by `Refreshed` |
| Globals.StateHandler.constructor | src/util/globals.js:15-30 | the fields start empty |
| Globals.StateHandler.ClearProject | src/util/globals.js:48-57 | resets every field to empty |
| Globals.StateHandler.RefreshJson | src/util/globals.js:64-113 | version from `pack_format`; filtered index and vanilla table; merged ExtraSounds table; success exactly when index and merge are there, then the name lists built as written; on failure they are kept; without a pack nothing changes |
| Globals.StateHandler.CreateProject | src/util/globals.js:39-43 | stores pack and version, then refreshes as `RefreshJson` does |
| Globals.StateHandler.RetargetPack | src/util/globals.js:135-145 | stores the ExtraSounds version first; without a pack it then fails, changing nothing else; otherwise moves the pack's `pack_format` to the compatible version's format, leaving its version, sounds and files as they were, then refreshes as `RefreshJson` does |
| EditScreen.CopyIn | src/screen/edit_screen.jsx:157-168 | an entry absent here and present in the source is copied in with `replace = true`; otherwise no change; other keys unchanged |
| EditScreen.DeleteEntry | src/screen/edit_screen.jsx:182-191 | exactly that key is removed, an absent key being a no-op |
| EditScreen.RenameEntry | src/screen/edit_screen.jsx:199-209 | no-op when `before` is absent or equals `after`; otherwise `after` takes `before`'s entry and `before` is gone |
| EditScreen.CheckEntryName | src/screen/edit_screen.jsx:217-219 | true exactly when the name is an entry |
| EditScreen.AddEntry | src/screen/edit_screen.jsx:254-262 | the name maps to one blank sound, overwriting; other keys unchanged |
| EditScreen.RemoveSound | src/screen/edit_screen.jsx:286-297 | removes the sound at the index; a missing entry, `sounds` or index changes nothing |
| EditScreen.SoundAdded | src/screen/edit_screen.jsx:269-278 | a missing entry is left alone; an entry without `sounds` fails; otherwise the entry gains one sound and nothing else changes |
| EditScreen.EditedSound | src/screen/edit_screen.jsx:236-245 | a bare string becomes `{name}`; null deletes the property, another value sets it; other properties kept |
| EditScreen.ValueChanged | src/screen/edit_screen.jsx:231-247 | only the addressed entry can change; an address that does not exist changes nothing; otherwise the addressed sound holds the property as set |
| EditScreen.ScreenState.constructor | src/screen/edit_screen.jsx:61-65 | the table starts as given, nothing selected, dialog closed |
| EditScreen.ScreenState.SourceItemClick | src/screen/edit_screen.jsx:157-169 | copies the entry in when the pack lacks it and ExtraSounds has it; otherwise selects the entry |
| EditScreen.ScreenState.EditableValueChange | src/screen/edit_screen.jsx:231-247 | the table becomes the value change applied to it |
| EditScreen.ScreenState.AddSoundToEntry | src/screen/edit_screen.jsx:269-278 | the table becomes `SoundAdded` of it; a failure leaves it as it was |
| EditScreen.ScreenState.PackDownload | src/screen/edit_screen.jsx:95-106 | as written: downloads exactly when the table is empty, storing it in the pack; a non-empty table whose entries all have `sounds` selects one of its keys; an entry without `sounds` changes nothing |
| EditScreen.ScreenState.RetargetDlgClose | src/screen/edit_screen.jsx:113-124 | closes the dialog; retargets exactly when a version other than the current one is chosen |
| EditScreen.DeleteUndoesCopyIn | src/screen/edit_screen.jsx:157-191 | deleting what was copied in restores the table |
| EditScreen.DeleteIdempotent | src/screen/edit_screen.jsx:182-191 | deleting twice is deleting once |
| EditScreen.RenameBack | src/screen/edit_screen.jsx:199-209 | renaming to a free name and back restores the table |
| EditScreen.CheckEntryNameAfterEdits | src/screen/edit_screen.jsx:199-262 | after adding, the name exists; after deleting, it does not; after renaming, only the new name exists; every other name is reported as before |
| EditScreen.RemoveUndoesAddSound | src/screen/edit_screen.jsx:269-297 | adding a sound to an entry with `sounds` succeeds, appends a blank sound, and removing it restores the table |
| EditScreen.ValueChangedEffect | src/screen/edit_screen.jsx:231-247 | only the addressed sound changes, as `EditedSound` says; repeating the change changes nothing more |
| SoundEntryEditor.EntryEditor.constructor | src/components/sound_entry_editor.jsx:37-47 | five arrays of the sounds' length: name (string or `.name`), volume and pitch `?? 1`, event flag, loop flags false |
| SoundEntryEditor.EntryEditor.CheckEntryName | src/components/sound_entry_editor.jsx:49-85 | duplicate is false for the original name, else the callback's answer; empty exactly for length 0; valid exactly when neither |
| SoundEntryEditor.EntryEditor.HandleEntryNameChange | src/components/sound_entry_editor.jsx:87-92 | the rename fires exactly for a present, valid name with a callback; the editor closes in every case |
| SoundEntryEditor.EntryEditor.HandleSoundNameChange | src/components/sound_entry_editor.jsx:113-139 | null becomes `''`; an `extrasounds:` event naming this entry sets the loop flag and emits nothing; otherwise a `name` change is emitted |
| SoundEntryEditor.EntryEditor.HandleVolumeChange | src/components/sound_entry_editor.jsx:141-147 | sets one volume, lengths kept |
| SoundEntryEditor.EntryEditor.HandlePitchChange | src/components/sound_entry_editor.jsx:149-155 | sets one pitch, lengths kept |
| SoundEntryEditor.EntryEditor.HandleSoundTypeChange | src/components/sound_entry_editor.jsx:157-164 | sets the flag and emits `'event'` when checked, null otherwise |
| SoundEntryEditor.EntryEditor.HandleAddSound | src/components/sound_entry_editor.jsx:183-193 | forwards the entry name when the callback is given; appends `''`, 1, 1, false, false: the arrays stay equal in length |
| SoundEntryEditor.EntryEditor.HandleRemoveSound | src/components/sound_entry_editor.jsx:195-219 | forwards the entry name and index when the callback is given; removes the same index from all five arrays |
| SoundEntryEditor.RemoveAt | src/components/sound_entry_editor.jsx:199-218 | the list without the element at the index; unchanged for an index past the end |
| SoundEntryEditor.RemoveAtUndoesAppend | src/components/sound_entry_editor.jsx:183-219 | removing the last appended element restores the list |
| SoundEntryEditor.SelfReferenceDetected | src/components/sound_entry_editor.jsx:126-137 | `extrasounds:<entry>` passes the guard's test and names this entry in the resolver's reading |
| SoundEntryVisualizer.Targets | src/components/sound_entry_visualizer.jsx:123 | exactly the keys starting with a non-empty filter, or all non-empty keys |
| SoundEntryVisualizer.InputSeq | src/components/sound_entry_visualizer.jsx:124 | the number of `.` in the filter |
| SoundEntryVisualizer.Label | src/components/sound_entry_visualizer.jsx:126-127 | the first `inputSeq + 1` dot-segments of the key |
| SoundEntryVisualizer.Labels | src/components/sound_entry_visualizer.jsx:125-128 | exactly the labels of the targets with a non-empty segment at the grouping depth |
| SoundEntryVisualizer.ObjectRenderer | src/components/sound_entry_visualizer.jsx:122-144 | collapsed exactly when targets exceed the limit (20 by default); as written, one suggestion holding every groupable label (none for a limit of 0) and the count of targets; otherwise the targets listed |
| SoundEntryVisualizer.SuggestionDeepens | src/components/sound_entry_visualizer.jsx:124-137 | as evidently intended, with one string per suggestion: clicking a suggestion that is itself a target filters to that entry, by the key's first segments; clicking another one appends `.`, so the list groups one segment deeper by the key's own segments |
| SoundEntryVisualizer.CollapsedAsWritten | src/components/sound_entry_visualizer.jsx:125-133 | as written, the one-array call wraps the labels: one suggestion holding them all, none for a limit of 0 |
| SoundEntryVisualizer.CollapsedAsWrittenLosesGroups | src/components/sound_entry_visualizer.jsx:125-133 | two labels give one suggestion as written and two as intended |
| SoundEntryVisualizer.SuggestionFilterAsWritten | src/components/sound_entry_visualizer.jsx:137 | as written, the suggestion is the label array, never among the string targets, so the filter is its labels joined by `,` and a `.`: one label gives that label and `.`, two or more put a `,` after the first |
| SoundEntryVisualizer.SuggestionClickEmptiesList | src/components/sound_entry_visualizer.jsx:124-137 | as written, when two or more labels are collapsed into the one suggestion, clicking it lists no entry, whether or not the handler appends `.`, for entry names without `,` |
| SoundEntryVisualizer.IntendedSuggestionsProperties | src/components/sound_entry_visualizer.jsx:125-133 | the evidently intended suggestions: distinct labels in upper-cased order, as many as the limit allows, and every label left out sorts after every label shown |
| SoundEntryVisualizer.VisualizerState.constructor | src/components/sound_entry_visualizer.jsx:41-44 | empty filter, nothing open, dialog closed |
| SoundEntryVisualizer.VisualizerState.RequestFilter | src/components/sound_entry_visualizer.jsx:46-51 | a requested filter sets the filter and opens that entry |
| SoundEntryVisualizer.VisualizerState.HandleSearchFilterSuggest | src/components/sound_entry_visualizer.jsx:57-62 | re-suggesting the current filter appends `.`; any other value replaces it |
| SoundEntryVisualizer.VisualizerState.HandleAccordionClick | src/components/sound_entry_visualizer.jsx:69-75 | clicking the open entry closes it; another one opens it |
| SoundEntryVisualizer.VisualizerState.HandleSearchEntry | src/components/sound_entry_visualizer.jsx:82-84 | the typed text becomes the filter |
| SoundEntryVisualizer.VisualizerState.HandleDialogOpen | src/components/sound_entry_visualizer.jsx:89-93 | the dialog opens only when entries can be added |
| SoundEntryVisualizer.VisualizerState.HandleAddEntry | src/components/sound_entry_visualizer.jsx:100-105 | closes the dialog; adds exactly a non-empty name when allowed |
| SoundEntryVisualizer.VisualizerState.HandleNewEntryName | src/components/sound_entry_visualizer.jsx:112-115 | invalid exactly when empty or already an entry |
| Curl.DefaultPort | backend/curl.php:32-37 | '443' for https, '80' otherwise, as strings |
| Curl.HostOrigin | backend/curl.php:21-34 | scheme defaults to https exactly when HTTPS or X-Forwarded-SSL is set; a missing host is the path; a missing port is the scheme's default |
| Curl.RefererOrigin | backend/curl.php:22-37 | scheme defaults to http; a missing port is the scheme's default |
| Curl.Gate | backend/curl.php:10-43 | 400 exactly for a missing URL or a scheme other than `https`; forwarded exactly when scheme, host and port match strictly; 403 otherwise |
| Curl.CheckRequest | backend/curl.php:10-43 | the step-by-step checks with early exits give the verdict of `Gate` |
| Curl.BadRequestBeforeOrigin | backend/curl.php:10-18 | a bad URL gives 400 whatever the origins |
| Curl.RefererWithoutHostForbidden | backend/curl.php:39-42 | a referer without host is refused with 403 |
| Curl.SameHostForwarded | backend/curl.php:23-43 | a plain-http page's request to its own host is forwarded |
| Curl.PlainServerRefusesHttpsReferer | backend/curl.php:23-42 | a plain-http server refuses an https referer of its own host |
| Curl.ExplicitPortNeverMatchesDefault | backend/curl.php:32-40 | a numeric port never equals a defaulted string port under `===` |

## Left out

- Network fetches: manifest, asset index, sound tables, tags, pack formats and the proxy's forwarding and header mirroring (backend/curl.php:45-70). The fetched documents are inputs to the operations that use them.
- Zip and file I/O: loading, reading and generating the pack. The zip is the set of its paths.
- The Audio element and blob URLs: playback is the outcome `PlayTarget` computes (source, clamped volume and rate).
- `Promise.all` concurrency in `refreshJsonAsync`: the three tasks run one after another, and a failing fetch leaves its field unchanged.
- `Math.random`: replaced by the draws sequence.
- IEEE floating point: volume and pitch are reals, and no rounding is modelled.
- Locale collation: `localeCompare` is replaced by a stand-in order (module `Collation`). Characters fall into three groups, punctuation and symbols, then digits, then letters, and compare by code within a group. With `{ numeric: true }` a run of digits compares by its value. The full collation of the locale (accents, case levels, the order inside the punctuation group) is not modelled.
- GetLatestRevFromMCVer: the tag it picks is the greatest under the stand-in order. Two tags that the locale orders differently from the stand-in, other than by a run of digits, may be picked the other way round.
- Arrays.UpperCaseSorted: the upper-cased comparison uses the same stand-in without the numeric option.
- `Arrays.versionSort` and `Arrays.filterNonNull`: src/model/minecraft_res_pack.js, src/model/extra_sounds.js and src/components/sound_entry_editor.jsx call them, but src/util/arrays.js defines neither. The model takes `versionSort` to be the function of src/util/versions.js.
- `MinecraftAssets.latestVerStr`: src/model/minecraft_res_pack.js:17 and src/model/extra_sounds.js read it, but src/model/minecraft_assets.js does not define it. The model takes it to be a sentinel distinct from every real version, the constructor `Latest`. Without a definition, a fresh pack's `x_mc_version` would be `undefined` and the sentinel branch of `getMCVer` would be unreachable.
- `toUpperCase` is modelled for ASCII letters only.
- PHP `parse_url` and `filter_var`: their results are given records.
- The regular-expression engine: only the two patterns of the tag parser are modelled.
- `Object.keys` order: key lists are inputs, or an arbitrary enumeration inside a method.
- `Arrays.filterNonNull` is not part of this model. It is assumed to remove exactly the hole `delete` leaves at the index.
- React, DOM and timers: rendering, focus, drag and drop, beforeunload, the keyboard handler `handleEntryNameEditor`, `handleEntryDelete`, the unused `handleEditableItemClick`, and dialog plumbing.
- `getPackFormat`: a plain read of the `packFormat` field.
- Globals.StateHandler.RefreshJson: the handler mutates the shallow-copied inner arrays in place and shares them between tables. The model treats tables as values, so aliasing is not captured.
- EditScreen.SoundAdded: for an entry without `sounds`, the `TypeError` thrown inside the state updater breaks the screen's next render. The model reports an error and keeps the table; what React then shows is not modelled.
- EditScreen.ScreenState.PackDownload: it selects some key of a non-empty table, not necessarily the first in insertion order, because `Object.keys` order is not modelled.
- EditScreen.ScreenState.AddSoundToEntry: the source pushes into the inner `sounds` array shared with the previous state. The model builds a new table.
- EditScreen.RemoveSound: the source `delete`s the element in place in the inner `sounds` array shared with the previous state (src/screen/edit_screen.jsx:286-297), then stores the filtered copy. The model builds a new table, so the earlier state's array keeping a hole is not captured.
- SoundEntryEditor.EntryEditor.HandleVolumeChange: requires an index within the arrays. A JavaScript assignment past the end, which would grow the array with holes, is not modelled. The same holds for HandlePitchChange, HandleSoundTypeChange and HandleSoundNameChange.
- Globals.IsEventAgreesWithLocate: `isEventSoundName` throws when there is no index or pack. The model returns an error value and states the agreement only where both are present.
- SoundsJson.Truthy: string-valued `volume` and `pitch` are read as absent, not coerced to numbers. Booleans are coerced: `SoundsJson.FactorOr1` reads `false` as 0 and `true` as 1, and a truthy `true` multiplies by 1.
- An undefined string (a missing `x_mc_version`, a missing extra-sounds version) is modelled as `""` or `None`.
- Keys inherited from `Object.prototype` (`constructor`, `toString`, …): JavaScript objects become maps, so such a key is absent unless the object has it itself. The source differs on them. `handleCheckEntryName("constructor")` (src/screen/edit_screen.jsx:217-219) is true, so the name is refused, while `EditScreen.CheckEntryName` is false. An overlay key `constructor` in `mergeSoundsJson` (src/model/minecraft_assets.js:77-81) takes the `concat` branch and throws, while `MinecraftAssets.MergeSoundsJson` copies it in. `SoundEntryVisualizer.VisualizerState.HandleNewEntryName` receives the name check as a result and inherits the difference. `Globals.Resolve` rejects such an event name as the source does, though the source fails a step later with a different `TypeError`.
- SoundEntryVisualizer.SuggestionClickEmptiesList: stated for entry names without `,`, as Minecraft's resource names are. A name that holds `,` can start with the joined filter, for example the keys `a.x` and `a.x,a.x,a.z` under the filter `a.` with a limit of 1.

## Findings

| source | as written | input that shows it | evidently intended | confidence | as-written member | corrected member |
|---|---|---|---|---|---|---|
| src/model/minecraft_assets.js:93-97 | the inner `sounds.filter(...)` returns an array, which is always truthy, so every entry is reported. The download guard at src/screen/edit_screen.jsx:95-106 then never passes for a non-empty table | the table `{"a": {sounds: [{name: "x"}]}}` reports `["a"]` | report only entries holding a sound without a name (`.some`) | high, not executed | MinecraftAssets.EmptySoundEntryReportsNamedEntry | MinecraftAssets.EmptySoundEntries |
| src/util/globals.js:105-109 | `sortedUnique` takes a rest parameter and is passed one array, so the name list is `[names]`: one element, neither de-duplicated nor sorted | esSounds `{"a": …}` and an empty vanilla table and index give `[["extrasounds:a"]]` | the distinct names in upper-cased order | high, not executed | Globals.BuildNameLists | Globals.IntendedNameList |
| src/components/sound_entry_visualizer.jsx:125-133 | `sortedUnique(labels)` returns `[labels]`, so the collapsed view shows one suggestion holding every label | the labels `["a", "b"]` give one suggestion | one suggestion per distinct label, sorted, at most `limitCount` | high, not executed | SoundEntryVisualizer.CollapsedAsWrittenLosesGroups | SoundEntryVisualizer.IntendedSuggestionsProperties |
| src/util/arrays.js:10-16 | `unique(...array)` and `sortedUnique(...array)` take rest parameters, and their callers pass one array, which comes back wrapped, neither de-duplicated nor sorted | `sortedUnique(["b", "a", "a"])` gives `[["b", "a", "a"]]` | de-duplicate and sort the array's elements | high, not executed | Arrays.SortedUniqueOfOneArray | Arrays.SortedUniqueProperties |
| src/components/sound_entry_visualizer.jsx:137 | the collapsed suggestion is the label array, so `targets.includes(elem)` is false and the filter becomes the labels joined by `,` followed by `.` | the keys `a` and `b`, an empty filter and `limitCount` 1 give the filter `a,b.`, which lists nothing | the clicked label, or the label and `.`, as the next filter | high, not executed | SoundEntryVisualizer.SuggestionClickEmptiesList | SoundEntryVisualizer.SuggestionDeepens |
