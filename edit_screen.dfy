/** The table handlers of the editor screen (src/screen/edit_screen.jsx):
    the resource pack's sounds table `resSoundsJson` and the operations the
    screen performs on it. Most handlers build a fresh table from the
    current one and are modelled as functions on maps; the two that change
    the table in place, and the handlers that also set other screen state,
    are methods of `EditScreen`. */
module EditScreen {
  import opened Wrappers
  import opened SoundsJson
  import opened MinecraftAssets
  import opened MinecraftResPack

  /** The element `{ 'name': '' }` the screen adds to a `sounds` list. */
  function BlankSound(): SoundEntry {
    Obj(map["name" := Str("")])
  }

  /** Both tables agree everywhere except at `name`. */
  ghost predicate SameExcept(a: Table, b: Table, name: string) {
    (forall k :: k != name ==> (k in a <==> k in b))
    && forall k :: k != name && k in a ==> a[k] == b[k]
  }

  /** The update of `handleSourceItemClick`: copy the ExtraSounds entry
      `name` into the pack with `replace` set to `true`, provided the pack
      lacks it and ExtraSounds has it. */
  function CopyIn(table: Table, extraSounds: Table, name: string): (r: Table)
    ensures name !in table && name in extraSounds ==>
      name in r && r[name] == extraSounds[name].(replace := Some(Bool(true)))
    ensures name in table || name !in extraSounds ==> r == table
    ensures SameExcept(r, table, name)
  {
    if name !in table && name in extraSounds then table[name := extraSounds[name].(replace := Some(Bool(true)))]
    else table
  }

  /** The update of `handleEditableItemDelete`. */
  function DeleteEntry(table: Table, name: string): (r: Table)
    ensures r.Keys == table.Keys - {name}
    ensures forall k :: k in r ==> r[k] == table[k]
  {
    if name !in table then table else table - {name}
  }

  /** The update of `handleEditableItemNameChange(before, after)`: `after`
      takes `before`'s entry, overwriting what it held, and `before` goes;
      nothing happens when `before` is missing or the names are equal. */
  function RenameEntry(table: Table, before: string, after: string): (r: Table)
    ensures before !in table || before == after ==> r == table
    ensures before in table && before != after ==>
      && r.Keys == table.Keys - {before} + {after}
      && r[after] == table[before]
      && forall k :: k in r && k != after ==> r[k] == table[k]
  {
    if before !in table || before == after then table
    else table[after := table[before]] - {before}
  }

  /** `handleCheckEntryName(name)`: whether the table has the entry. */
  function CheckEntryName(table: Table, name: string): (r: bool)
    ensures r <==> name in table
  {
    name in table
  }

  /** The update of `handleAddEntry`: the name gets a fresh entry whose
      one sound is blank, replacing any entry it had. */
  function AddEntry(table: Table, name: string): (r: Table)
    ensures name in r && r[name] == Sounds(Some([BlankSound()]), None, None)
    ensures SameExcept(r, table, name)
  {
    table[name := Sounds(Some([BlankSound()]), None, None)]
  }

  /** The update of `handleRemoveSoundFromEntry`: the element at `index`
      is removed (`delete` followed by `Arrays.filterNonNull`, which is
      taken to close the hole); nothing happens when the entry or its
      `sounds` is missing, or the index is out of range. */
  function RemoveSound(table: Table, name: string, index: nat): (r: Table)
    ensures SameExcept(r, table, name)
    ensures name in table <==> name in r
    ensures name in table && table[name].sounds.Some? && index < |table[name].sounds.value| ==>
      var s := table[name].sounds.value;
      r[name] == table[name].(sounds := Some(s[..index] + s[index + 1..]))
    ensures !(name in table && table[name].sounds.Some? && index < |table[name].sounds.value|) ==> r == table
  {
    if name !in table || table[name].sounds.None? then table
    else
      var s := table[name].sounds.value;
      if index < |s| then table[name := table[name].(sounds := Some(s[..index] + s[index + 1..]))]
      else table
  }

  /** The table after `handleAddSoundToEntry(name)`: a blank element is
      pushed onto the entry's `sounds`, and a missing entry is left alone.
      A missing `sounds` makes `push` throw inside the state updater, so the
      screen's next render fails: that outcome is the error. */
  function SoundAdded(table: Table, name: string): (r: Result<Table, string>)
    ensures name !in table ==> r == Ok(table)
    ensures name in table && table[name].sounds.None? ==> r.Err?
    ensures name in table && table[name].sounds.Some? ==>
      && r.Ok? && SameExcept(r.value, table, name) && name in r.value
      && r.value[name].sounds.Some?
      && |r.value[name].sounds.value| == |table[name].sounds.value| + 1
      && r.value[name].replace == table[name].replace && r.value[name].subtitle == table[name].subtitle
  {
    if name !in table then Ok(table)
    else match table[name].sounds
      case None => Err("Cannot read properties of undefined (reading 'push')")
      case Some(s) => Ok(table[name := table[name].(sounds := Some(s + [BlankSound()]))])
  }

  /** The element `handleEditableValueChange` writes back: a bare string
      becomes `{ name }` first; a `null` value deletes the property, any
      other value sets it. */
  function EditedSound(target: SoundEntry, property: string, value: Value): (r: SoundEntry)
    ensures r.Obj?
    ensures value == Null ==> Prop(r, property) == None
    ensures value != Null ==> Prop(r, property) == Some(value)
    ensures forall k :: k != property ==> Prop(r, k) == (if target.Bare? && k == "name" then Some(Str(target.file)) else Prop(target, k))
  {
    var props := match target case Bare(s) => map["name" := Str(s)] case Obj(p) => p;
    Obj(if value == Null then props - {property} else props[property := value])
  }

  /** The table after `handleEditableValueChange`: the element at
      `index` of the entry's `sounds` is replaced by the edited one; a
      missing entry, a missing `sounds` or an index past the end throws a
      `TypeError` that the handler swallows, leaving the table as it was. */
  function ValueChanged(table: Table, name: string, index: nat, property: string, value: Value): (r: Table)
    ensures SameExcept(r, table, name) && (name in r <==> name in table)
    ensures !(name in table && table[name].sounds.Some? && index < |table[name].sounds.value|) ==> r == table
    ensures name in table && table[name].sounds.Some? && index < |table[name].sounds.value| ==>
      && r[name].sounds.Some? && |r[name].sounds.value| == |table[name].sounds.value|
      && Prop(r[name].sounds.value[index], property) == (if value == Null then None else Some(value))
  {
    if name in table && table[name].sounds.Some? && index < |table[name].sounds.value| then
      var s := table[name].sounds.value;
      table[name := table[name].(sounds := Some(s[index := EditedSound(s[index], property, value)]))]
    else table
  }

  /** The screen's own state. */
  class ScreenState {
    var resSoundsJson: Table
    var destinationSelectedItem: string
    var retargetDlgOpen: bool

    /** `useState(initialSoundsJson)` and the other initial states. */
    constructor (initialSoundsJson: Table)
      ensures resSoundsJson == initialSoundsJson
      ensures destinationSelectedItem == "" && !retargetDlgOpen
    {
      resSoundsJson := initialSoundsJson;
      destinationSelectedItem := "";
      retargetDlgOpen := false;
    }

    /** `handleSourceItemClick(entryName)`: copy the ExtraSounds entry in,
      or, when that is refused, select the pack's entry of that name. */
    method SourceItemClick(extraSounds: Table, entryName: string)
      modifies this
      ensures resSoundsJson == CopyIn(old(resSoundsJson), extraSounds, entryName)
      ensures entryName !in old(resSoundsJson) && entryName in extraSounds ==>
        destinationSelectedItem == old(destinationSelectedItem)
      ensures entryName in old(resSoundsJson) || entryName !in extraSounds ==>
        destinationSelectedItem == entryName
      ensures retargetDlgOpen == old(retargetDlgOpen)
    {
      if entryName !in resSoundsJson && entryName in extraSounds {
        resSoundsJson := CopyIn(resSoundsJson, extraSounds, entryName);
      } else {
        destinationSelectedItem := entryName;
      }
    }

    /** `handleEditableValueChange`: the element is edited in place. */
    method EditableValueChange(soundEntry: string, soundEntryIndex: nat, property: string, value: Value)
      modifies this
      ensures resSoundsJson == ValueChanged(old(resSoundsJson), soundEntry, soundEntryIndex, property, value)
      ensures destinationSelectedItem == old(destinationSelectedItem) && retargetDlgOpen == old(retargetDlgOpen)
    {
      if soundEntry !in resSoundsJson {
        return;
      }
      var entry := resSoundsJson[soundEntry];
      if entry.sounds.None? || soundEntryIndex >= |entry.sounds.value| {
        return;
      }
      var target := entry.sounds.value[soundEntryIndex];
      if target.Bare? {
        target := Obj(map["name" := Str(target.file)]);
      }
      if value == Null {
        target := Obj(target.props - {property});
      } else {
        target := Obj(target.props[property := value]);
      }
      resSoundsJson := resSoundsJson[soundEntry := entry.(sounds := Some(entry.sounds.value[soundEntryIndex := target]))];
    }

    /** `handleAddSoundToEntry`: the blank element is pushed onto the
      entry's own `sounds` array; `ok` is false when the update fails, and
      then the table is left as it was. */
    method AddSoundToEntry(entryName: string) returns (ok: bool)
      modifies this
      ensures ok <==> SoundAdded(old(resSoundsJson), entryName).Ok?
      ensures ok ==> resSoundsJson == SoundAdded(old(resSoundsJson), entryName).value
      ensures !ok ==> resSoundsJson == old(resSoundsJson)
      ensures destinationSelectedItem == old(destinationSelectedItem) && retargetDlgOpen == old(retargetDlgOpen)
    {
      ok := true;
      if entryName !in resSoundsJson {
        return;
      }
      var entry := resSoundsJson[entryName];
      match entry.sounds {
        case None => ok := false;
        case Some(s) => resSoundsJson := resSoundsJson[entryName := entry.(sounds := Some(s + [BlankSound()]))];
      }
    }

    /** `onPackDownload()` as written: the table is scanned in the order
      of its keys with `getEmptySoundEntry`, which reports every entry when
      all of them have `sounds`. So the table is stored in the pack for the
      zip only when it is empty; a non-empty table selects its first key
      instead, and a table with an entry lacking `sounds` makes the scan
      throw, which changes nothing. */
    method PackDownload(resPack: ResPack) returns (download: bool)
      modifies this, resPack
      ensures resSoundsJson == old(resSoundsJson) && retargetDlgOpen == old(retargetDlgOpen)
      ensures download <==> resSoundsJson == map[]
      ensures download ==> (resPack.soundsJson == Some(resSoundsJson)
        && destinationSelectedItem == old(destinationSelectedItem))
      ensures !download ==> resPack.soundsJson == old(resPack.soundsJson)
      ensures resSoundsJson != map[] && (forall k :: k in resSoundsJson ==> resSoundsJson[k].sounds.Some?) ==>
        destinationSelectedItem in resSoundsJson
      ensures (exists k :: k in resSoundsJson && resSoundsJson[k].sounds.None?) ==>
        destinationSelectedItem == old(destinationSelectedItem)
      ensures resPack.packFormat == old(resPack.packFormat) && resPack.mcVersion == old(resPack.mcVersion)
      ensures resPack.files == old(resPack.files)
    {
      var keys := KeysOf(resSoundsJson);
      var result := GetEmptySoundEntry(resSoundsJson, keys);
      match result {
        case Err(_) => download := false;
        case Ok(empty) =>
          if |empty| == 0 {
            download := true;
            resPack.soundsJson := Some(resSoundsJson);
          } else {
            download := false;
            destinationSelectedItem := empty[0];
          }
      }
    }

    /** `onRetargetDlgClose(esVer)`: the dialog closes; a retarget is
      started only for a non-empty version other than the current one. */
    method RetargetDlgClose(esVer: string, currentVer: string) returns (retarget: bool)
      modifies this
      ensures !retargetDlgOpen
      ensures retarget <==> esVer != "" && esVer != currentVer
      ensures resSoundsJson == old(resSoundsJson) && destinationSelectedItem == old(destinationSelectedItem)
    {
      retargetDlgOpen := false;
      retarget := !(esVer == "" || esVer == currentVer);
    }
  }

  /** Deleting a copied-in entry gives the pack back as it was. */
  lemma DeleteUndoesCopyIn(table: Table, extraSounds: Table, name: string)
    requires name !in table
    ensures DeleteEntry(CopyIn(table, extraSounds, name), name) == table
  {
  }

  /** Deleting twice is deleting once. */
  lemma DeleteIdempotent(table: Table, name: string)
    ensures DeleteEntry(DeleteEntry(table, name), name) == DeleteEntry(table, name)
  {
  }

  /** Renaming to a fresh name and back gives the table back. */
  lemma RenameBack(table: Table, before: string, after: string)
    requires before in table && after !in table
    ensures RenameEntry(RenameEntry(table, before, after), after, before) == table
  {
    var r := RenameEntry(table, before, after);
    var r2 := RenameEntry(r, after, before);
    assert r2.Keys == table.Keys;
  }

  /** The name check sees what the handlers do: an added entry exists, a
      deleted one does not, a renamed one exists only under its new name,
      and every other name is as it was. */
  lemma CheckEntryNameAfterEdits(table: Table, name: string, other: string)
    ensures CheckEntryName(AddEntry(table, name), name)
    ensures !CheckEntryName(DeleteEntry(table, name), name)
    ensures name in table && name != other ==>
      CheckEntryName(RenameEntry(table, name, other), other) && !CheckEntryName(RenameEntry(table, name, other), name)
    ensures forall k :: k != name && k != other ==>
      && (CheckEntryName(AddEntry(table, name), k) <==> CheckEntryName(table, k))
      && (CheckEntryName(DeleteEntry(table, name), k) <==> CheckEntryName(table, k))
      && (CheckEntryName(RenameEntry(table, name, other), k) <==> CheckEntryName(table, k))
  {
  }

  /** Adding a sound and removing the last one gives the table back; the
      entry's other elements are untouched by the addition. */
  lemma RemoveUndoesAddSound(table: Table, name: string)
    requires name in table && table[name].sounds.Some?
    ensures SoundAdded(table, name).Ok?
    ensures var s := table[name].sounds.value;
      var added := SoundAdded(table, name).value[name].sounds.value;
      added[..|s|] == s && added[|s|] == BlankSound()
    ensures RemoveSound(SoundAdded(table, name).value, name, |table[name].sounds.value|) == table
  {
    var s := table[name].sounds.value;
    var t := SoundAdded(table, name).value;
    assert (s + [BlankSound()])[..|s|] == s;
    assert t[name].sounds.value[..|s|] + t[name].sounds.value[|s| + 1..] == s;
  }

  /** A value change touches one element of one entry: afterwards that
      element holds the property as set (or lacks it after `null`), every
      other element and entry is as before, and repeating the change does
      nothing more. */
  lemma ValueChangedEffect(table: Table, name: string, index: nat, property: string, value: Value)
    requires name in table && table[name].sounds.Some? && index < |table[name].sounds.value|
    ensures var r := ValueChanged(table, name, index, property, value);
      && SameExcept(r, table, name)
      && name in r && r[name].sounds.Some? && |r[name].sounds.value| == |table[name].sounds.value|
      && Prop(r[name].sounds.value[index], property) == (if value == Null then None else Some(value))
      && (forall j :: 0 <= j < |r[name].sounds.value| && j != index ==>
            r[name].sounds.value[j] == table[name].sounds.value[j])
      && r[name].replace == table[name].replace && r[name].subtitle == table[name].subtitle
    ensures ValueChanged(ValueChanged(table, name, index, property, value), name, index, property, value)
      == ValueChanged(table, name, index, property, value)
  {
    var s := table[name].sounds.value;
    var e := EditedSound(s[index], property, value);
    if value == Null {
      assert e.props - {property} == e.props;
    } else {
      assert e.props[property := value] == e.props;
    }
    assert EditedSound(e, property, value) == e;
    var r := ValueChanged(table, name, index, property, value);
    assert r[name].sounds.value == s[index := e];
    assert s[index := e][index := e] == s[index := e];
    assert r[name := r[name].(sounds := Some(s[index := e][index := e]))] == r;
  }
}
