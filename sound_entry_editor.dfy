/** The editor of one sounds.json entry
    (src/components/sound_entry_editor.jsx): five parallel per-element
    state lists, the entry-name validation flags, and the change requests
    the editor hands to the screen. Callbacks the component receives are
    either parameters or, where the component only forwards to them, the
    value it would forward. */
module SoundEntryEditor {
  import opened Wrappers
  import opened Strs
  import opened SoundsJson
  import opened Globals

  /** The argument of `onItemValueChange`. */
  datatype ValueChange = ValueChange(soundEntry: string, soundEntryIndex: nat, property: string, value: Value)

  /** The state of one editor. `undefined` names read as "". */
  class EntryEditor {
    const entryName: string
    var entryNameEditorShow: bool
    var currentEntryName: string
    var entryNameDuplicate: bool
    var entryNameEmpty: bool
    var soundName: seq<string>
    var volume: seq<real>
    var pitch: seq<real>
    var isEvent: seq<bool>
    var isInfiniteLoopSound: seq<bool>

    /** The five per-element lists stay in step. */
    ghost predicate Valid()
      reads this
    {
      |volume| == |soundName| && |pitch| == |soundName|
      && |isEvent| == |soundName| && |isInfiniteLoopSound| == |soundName|
    }

    /** The initial states, derived from the entry's `sounds`: the name of
      each element, its volume and pitch (`?? 1`), whether it is an event,
      and no loop detected. */
    constructor (name: string, sounds: seq<SoundEntry>)
      ensures Valid() && entryName == name && currentEntryName == name
      ensures !entryNameEditorShow && !entryNameDuplicate && !entryNameEmpty
      ensures |soundName| == |sounds|
      ensures forall i :: 0 <= i < |sounds| ==>
        && soundName[i] == NameOf(sounds[i]).GetOr("")
        && volume[i] == FactorOr1(sounds[i], "volume")
        && pitch[i] == FactorOr1(sounds[i], "pitch")
        && isEvent[i] == IsEventEntry(sounds[i])
        && !isInfiniteLoopSound[i]
    {
      entryName := name;
      entryNameEditorShow := false;
      currentEntryName := name;
      entryNameDuplicate := false;
      entryNameEmpty := false;
      soundName := seq(|sounds|, i requires 0 <= i < |sounds| => NameOf(sounds[i]).GetOr(""));
      volume := seq(|sounds|, i requires 0 <= i < |sounds| => FactorOr1(sounds[i], "volume"));
      pitch := seq(|sounds|, i requires 0 <= i < |sounds| => FactorOr1(sounds[i], "pitch"));
      isEvent := seq(|sounds|, i requires 0 <= i < |sounds| => IsEventEntry(sounds[i]));
      isInfiniteLoopSound := seq(|sounds|, i requires 0 <= i < |sounds| => false);
    }

    /** `isEntryNameValid()`. */
    predicate IsEntryNameValid()
      reads this
    {
      !entryNameDuplicate && !entryNameEmpty
    }

    /** `checkEntryName(newValue)`: keeping the entry's own name is never a
      duplicate; another name is one when the screen's check says so (the
      flag is left alone without a check); the empty name is flagged. */
    method CheckEntryName(newValue: string, checkEntryExists: Option<string -> bool>)
      modifies this
      ensures currentEntryName == newValue
      ensures entryName == newValue ==> !entryNameDuplicate
      ensures entryName != newValue && checkEntryExists.Some? ==> entryNameDuplicate == checkEntryExists.value(newValue)
      ensures entryName != newValue && checkEntryExists.None? ==> entryNameDuplicate == old(entryNameDuplicate)
      ensures entryNameEmpty <==> |newValue| == 0
      ensures entryName != newValue && checkEntryExists.Some? ==>
        (IsEntryNameValid() <==> |newValue| > 0 && !checkEntryExists.value(newValue))
      ensures entryName == newValue ==> (IsEntryNameValid() <==> |newValue| > 0)
      ensures entryNameEditorShow == old(entryNameEditorShow)
      ensures soundName == old(soundName) && volume == old(volume) && pitch == old(pitch)
      ensures isEvent == old(isEvent) && isInfiniteLoopSound == old(isInfiniteLoopSound)
    {
      currentEntryName := newValue;
      if entryName == newValue {
        entryNameDuplicate := false;
      } else if checkEntryExists.Some? {
        entryNameDuplicate := checkEntryExists.value(newValue);
      }
      entryNameEmpty := |newValue| == 0;
    }

    /** `handleEntryNameChange(newName)`: the rename `(entryName, newName)`
      is requested only for a non-null name while the name is valid and a
      rename callback is set; the name editor closes in every case. */
    method HandleEntryNameChange(newName: Option<string>, hasCallback: bool) returns (rename: Option<(string, string)>)
      modifies this
      ensures rename.Some? <==> hasCallback && newName.Some? && old(IsEntryNameValid())
      ensures rename.Some? ==> rename.value == (entryName, newName.value)
      ensures !entryNameEditorShow
      ensures currentEntryName == old(currentEntryName)
      ensures entryNameDuplicate == old(entryNameDuplicate) && entryNameEmpty == old(entryNameEmpty)
      ensures soundName == old(soundName) && volume == old(volume) && pitch == old(pitch)
      ensures isEvent == old(isEvent) && isInfiniteLoopSound == old(isInfiniteLoopSound)
    {
      rename := None;
      if hasCallback && newName.Some? && IsEntryNameValid() {
        rename := Some((entryName, newName.value));
      }
      entryNameEditorShow := false;
    }

    /** `handleSoundNameChange(index, value)`: a null name reads as "";
      the name and its event flag are stored; an event name
      `extrasounds:<entryName>` is recorded as a loop and NOT passed on;
      any other name is passed on as a `name` change. When
      `isEventSoundName` throws, nothing happens. */
    method HandleSoundNameChange(session: Session, index: nat, value: Option<string>) returns (change: Option<ValueChange>)
      requires Valid() && index < |soundName|
      modifies this
      ensures Valid()
      ensures var v := value.GetOr("");
        match IsEventSoundName(session, v)
        case Err(_) =>
          change.None? && soundName == old(soundName) && isEvent == old(isEvent)
          && isInfiniteLoopSound == old(isInfiniteLoopSound)
        case Ok(ev) =>
          && soundName == old(soundName)[index := v]
          && isEvent == old(isEvent)[index := ev]
          && (StartsWith(v, "extrasounds:") && ev ==>
                |Split(v, ':')| >= 2
                && isInfiniteLoopSound == old(isInfiniteLoopSound)[index := (Split(v, ':')[1] == entryName)]
                && (change.None? <==> Split(v, ':')[1] == entryName))
          && (!(StartsWith(v, "extrasounds:") && ev) ==> isInfiniteLoopSound == old(isInfiniteLoopSound) && change.Some?)
          && (change.Some? ==> change.value == ValueChange(entryName, index, "name", Str(v)))
      ensures volume == old(volume) && pitch == old(pitch)
      ensures currentEntryName == old(currentEntryName) && entryNameEditorShow == old(entryNameEditorShow)
      ensures entryNameDuplicate == old(entryNameDuplicate) && entryNameEmpty == old(entryNameEmpty)
    {
      var v := value.GetOr("");
      var isEventSound := IsEventSoundName(session, v);
      if isEventSound.Err? {
        return None;
      }
      var ev := isEventSound.value;
      soundName := soundName[index := v];
      isEvent := isEvent[index := ev];
      if StartsWith(v, "extrasounds:") && ev {
        assert v[11] == ':';
        SplitHasTwo(v, ':');
        var path := Split(v, ':')[1];
        var detected := path == entryName;
        isInfiniteLoopSound := isInfiniteLoopSound[index := detected];
        if detected {
          return None;
        }
      }
      change := Some(ValueChange(entryName, index, "name", Str(v)));
    }

    /** `handleVolumeChange(index, value)`. */
    method HandleVolumeChange(index: nat, value: real)
      requires Valid() && index < |soundName|
      modifies this
      ensures Valid() && volume == old(volume)[index := value]
      ensures soundName == old(soundName) && pitch == old(pitch)
      ensures isEvent == old(isEvent) && isInfiniteLoopSound == old(isInfiniteLoopSound)
    {
      volume := volume[index := value];
    }

    /** `handlePitchChange(index, value)`. */
    method HandlePitchChange(index: nat, value: real)
      requires Valid() && index < |soundName|
      modifies this
      ensures Valid() && pitch == old(pitch)[index := value]
      ensures soundName == old(soundName) && volume == old(volume)
      ensures isEvent == old(isEvent) && isInfiniteLoopSound == old(isInfiniteLoopSound)
    {
      pitch := pitch[index := value];
    }

    /** `handleSoundTypeChange(index, checked)`: the flag is stored and the
      `type` property is set to `event`, or deleted (`null`) when cleared. */
    method HandleSoundTypeChange(index: nat, checked: bool) returns (change: ValueChange)
      requires Valid() && index < |soundName|
      modifies this
      ensures Valid() && isEvent == old(isEvent)[index := checked]
      ensures change.soundEntry == entryName && change.soundEntryIndex == index && change.property == "type"
      ensures checked <==> change.value == Str("event")
      ensures !checked <==> change.value == Null
      ensures soundName == old(soundName) && volume == old(volume) && pitch == old(pitch)
      ensures isInfiniteLoopSound == old(isInfiniteLoopSound)
    {
      isEvent := isEvent[index := checked];
      change := ValueChange(entryName, index, "type", if checked then Str("event") else Null);
    }

    /** `handleAddSound()`: the entry's name goes to `onSoundAddToEntry`
      when the callback is given, and every list grows by the defaults of
      a blank element. */
    method HandleAddSound(hasCallback: bool) returns (request: Option<string>)
      requires Valid()
      modifies this
      ensures request.Some? <==> hasCallback
      ensures request.Some? ==> request.value == entryName
      ensures Valid() && |soundName| == |old(soundName)| + 1
      ensures soundName == old(soundName) + [""] && volume == old(volume) + [1.0] && pitch == old(pitch) + [1.0]
      ensures isEvent == old(isEvent) + [false] && isInfiniteLoopSound == old(isInfiniteLoopSound) + [false]
    {
      request := if hasCallback then Some(entryName) else None;
      soundName := soundName + [""];
      volume := volume + [1.0];
      pitch := pitch + [1.0];
      isEvent := isEvent + [false];
      isInfiniteLoopSound := isInfiniteLoopSound + [false];
    }

    /** `handleRemoveSound(index)`: the entry's name and the index go to
      `onSoundRemoveFromEntry` when the callback is given, and the same
      index leaves every list (`Arrays.filterNonNull` taken to close the
      hole `delete` leaves); an index past the end changes nothing. */
    method HandleRemoveSound(index: nat, hasCallback: bool) returns (request: Option<(string, nat)>)
      requires Valid()
      modifies this
      ensures request.Some? <==> hasCallback
      ensures request.Some? ==> request.value == (entryName, index)
      ensures Valid()
      ensures index < |old(soundName)| ==>
        && soundName == RemoveAt(old(soundName), index)
        && volume == RemoveAt(old(volume), index)
        && pitch == RemoveAt(old(pitch), index)
        && isEvent == RemoveAt(old(isEvent), index)
        && isInfiniteLoopSound == RemoveAt(old(isInfiniteLoopSound), index)
      ensures index >= |old(soundName)| ==>
        soundName == old(soundName) && volume == old(volume) && pitch == old(pitch)
        && isEvent == old(isEvent) && isInfiniteLoopSound == old(isInfiniteLoopSound)
    {
      request := if hasCallback then Some((entryName, index)) else None;
      soundName := RemoveAt(soundName, index);
      volume := RemoveAt(volume, index);
      pitch := RemoveAt(pitch, index);
      isEvent := RemoveAt(isEvent, index);
      isInfiniteLoopSound := RemoveAt(isInfiniteLoopSound, index);
    }
  }

  /** `delete xs[index]` followed by `filterNonNull`: the element at the
      index is gone and the others keep their order. */
  function RemoveAt<T>(xs: seq<T>, index: nat): (r: seq<T>)
    ensures index < |xs| ==> |r| == |xs| - 1
    ensures index >= |xs| ==> r == xs
    ensures forall i :: 0 <= i < |r| ==> r[i] == (if i < index then xs[i] else xs[i + 1])
  {
    if index < |xs| then xs[..index] + xs[index + 1..] else xs
  }

  /** Removing the element just added gives the list back. */
  lemma RemoveAtUndoesAppend<T>(xs: seq<T>, x: T)
    ensures RemoveAt(xs + [x], |xs|) == xs
  {
    assert (xs + [x])[..|xs|] == xs;
  }

  /** The guard catches the entry's direct self-reference: the name
      `extrasounds:<entryName>`, which the resolver looks up as this very
      entry of the ExtraSounds table, splits back to the entry's name, so
      `HandleSoundNameChange` withholds it when it denotes an event. */
  lemma SelfReferenceDetected(entryName: string)
    requires ':' !in entryName
    ensures NamespaceAndPath("extrasounds:" + entryName) == ("extrasounds", entryName)
    ensures StartsWith("extrasounds:" + entryName, "extrasounds:")
    ensures |Split("extrasounds:" + entryName, ':')| >= 2 && Split("extrasounds:" + entryName, ':')[1] == entryName
  {
    assert "extrasounds:" + entryName == "extrasounds" + [':'] + entryName;
    SplitAtFirst("extrasounds", entryName, ':');
    SplitNoSeparator(entryName, ':');
    assert ("extrasounds:" + entryName)[..12] == "extrasounds:";
    QualifiedName("extrasounds", entryName);
  }
}
