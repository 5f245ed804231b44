/** StateHandler (src/util/globals.js): the session state of the editor, the
    resolution of a sound name to a playable file, and the post-processing
    of the fetched tables. */
module Globals {
  import opened Wrappers
  import opened Strs
  import opened Sorting
  import opened SoundsJson
  import opened MinecraftAssets
  import opened MinecraftResPack
  import opened ExtraSounds
  import opened Arrays

  /** An element of the asset index's `objects`. */
  datatype AssetObject = AssetObject(hash: Option<string>)

  /** The asset index; `objects` is missing from the `{}` the state starts
      with and from the `{}` a failed fetch yields. */
  datatype AssetsJson = AssetsJson(objects: Option<map<string, AssetObject>>)

  /** What the resolver reads from the state: the filtered asset index, the
      vanilla sounds table, the mod tables by namespace and the paths in
      the resource pack's zip (`None` without a pack or zip). */
  datatype Session = Session(assets: AssetsJson, vanilla: Table, mods: map<string, Table>, zip: Option<set<string>>)

  /** Where `playSoundAsync` sends a resolved file. */
  datatype Target =
    | VanillaAsset(file: string, volume: real, pitch: real)
    | ZipEntry(path: string, volume: real, pitch: real)

  /** The ways resolution stops without a target: each is a `TypeError`
      thrown by the code, except `DrawsExhausted`, which means the supplied
      random draws ran out. */
  datatype ResolveError =
    | NoAssetIndex
    | NoResourcePack
    | UnknownNamespace
    | UnknownEntry
    | NoSounds
    | NothingPicked
    | NameNotString
    | DrawsExhausted

  /** `[namespace, path] = name.split(':')`, with namespace `minecraft` when
      the name has no colon. Pieces after the second are dropped. */
  function NamespaceAndPath(name: string): (string, string) {
    if ':' in name then
      SplitHasTwo(name, ':');
      var parts := Split(name, ':');
      (parts[0], parts[1])
    else ("minecraft", name)
  }

  /** `` `${namespace}/sounds/${path}.ogg` ``. */
  function SoundFile(name: string): string {
    var (ns, path) := NamespaceAndPath(name);
    ns + "/sounds/" + path + ".ogg"
  }

  /** A qualified name splits at its colon. */
  lemma QualifiedName(ns: string, path: string)
    requires ':' !in ns && ':' !in path
    ensures NamespaceAndPath(ns + ":" + path) == (ns, path)
    ensures SoundFile(ns + ":" + path) == ns + "/sounds/" + path + ".ogg"
  {
    assert ns + ":" + path == ns + [':'] + path;
    SplitAtFirst(ns, path, ':');
    SplitNoSeparator(path, ':');
  }

  /** The end of `playSoundAsync`: the file name becomes
      `<ns>/sounds/<path>.ogg`, looked up in the vanilla asset index (a
      missing index throws) and otherwise taken from the zip under
      `assets/`. Volume and pitch pass through. */
  function Locate(session: Session, fileName: string, volume: real, pitch: real): (r: Result<Target, ResolveError>)
    ensures session.assets.objects.None? <==> r == Err(NoAssetIndex)
    ensures r.Ok? ==> r.value.volume == volume && r.value.pitch == pitch
    ensures r.Ok? ==> (r.value.VanillaAsset? <==> SoundFile(fileName) in session.assets.objects.value)
    ensures r.Ok? && r.value.VanillaAsset? ==> r.value.file == SoundFile(fileName)
    ensures r.Ok? && r.value.ZipEntry? ==> r.value.path == "assets/" + SoundFile(fileName)
  {
    match session.assets.objects
    case None => Err(NoAssetIndex)
    case Some(objects) =>
      var file := SoundFile(fileName);
      if file in objects then Ok(VanillaAsset(file, volume, pitch))
      else Ok(ZipEntry("assets/" + file, volume, pitch))
  }

  /** The table an event name is looked up in: the vanilla one for a
      `minecraft:` or unqualified name, else the mod table of its
      namespace (`None` where the code reads a property of `undefined`). */
  function EventTable(session: Session, soundName: string): Option<Table> {
    if StartsWith(soundName, "minecraft:") || ':' !in soundName then Some(session.vanilla)
    else
      var ns := NamespaceAndPath(soundName).0;
      if ns in session.mods then Some(session.mods[ns]) else None
  }

  /** A name with a colon is the text before its first colon, the colon
      and the rest. */
  lemma {:induction false} FirstColon(name: string) returns (a: string, b: string)
    requires ':' in name
    ensures ':' !in a && name == a + [':'] + b
  {
    if name[0] == ':' {
      a, b := [], name[1..];
      assert name == [name[0]] + name[1..];
    } else {
      assert ':' in name[1..] by {
        var i :| 0 <= i < |name| && name[i] == ':';
        assert name[1..][i - 1] == ':';
      }
      var a', b' := FirstColon(name[1..]);
      a, b := [name[0]] + a', b';
      assert name == [name[0]] + name[1..];
    }
  }

  /** The event table is chosen by the namespace the name splits into:
      `minecraft` (written or implied) selects the vanilla table, any other
      namespace its mod table, and a namespace without one has none. */
  lemma EventTableByNamespace(session: Session, soundName: string)
    ensures var ns := NamespaceAndPath(soundName).0;
      && (ns == "minecraft" ==> EventTable(session, soundName) == Some(session.vanilla))
      && (ns != "minecraft" ==>
            EventTable(session, soundName) == if ns in session.mods then Some(session.mods[ns]) else None)
  {
    if ':' in soundName {
      var a, b := FirstColon(soundName);
      SplitAtFirst(a, b, ':');
      assert NamespaceAndPath(soundName).0 == a;
      MinecraftPrefix(soundName, a, b);
    }
  }

  /** A name split at its first colon starts with `minecraft:` exactly
      when the text before the colon is `minecraft`. */
  lemma MinecraftPrefix(name: string, a: string, b: string)
    requires ':' !in a && name == a + [':'] + b
    ensures StartsWith(name, "minecraft:") <==> a == "minecraft"
  {
    var m := "minecraft:";
    if a == "minecraft" {
      assert name[..|m|] == m;
    }
    if StartsWith(name, m) {
      assert forall j :: 0 <= j <= 9 ==> name[j] == m[j];
      ColonAt(name, a, b, 9);
      assert a == name[..9] == m[..9];
    }
  }

  /** The first colon of a name splits it where its text before the colon
      ends. */
  lemma ColonAt(name: string, a: string, b: string, p: nat)
    requires ':' !in a && name == a + [':'] + b
    requires p < |name| && name[p] == ':' && forall j :: 0 <= j < p ==> name[j] != ':'
    ensures |a| == p
  {
    assert forall j :: 0 <= j < |a| ==> name[j] == a[j];
    assert name[|a|] == ':';
  }

  /** `Math.floor(draw * length)`. */
  function PickIndex(draw: real, length: nat): int {
    (draw * length as real).Floor
  }

  /** The `sounds` list of the entry an event name denotes, with the
      `TypeError`s of the lookup as errors. */
  function EventEntries(session: Session, soundName: string): (r: Result<seq<SoundEntry>, ResolveError>)
    ensures r == Err(UnknownNamespace) <==> EventTable(session, soundName).None?
    ensures r.Ok? ==> (EventTable(session, soundName).Some?
      && NamespaceAndPath(soundName).1 in EventTable(session, soundName).value
      && EventTable(session, soundName).value[NamespaceAndPath(soundName).1].sounds == Some(r.value))
  {
    match EventTable(session, soundName)
    case None => Err(UnknownNamespace)
    case Some(table) =>
      var name := NamespaceAndPath(soundName).1;
      if name !in table then Err(UnknownEntry)
      else match table[name].sounds
        case None => Err(NoSounds)
        case Some(entries) => Ok(entries)
  }

  /** Where a resolved target points: a vanilla file present in the asset
      index, or a zip path `assets/<file>` for a file the index lacks. */
  ghost predicate Located(session: Session, t: Target) {
    && session.assets.objects.Some?
    && match t
       case VanillaAsset(file, _, _) => file in session.assets.objects.value
       case ZipEntry(path, _, _) =>
         |path| >= 7 && path[..7] == "assets/" && path[7..] !in session.assets.objects.value
  }

  lemma LocateLocated(session: Session, fileName: string, volume: real, pitch: real)
    ensures var r := Locate(session, fileName, volume, pitch);
      r.Ok? ==> Located(session, r.value)
  {
    var r := Locate(session, fileName, volume, pitch);
    if r.Ok? && r.value.ZipEntry? {
      var file := SoundFile(fileName);
      assert ("assets/" + file)[..7] == "assets/" && ("assets/" + file)[7..] == file;
    }
  }

  /** `playSoundAsync(soundName, volume, pitch, isEvent)` with `Math.random`
      replaced by the sequence `draws`, one draw per event entry visited.
      Whatever the path, a target reached is a file of the asset index or
      a zip path for one it lacks; a name that is not an event goes
      straight to the file lookup, and only an event can use up the
      draws. */
  function Resolve(session: Session, soundName: string, volume: real, pitch: real, isEvent: bool, draws: seq<real>)
    : (r: Result<Target, ResolveError>)
    decreases |draws|, 0
    ensures r.Ok? ==> Located(session, r.value)
    ensures !isEvent ==> r == Locate(session, soundName, volume, pitch)
    ensures r == Err(DrawsExhausted) ==> isEvent
    ensures isEvent && EventTable(session, soundName).None? ==> r == Err(UnknownNamespace)
  {
    if !isEvent then
      LocateLocated(session, soundName, volume, pitch);
      Locate(session, soundName, volume, pitch)
    else
      match EventEntries(session, soundName)
      case Err(e) => Err(e)
      case Ok(entries) =>
        if draws == [] then Err(DrawsExhausted)
        else
          var i := PickIndex(draws[0], |entries|);
          if 0 <= i < |entries| then ResolvePicked(session, entries[i], volume, pitch, draws[1..])
          else Err(NothingPicked)
  }

  /** What `playSoundAsync` does with the picked element: a string is the
      file name; an event object recurses on its `name` with volume and
      pitch multiplied by its own (`?? 1`); a file object is the file
      named, its volume and pitch applied only when truthy. A target
      reached this way is located like any other, and an object whose
      `name` is not a string stops the resolution. */
  function ResolvePicked(session: Session, picked: SoundEntry, volume: real, pitch: real, rest: seq<real>)
    : (r: Result<Target, ResolveError>)
    decreases |rest|, 1
    ensures r.Ok? ==> Located(session, r.value)
    ensures NameOf(picked).None? ==> r == Err(NameNotString)
    ensures picked.Bare? ==> r == Locate(session, picked.file, volume, pitch)
    ensures !IsEventEntry(picked) && NameOf(picked).Some? ==>
      r == Locate(session, NameOf(picked).value, volume * TruthyFactor(picked, "volume"),
                  pitch * TruthyFactor(picked, "pitch"))
  {
    match picked
    case Bare(file) =>
      LocateLocated(session, file, volume, pitch);
      assert TruthyFactor(picked, "volume") == 1.0 && TruthyFactor(picked, "pitch") == 1.0;
      Locate(session, file, volume, pitch)
    case Obj(_) =>
      match NameOf(picked)
      case None => Err(NameNotString)
      case Some(n) =>
        if IsEventEntry(picked) then
          Resolve(session, n, volume * FactorOr1(picked, "volume"), pitch * FactorOr1(picked, "pitch"), true, rest)
        else
          LocateLocated(session, n, volume * TruthyFactor(picked, "volume"), pitch * TruthyFactor(picked, "pitch"));
          Locate(session, n, volume * TruthyFactor(picked, "volume"), pitch * TruthyFactor(picked, "pitch"))
  }

  /** The first draw picks `picked` from the entry named by `soundName`. */
  predicate Picks(session: Session, soundName: string, draws: seq<real>, picked: SoundEntry) {
    && EventEntries(session, soundName).Ok?
    && draws != []
    && var entries := EventEntries(session, soundName).value;
    && 0 <= PickIndex(draws[0], |entries|) < |entries|
    && entries[PickIndex(draws[0], |entries|)] == picked
  }

  /** An event resolves through the element its first draw picks, with the
      remaining draws. */
  lemma ResolveThroughPick(session: Session, soundName: string, volume: real, pitch: real, draws: seq<real>, picked: SoundEntry)
    requires Picks(session, soundName, draws, picked)
    ensures Resolve(session, soundName, volume, pitch, true, draws) == ResolvePicked(session, picked, volume, pitch, draws[1..])
  {
  }

  /** A picked event object hands on to the entry it names, scaling
      volume and pitch by its own factors (`?? 1`). */
  lemma PickedEvent(session: Session, picked: SoundEntry, volume: real, pitch: real, rest: seq<real>)
    requires picked.Obj? && IsEventEntry(picked) && NameOf(picked).Some?
    ensures ResolvePicked(session, picked, volume, pitch, rest)
      == Resolve(session, NameOf(picked).value, volume * FactorOr1(picked, "volume"),
                 pitch * FactorOr1(picked, "pitch"), true, rest)
  {
  }

  /** A chain of picks: the `i`-th draw picks `picks[i]` from the entry
      named `names[i]`, and every pick but the last is an event object
      naming the next entry. */
  ghost predicate EventChain(session: Session, names: seq<string>, picks: seq<SoundEntry>, draws: seq<real>) {
    && |names| == |picks| > 0 && |draws| >= |picks|
    && (forall i :: 0 <= i < |picks| ==> Picks(session, names[i], draws[i..], picks[i]))
    && (forall i :: 0 <= i < |picks| - 1 ==>
          picks[i].Obj? && IsEventEntry(picks[i]) && NameOf(picks[i]) == Some(names[i + 1]))
  }

  /** `x` multiplied in turn by the `?? 1` factor of `key` of each event
      passed through, in the order the resolver applies them. */
  function Scaled(x: real, picks: seq<SoundEntry>, key: string): real
    decreases |picks|
  {
    if picks == [] then x else Scaled(x * FactorOr1(picks[0], key), picks[1..], key)
  }

  /** A chain without its first link is a chain, with one draw fewer. */
  lemma ChainTail(session: Session, names: seq<string>, picks: seq<SoundEntry>, draws: seq<real>)
    requires EventChain(session, names, picks, draws) && |picks| > 1
    ensures EventChain(session, names[1..], picks[1..], draws[1..])
  {
    var names', picks', draws' := names[1..], picks[1..], draws[1..];
    forall i | 0 <= i < |picks'| ensures Picks(session, names'[i], draws'[i..], picks'[i]) {
      assert draws'[i..] == draws[i + 1..];
      assert Picks(session, names[i + 1], draws[i + 1..], picks[i + 1]);
    }
    forall i | 0 <= i < |picks'| - 1
      ensures picks'[i].Obj? && IsEventEntry(picks'[i]) && NameOf(picks'[i]) == Some(names'[i + 1])
    {
      assert picks'[i] == picks[i + 1] && names'[i + 1] == names[i + 2];
    }
  }

  /** The first link of a chain of two or more: the first draw leads to
      the second name, with the first event's factors applied. */
  lemma FirstLink(session: Session, names: seq<string>, picks: seq<SoundEntry>,
                  volume: real, pitch: real, draws: seq<real>)
    requires EventChain(session, names, picks, draws) && |picks| > 1
    ensures Resolve(session, names[0], volume, pitch, true, draws)
      == Resolve(session, names[1], volume * FactorOr1(picks[0], "volume"),
                 pitch * FactorOr1(picks[0], "pitch"), true, draws[1..])
  {
    assert Picks(session, names[0], draws[0..], picks[0]);
    assert draws[0..] == draws;
    ResolveThroughPick(session, names[0], volume, pitch, draws, picks[0]);
    assert picks[0].Obj? && IsEventEntry(picks[0]) && NameOf(picks[0]) == Some(names[0 + 1]);
    PickedEvent(session, picks[0], volume, pitch, draws[1..]);
  }

  /** The only link of a chain of one: the first draw picks the element
      that is then resolved. */
  lemma LastLink(session: Session, names: seq<string>, picks: seq<SoundEntry>,
                 volume: real, pitch: real, draws: seq<real>)
    requires EventChain(session, names, picks, draws)
    ensures Resolve(session, names[0], volume, pitch, true, draws)
      == ResolvePicked(session, picks[0], volume, pitch, draws[1..])
  {
    assert Picks(session, names[0], draws[0..], picks[0]);
    assert draws[0..] == draws;
    ResolveThroughPick(session, names[0], volume, pitch, draws, picks[0]);
  }

  /** Following a chain of events: resolving the first name uses one draw
      per link and ends as the last pick resolves, with volume and pitch
      multiplied by the factors of every event passed through. */
  lemma {:induction false} ResolveAlongChain(session: Session, names: seq<string>, picks: seq<SoundEntry>,
                                             volume: real, pitch: real, draws: seq<real>)
    requires EventChain(session, names, picks, draws)
    ensures var n := |picks|;
      Resolve(session, names[0], volume, pitch, true, draws)
      == ResolvePicked(session, picks[n - 1], Scaled(volume, picks[..n - 1], "volume"),
                       Scaled(pitch, picks[..n - 1], "pitch"), draws[n..])
    decreases |picks|
  {
    var n := |picks|;
    if n == 1 {
      LastLink(session, names, picks, volume, pitch, draws);
      assert picks[..0] == [];
    } else {
      var v, q := volume * FactorOr1(picks[0], "volume"), pitch * FactorOr1(picks[0], "pitch");
      ChainTail(session, names, picks, draws);
      ResolveAlongChain(session, names[1..], picks[1..], v, q, draws[1..]);
      assert names[1..][0] == names[1] && picks[1..][n - 2] == picks[n - 1];
      assert picks[1..][..n - 2] == picks[1..n - 1] && draws[1..][n - 1..] == draws[n..];
      ChainStep(session, names, picks, volume, pitch, draws, v, q);
    }
  }

  /** A chain that ends at a file: resolving the first name plays the file
      the last pick names, with volume and pitch multiplied by the `?? 1`
      factors of every event passed through and then by the file object's
      own truthy factors (none for a bare string), after one draw per link. */
  lemma ChainEndsAtFile(session: Session, names: seq<string>, picks: seq<SoundEntry>,
                        volume: real, pitch: real, draws: seq<real>)
    requires EventChain(session, names, picks, draws)
    requires !IsEventEntry(picks[|picks| - 1]) && NameOf(picks[|picks| - 1]).Some?
    ensures var n, last := |picks|, picks[|picks| - 1];
      Resolve(session, names[0], volume, pitch, true, draws)
      == Locate(session, NameOf(last).value,
                Scaled(volume, picks[..n - 1], "volume") * TruthyFactor(last, "volume"),
                Scaled(pitch, picks[..n - 1], "pitch") * TruthyFactor(last, "pitch"))
  {
    ResolveAlongChain(session, names, picks, volume, pitch, draws);
  }

  /** The step of `ResolveAlongChain`: the first link, followed by the
      rest of the chain resolved with the first event's factors applied. */
  lemma ChainStep(session: Session, names: seq<string>, picks: seq<SoundEntry>,
                  volume: real, pitch: real, draws: seq<real>, v: real, q: real)
    requires EventChain(session, names, picks, draws) && |picks| > 1
    requires v == volume * FactorOr1(picks[0], "volume") && q == pitch * FactorOr1(picks[0], "pitch")
    requires var n := |picks|;
      Resolve(session, names[1], v, q, true, draws[1..])
      == ResolvePicked(session, picks[n - 1], Scaled(v, picks[1..n - 1], "volume"),
                       Scaled(q, picks[1..n - 1], "pitch"), draws[n..])
    ensures var n := |picks|;
      Resolve(session, names[0], volume, pitch, true, draws)
      == ResolvePicked(session, picks[n - 1], Scaled(volume, picks[..n - 1], "volume"),
                       Scaled(pitch, picks[..n - 1], "pitch"), draws[n..])
  {
    var n := |picks|;
    assert Resolve(session, names[0], volume, pitch, true, draws) == Resolve(session, names[1], v, q, true, draws[1..]) by {
      FirstLink(session, names, picks, volume, pitch, draws);
    }
    assert Scaled(volume, picks[..n - 1], "volume") == Scaled(v, picks[1..n - 1], "volume")
        && Scaled(pitch, picks[..n - 1], "pitch") == Scaled(q, picks[1..n - 1], "pitch") by {
      ScaledFront(volume, v, picks, "volume");
      ScaledFront(pitch, q, picks, "pitch");
    }
  }

  /** Scaling by every link but the last is scaling by the first link,
      then by the ones between. */
  lemma ScaledFront(x: real, y: real, picks: seq<SoundEntry>, key: string)
    requires |picks| > 1 && y == x * FactorOr1(picks[0], key)
    ensures Scaled(x, picks[..|picks| - 1], key) == Scaled(y, picks[1..|picks| - 1], key)
  {
    var front := picks[..|picks| - 1];
    assert front[0] == picks[0] && front[1..] == picks[1..|picks| - 1];
    ScaledStep(x, y, front, picks[1..|picks| - 1], key);
  }

  /** One step of `Scaled`. */
  lemma ScaledStep(x: real, y: real, picks: seq<SoundEntry>, rest: seq<SoundEntry>, key: string)
    requires picks != [] && picks[1..] == rest && y == x * FactorOr1(picks[0], key)
    ensures Scaled(x, picks, key) == Scaled(y, rest, key)
  {
  }

  /** An event name outside `minecraft` is looked up in its namespace's
      table under the text after the colon; an unknown namespace or entry
      rejects. */
  lemma ModEventLookup(session: Session, ns: string, name: string, volume: real, pitch: real, draws: seq<real>)
    requires ':' !in ns && ':' !in name && ns != "minecraft"
    ensures EventTable(session, ns + ":" + name) == if ns in session.mods then Some(session.mods[ns]) else None
    ensures NamespaceAndPath(ns + ":" + name).1 == name
    ensures ns !in session.mods ==> Resolve(session, ns + ":" + name, volume, pitch, true, draws) == Err(UnknownNamespace)
    ensures ns in session.mods && name !in session.mods[ns] ==>
      Resolve(session, ns + ":" + name, volume, pitch, true, draws) == Err(UnknownEntry)
  {
    QualifiedName(ns, name);
    var s := ns + ":" + name;
    var m := "minecraft:";
    assert s[|ns|] == ':';
    if |s| >= |m| {
      if |ns| < 9 {
        assert s[..|m|][|ns|] != m[|ns|];
      } else if |ns| == 9 {
        assert s[..|m|][..9] == ns;
        assert m[..9] == "minecraft";
      } else {
        assert s[..|m|][9] == ns[9] != ':';
      }
    }
    assert !StartsWith(s, m);
    assert ':' in s;
  }

  /** `??` and truthiness differ on 0: an event object with volume 0
      silences what it points to, while a file object with volume 0 plays
      at the volume it was asked for. */
  lemma ZeroVolumeFactor(session: Session, picked: SoundEntry, volume: real, pitch: real, rest: seq<real>)
    requires picked.Obj? && Prop(picked, "volume") == Some(Num(0.0)) && NameOf(picked).Some?
    ensures IsEventEntry(picked) ==>
      ResolvePicked(session, picked, volume, pitch, rest)
      == Resolve(session, NameOf(picked).value, 0.0, pitch * FactorOr1(picked, "pitch"), true, rest)
    ensures !IsEventEntry(picked) ==>
      ResolvePicked(session, picked, volume, pitch, rest)
      == Locate(session, NameOf(picked).value, volume, pitch * TruthyFactor(picked, "pitch"))
  {
    var n := NameOf(picked).value;
    var r := ResolvePicked(session, picked, volume, pitch, rest);
    if IsEventEntry(picked) {
      var v := volume * FactorOr1(picked, "volume");
      assert FactorOr1(picked, "volume") == 0.0;
      assert v == 0.0;
      assert r == Resolve(session, n, v, pitch * FactorOr1(picked, "pitch"), true, rest);
    } else {
      var v := volume * TruthyFactor(picked, "volume");
      assert TruthyFactor(picked, "volume") == 1.0;
      assert v == volume;
      assert r == Locate(session, n, v, pitch * TruthyFactor(picked, "pitch"));
    }
  }

  /** The event object that names `name` itself. */
  function SelfEvent(name: string): SoundEntry {
    Obj(map["name" := Str(name), "type" := Str("event")])
  }

  /** A vanilla entry whose only sound is the event pointing back at it. */
  predicate SelfReferencing(session: Session, name: string) {
    ':' !in name && name in session.vanilla && session.vanilla[name].sounds == Some([SelfEvent(name)])
  }

  lemma SelfPicks(session: Session, name: string, draws: seq<real>)
    requires SelfReferencing(session, name)
    requires draws != [] && 0.0 <= draws[0] < 1.0
    ensures Picks(session, name, draws, SelfEvent(name)) && NameOf(SelfEvent(name)) == Some(name)
    ensures IsEventEntry(SelfEvent(name))
    ensures FactorOr1(SelfEvent(name), "volume") == 1.0 && FactorOr1(SelfEvent(name), "pitch") == 1.0
  {
    assert PickIndex(draws[0], 1) == 0;
    assert NamespaceAndPath(name) == ("minecraft", name);
    assert EventTable(session, name) == Some(session.vanilla);
    assert "volume" !in SelfEvent(name).props && "pitch" !in SelfEvent(name).props;
  }

  /** One pick of a self-referencing entry leads back to the same entry,
      with volume and pitch unchanged and one draw fewer. */
  lemma SelfStep(session: Session, name: string, volume: real, pitch: real, draws: seq<real>)
    requires SelfReferencing(session, name)
    requires draws != [] && 0.0 <= draws[0] < 1.0
    ensures Resolve(session, name, volume, pitch, true, draws) == Resolve(session, name, volume, pitch, true, draws[1..])
  {
    SelfPicks(session, name, draws);
    ResolveThroughPick(session, name, volume, pitch, draws, SelfEvent(name));
    assert volume * 1.0 == volume && pitch * 1.0 == pitch;
  }

  /** The resolver has no guard against cycles: a vanilla event whose only
      sound is an event pointing back at itself is followed until the
      draws run out, whatever they are. */
  lemma {:induction false} SelfReferenceNeverResolves(session: Session, name: string, volume: real, pitch: real, draws: seq<real>)
    requires SelfReferencing(session, name)
    requires forall k :: 0 <= k < |draws| ==> 0.0 <= draws[k] < 1.0
    ensures Resolve(session, name, volume, pitch, true, draws) == Err(DrawsExhausted)
    decreases |draws|
  {
    if draws == [] {
      assert NamespaceAndPath(name) == ("minecraft", name);
      assert EventEntries(session, name) == Ok([SelfEvent(name)]);
    } else {
      SelfStep(session, name, volume, pitch, draws);
      var rest := draws[1..];
      assert forall k :: 0 <= k < |rest| ==> rest[k] == draws[k + 1];
      SelfReferenceNeverResolves(session, name, volume, pitch, rest);
    }
  }

  /** `isEventSoundName(name)`: true exactly when no `.ogg` file backs the
      name, judged by the vanilla index for `minecraft` and by the zip for
      any other namespace. */
  function IsEventSoundName(session: Session, name: string): Result<bool, ResolveError> {
    var (ns, path) := NamespaceAndPath(name);
    if ns == "minecraft" then
      match session.assets.objects
      case None => Err(NoAssetIndex)
      case Some(objects) => Ok("minecraft/sounds/" + path + ".ogg" !in objects)
    else
      match session.zip
      case None => Err(NoResourcePack)
      case Some(files) => Ok("assets/" + ns + "/sounds/" + path + ".ogg" !in files)
  }

  /** `isEventSoundName` agrees with the resolver: a `minecraft` name is a
      file exactly when resolving it as a file goes to the vanilla index,
      and a name of another namespace that the index lacks is a file
      exactly when the zip entry the resolver would read exists. */
  lemma IsEventAgreesWithLocate(session: Session, name: string, volume: real, pitch: real)
    requires session.assets.objects.Some?
    ensures NamespaceAndPath(name).0 == "minecraft" ==>
      (IsEventSoundName(session, name) == Ok(false) <==> Locate(session, name, volume, pitch).value.VanillaAsset?)
    ensures (NamespaceAndPath(name).0 != "minecraft" && session.zip.Some?
      && Locate(session, name, volume, pitch).value.ZipEntry?) ==>
      (IsEventSoundName(session, name) == Ok(false) <==> Locate(session, name, volume, pitch).value.path in session.zip.value)
  {
    var (ns, path) := NamespaceAndPath(name);
    assert ns + "/sounds/" + path + ".ogg" == SoundFile(name);
    if ns == "minecraft" {
      assert "minecraft/sounds/" + path + ".ogg" == SoundFile(name);
    } else {
      assert "assets/" + ns + "/sounds/" + path + ".ogg" == "assets/" + SoundFile(name);
    }
  }

  /** `getAssetHash(fileName)`: the `hash` of the index entry, `undefined`
      when the index, the entry or the hash is missing. */
  function GetAssetHash(assets: AssetsJson, fileName: string): (h: Option<string>)
    ensures h.Some? <==> (assets.objects.Some? && fileName in assets.objects.value
                          && assets.objects.value[fileName].hash.Some?)
    ensures h.Some? ==> h == assets.objects.value[fileName].hash
  {
    match assets.objects
    case None => None
    case Some(objects) => if fileName in objects then objects[fileName].hash else None
  }

  /** What reaches the audio element. */
  datatype Source = Remote(uri: string) | Blob(zipPath: string)

  /** The outcome of playing a target: played with clamped volume and rate;
      `Silent` when the vanilla branch swallows a missing hash and returns
      `undefined`; `Rejected` when the zip lacks the file. */
  datatype Playback = Play(source: Source, volume: real, rate: real) | Silent | Rejected

  /** `playVanillaAssetAsync` and `playBlobInZipAsync`. */
  function PlayTarget(session: Session, target: Target): (r: Playback)
    ensures r.Play? ==> 0.0 <= r.volume <= 1.0 && 0.1 <= r.rate <= 2.0
    ensures target.VanillaAsset? ==> (r.Play? <==> GetAssetHash(session.assets, target.file).Some?)
    ensures target.VanillaAsset? && r.Play? ==>
      var hash := GetAssetHash(session.assets, target.file).value;
      r.source == Remote(ResourcesBase + (if |hash| < 2 then hash else hash[..2]) + "/" + hash)
    ensures target.ZipEntry? ==> (r.Play? <==> session.zip.Some? && target.path in session.zip.value)
    ensures target.ZipEntry? && r.Play? ==> r.source == Blob(target.path)
  {
    match target
    case VanillaAsset(file, volume, pitch) =>
      (match GetAssetHash(session.assets, file)
       case None => Silent
       case Some(hash) =>
         ResourceUriShape(hash);
         Play(Remote(GetResourceUri(hash)), PlaybackVolume(volume), PlaybackRate(pitch)))
    case ZipEntry(path, volume, pitch) =>
      if session.zip.Some? && path in session.zip.value then Play(Blob(path), PlaybackVolume(volume), PlaybackRate(pitch))
      else Rejected
  }

  // ---------------------------------------------------------------------
  // refreshJsonAsync

  /** The asset keys kept after a fetch: `.ogg` files outside the music
      folder. */
  predicate KeepAsset(key: string) {
    EndsWith(key, ".ogg") && !StartsWith(key, "minecraft/sounds/music/")
  }

  /** The vanilla sound entries dropped after a fetch: music and discs. */
  predicate DropSound(key: string) {
    StartsWith(key, "music.") || StartsWith(key, "music_disc.")
  }

  ghost predicate AssetsFiltered(kept: map<string, AssetObject>, objects: map<string, AssetObject>) {
    (forall k :: k in kept <==> k in objects && KeepAsset(k))
    && forall k :: k in kept ==> kept[k] == objects[k]
  }

  ghost predicate SoundsFiltered(kept: Table, sounds: Table) {
    (forall k :: k in kept <==> k in sounds && !DropSound(k))
    && forall k :: k in kept ==> kept[k] == sounds[k]
  }

  /** The `delete` loop over the fetched asset index. */
  method FilterAssetObjects(objects: map<string, AssetObject>) returns (kept: map<string, AssetObject>)
    ensures AssetsFiltered(kept, objects)
  {
    kept := objects;
    var keys := objects.Keys;
    while keys != {}
      invariant keys <= objects.Keys
      invariant forall k :: k in kept <==> k in objects && (k in keys || KeepAsset(k))
      invariant forall k :: k in kept ==> kept[k] == objects[k]
      decreases keys
    {
      var key :| key in keys;
      if !KeepAsset(key) {
        kept := kept - {key};
      }
      keys := keys - {key};
    }
  }

  /** The `delete` loop over the fetched vanilla sounds table. */
  method FilterVanillaSounds(sounds: Table) returns (kept: Table)
    ensures SoundsFiltered(kept, sounds)
  {
    kept := sounds;
    var keys := sounds.Keys;
    while keys != {}
      invariant keys <= sounds.Keys
      invariant forall k :: k in kept <==> k in sounds && (k in keys || !DropSound(k))
      invariant forall k :: k in kept ==> kept[k] == sounds[k]
      decreases keys
    {
      var key :| key in keys;
      if DropSound(key) {
        kept := kept - {key};
      }
      keys := keys - {key};
    }
  }

  /** `value.replace('minecraft/sounds/', 'minecraft:').replace('.ogg', '')`. */
  function AssetSoundName(key: string): string {
    ReplaceFirst(ReplaceFirst(key, "minecraft/sounds/", "minecraft:"), ".ogg", "")
  }

  /** An asset key `minecraft/sounds/<p>.ogg` is listed as `minecraft:<p>`,
      provided `.ogg` occurs in `p.ogg` only at its end. */
  lemma AssetSoundNameShape(p: string)
    requires forall i :: 0 <= i < |p| ==> !OccursAt(p + ".ogg", ".ogg", i)
    ensures AssetSoundName("minecraft/sounds/" + p + ".ogg") == "minecraft:" + p
  {
    var ext := ".ogg";
    assert "minecraft/sounds/" + p + ext == "minecraft/sounds/" + (p + ext);
    ReplaceFirstAtStart("minecraft/sounds/", p + ext, "minecraft:");
    var mid := "minecraft:" + (p + ext);
    var k := |"minecraft:"| + |p|;
    NoOccurrenceWithout("minecraft:", p + ext, ext);
    forall i | 0 <= i < k ensures !OccursAt(mid, ext, i) {
      if i >= |"minecraft:"| {
        OccursAtAppend("minecraft:", p + ext, ext, i - |"minecraft:"|);
      }
    }
    ReplaceFirstSkip(mid, k, ext, "");
    assert mid[..k] == "minecraft:" + p;
    assert mid[k..] == ext + "";
    ReplaceFirstAtStart(ext, "", "");
  }

  /** The names offered for a vanilla file are recognised as files: such a
      name is not an event, and playing it goes to the vanilla index. */
  lemma ListedFileIsNotEvent(session: Session, p: string, volume: real, pitch: real, draws: seq<real>)
    requires session.assets.objects.Some?
    requires "minecraft/sounds/" + p + ".ogg" in session.assets.objects.value
    requires ':' !in p
    ensures IsEventSoundName(session, "minecraft:" + p) == Ok(false)
    ensures Resolve(session, "minecraft:" + p, volume, pitch, false, draws)
      == Ok(VanillaAsset("minecraft/sounds/" + p + ".ogg", volume, pitch))
  {
    QualifiedName("minecraft", p);
    assert "minecraft:" + p == "minecraft" + ":" + p;
    var file := "minecraft/sounds/" + p + ".ogg";
    assert "minecraft" + "/sounds/" + p + ".ogg" == file;
    assert SoundFile("minecraft:" + p) == file;
    assert NamespaceAndPath("minecraft:" + p) == ("minecraft", p);
    assert IsEventSoundName(session, "minecraft:" + p) == Ok(file !in session.assets.objects.value);
  }

  /** `prefix + key` for every key. */
  function Prefixed(prefix: string, keys: seq<string>): (r: seq<string>)
    ensures |r| == |keys|
    ensures forall i :: 0 <= i < |keys| ==> r[i] == prefix + keys[i]
  {
    seq(|keys|, i requires 0 <= i < |keys| => prefix + keys[i])
  }

  /** `AssetSoundName` of every key. */
  function AssetSoundNames(keys: seq<string>): (r: seq<string>)
    ensures |r| == |keys|
    ensures forall i :: 0 <= i < |keys| ==> r[i] == AssetSoundName(keys[i])
  {
    seq(|keys|, i requires 0 <= i < |keys| => AssetSoundName(keys[i]))
  }

  /** The names a refresh offers for completion, in the order the three
      `map`s produce them: each ExtraSounds key as `extrasounds:<key>`,
      each vanilla key as `minecraft:<key>`, each file through
      `AssetSoundName`. */
  function AllNames(esKeys: seq<string>, mcKeys: seq<string>, assetKeys: seq<string>): seq<string> {
    Prefixed("extrasounds:", esKeys) + Prefixed("minecraft:", mcKeys) + AssetSoundNames(assetKeys)
  }

  /** The tables and lists a refresh writes. */
  datatype Loaded = Loaded(minecraftVer: McVersion, assets: AssetsJson, vanilla: Table, mods: map<string, Table>,
                           allNames: seq<seq<string>>, entries: seq<string>)

  /** The outcome of `refreshJsonAsync` on a state with a pack of format
      `packFormat`, from `before` to `after`. The version is derived from
      the format; each task that succeeds stores its filtered or merged
      table and a failed one leaves its table alone (the vanilla sounds
      fetch cannot fail: it yields `{}` instead); `ok`, the promise
      resolving, means the asset index had `objects` and the ExtraSounds
      merge went through, and only then are the name lists rebuilt. */
  ghost predicate Refreshed(before: Loaded, after: Loaded, ok: bool, formats: FormatTable, packFormat: int,
                            fetchedAssets: AssetsJson, fetchedSounds: Table, autoGen: Option<Table>, esSounds: Table)
    requires formats.Valid()
  {
    var merged := if autoGen.Some? then MergeAll(autoGen.value, [esSounds]) else Err(SoundsUndefined);
    && after.minecraftVer == VersionForFormat(formats, packFormat, |formats.order|)
    && (fetchedAssets.objects.Some? ==>
          after.assets.objects.Some? && AssetsFiltered(after.assets.objects.value, fetchedAssets.objects.value))
    && (fetchedAssets.objects.None? ==> after.assets == before.assets)
    && SoundsFiltered(after.vanilla, fetchedSounds)
    && (merged.Ok? ==> after.mods == before.mods["extrasounds" := merged.value])
    && (merged.Err? ==> after.mods == before.mods)
    && (ok <==> fetchedAssets.objects.Some? && merged.Ok?)
    && (ok ==> (&& "extrasounds" in after.mods && after.assets.objects.Some?
                && NameListsFrom(after.allNames, after.entries, after.mods["extrasounds"], after.vanilla,
                                 after.assets.objects.value)))
    && (!ok ==> after.allNames == before.allNames && after.entries == before.entries)
  }

  /** The body of `refreshJsonAsync` after its first line, on the values
      it reads and writes: the three tasks, each storing its result when
      it succeeds, and the name lists rebuilt only when all three do. */
  method RunRefresh(before: Loaded, mcVer: McVersion, formats: FormatTable, packFormat: int,
                    fetchedAssets: AssetsJson, fetchedSounds: Table, autoGen: Option<Table>, esSounds: Table)
    returns (after: Loaded, ok: bool)
    requires formats.Valid() && mcVer == VersionForFormat(formats, packFormat, |formats.order|)
    ensures Refreshed(before, after, ok, formats, packFormat, fetchedAssets, fetchedSounds, autoGen, esSounds)
  {
    ok := true;
    // the asset index task
    var assets := before.assets;
    match fetchedAssets.objects {
      case None => ok := false;
      case Some(objects) =>
        var kept := FilterAssetObjects(objects);
        assets := AssetsJson(Some(kept));
    }
    // the vanilla sounds task
    var vanilla := FilterVanillaSounds(fetchedSounds);
    // the ExtraSounds task
    var mods := before.mods;
    match autoGen {
      case None => ok := false;
      case Some(generated) =>
        var merged := MergeSoundsJson(generated, [esSounds]);
        match merged {
          case Err(_) => ok := false;
          case Ok(table) => mods := mods["extrasounds" := table];
        }
    }
    var allNames, entries := before.allNames, before.entries;
    if ok {
      allNames, entries := BuildNameLists(mods["extrasounds"], vanilla, assets.objects.value);
    }
    after := Loaded(mcVer, assets, vanilla, mods, allNames, entries);
  }

  /** The private static fields of StateHandler. Unset strings are empty. */
  class StateHandler {
    var resourcePack: ResPack?
    var extraSoundsVer: string
    var minecraftVer: McVersion
    var vanillaAssetsJson: AssetsJson
    /** The completion list as `refreshJsonAsync` stores it: what
        `sortedUnique` returns for its one array argument. */
    var allSoundNameList: seq<seq<string>>
    var vanillaSoundsJson: Table
    var modSoundsJson: map<string, Table>
    var extraSoundsEntryList: seq<string>

    /** The static initialisers. */
    constructor ()
      ensures resourcePack == null && extraSoundsVer == "" && minecraftVer == Named("")
      ensures vanillaAssetsJson == AssetsJson(None) && allSoundNameList == []
      ensures vanillaSoundsJson == map[] && modSoundsJson == map[] && extraSoundsEntryList == []
    {
      resourcePack := null;
      extraSoundsVer := "";
      minecraftVer := Named("");
      vanillaAssetsJson := AssetsJson(None);
      allSoundNameList := [];
      vanillaSoundsJson := map[];
      modSoundsJson := map[];
      extraSoundsEntryList := [];
    }

    /** The state `playSoundAsync` and `isEventSoundName` read. */
    function Snapshot(): Session
      reads this, resourcePack
    {
      Session(vanillaAssetsJson, vanillaSoundsJson, modSoundsJson,
        if resourcePack == null then None else resourcePack.files)
    }

    /** The part of the state a refresh writes. */
    function Current(): Loaded
      reads this
    {
      Loaded(minecraftVer, vanillaAssetsJson, vanillaSoundsJson, modSoundsJson, allSoundNameList, extraSoundsEntryList)
    }

    /** `clearProject()`: every field back to empty. */
    method ClearProject()
      modifies this
      ensures resourcePack == null && extraSoundsVer == "" && minecraftVer == Named("")
      ensures vanillaAssetsJson == AssetsJson(None) && allSoundNameList == []
      ensures vanillaSoundsJson == map[] && modSoundsJson == map[] && extraSoundsEntryList == []
    {
      resourcePack := null;
      allSoundNameList := [];
      extraSoundsEntryList := [];
      vanillaAssetsJson := AssetsJson(None);
      vanillaSoundsJson := map[];
      modSoundsJson := map[];
      extraSoundsVer := "";
      minecraftVer := Named("");
    }

    /** `refreshJsonAsync()` with the fetched documents as inputs: the asset
      index (`objects` missing after a failed fetch), the vanilla sounds
      table (`{}` after a failed fetch), the generated ExtraSounds table
      (`None` when its fetch rejects) and the ExtraSounds sounds.json.
      Without a pack the first line throws and nothing changes; otherwise
      the state moves as `Refreshed` says. */
    method RefreshJson(formats: FormatTable, fetchedAssets: AssetsJson, fetchedSounds: Table,
                       autoGen: Option<Table>, esSounds: Table) returns (ok: bool)
      requires formats.Valid()
      modifies this
      ensures resourcePack == old(resourcePack) && extraSoundsVer == old(extraSoundsVer)
      ensures resourcePack == null ==> !ok && Current() == old(Current())
      ensures resourcePack != null ==>
        Refreshed(old(Current()), Current(), ok, formats, resourcePack.packFormat,
                  fetchedAssets, fetchedSounds, autoGen, esSounds)
    {
      if resourcePack == null {
        return false;
      }
      var mcVer := resourcePack.GetMCVerFromPackFormat(formats);
      var after;
      after, ok := RunRefresh(Current(), mcVer, formats, resourcePack.packFormat,
                              fetchedAssets, fetchedSounds, autoGen, esSounds);
      minecraftVer, vanillaAssetsJson, vanillaSoundsJson := after.minecraftVer, after.assets, after.vanilla;
      modSoundsJson, allSoundNameList, extraSoundsEntryList := after.mods, after.allNames, after.entries;
    }

    /** `createProjectAsync(resPack, extraSoundsVer)`: store the pack and
      the version, then refresh. */
    method CreateProject(resPack: ResPack, esVer: string, formats: FormatTable, fetchedAssets: AssetsJson,
                         fetchedSounds: Table, autoGen: Option<Table>, esSounds: Table) returns (ok: bool)
      requires formats.Valid()
      modifies this
      ensures resourcePack == resPack && extraSoundsVer == esVer
      ensures Refreshed(old(Current()), Current(), ok, formats, resPack.packFormat,
                        fetchedAssets, fetchedSounds, autoGen, esSounds)
    {
      resourcePack := resPack;
      extraSoundsVer := esVer;
      ok := RefreshJson(formats, fetchedAssets, fetchedSounds, autoGen, esSounds);
    }

    /** `retartgetPack(extraSoundsVer)`: record the version, move the pack's
      `pack_format` to the Minecraft version that release targets, then
      refresh. Without a pack the code throws after the first step: the
      promise rejects (`ok` is false) with only the version changed. */
    method RetargetPack(esVer: string, revisions: Revisions, formats: FormatTable, fetchedAssets: AssetsJson,
                        fetchedSounds: Table, autoGen: Option<Table>, esSounds: Table) returns (ok: bool)
      requires formats.Valid()
      modifies this, resourcePack
      ensures extraSoundsVer == esVer && resourcePack == old(resourcePack)
      ensures resourcePack == null ==> !ok && Current() == old(Current())
      ensures resourcePack != null ==>
        && resourcePack.mcVersion == old(resourcePack.mcVersion)
        && resourcePack.soundsJson == old(resourcePack.soundsJson)
        && resourcePack.files == old(resourcePack.files)
      ensures resourcePack != null ==> (resourcePack.packFormat ==
        ExpectedPackFormat(formats, CompatMCVer(revisions.revisions, esVer, |revisions.revisions|)))
      ensures resourcePack != null ==>
        Refreshed(old(Current()), Current(), ok, formats, resourcePack.packFormat,
                  fetchedAssets, fetchedSounds, autoGen, esSounds)
    {
      extraSoundsVer := esVer;
      var mcVer := revisions.GetCompatMCVer(esVer);
      if resourcePack == null {
        return false;
      }
      resourcePack.SetPackFormatFromMCVer(formats, mcVer);
      ok := RefreshJson(formats, fetchedAssets, fetchedSounds, autoGen, esSounds);
    }
  }

  /** The two lists `refreshJsonAsync` derives from its tables, as written.
      `sortedUnique` receives the spread names as ONE array argument and
      returns the one-element list holding it: the names are kept in the
      order the keys are listed, repeats included, neither sorted nor
      de-duplicated. The ExtraSounds entry keys are each listed once, in
      upper-cased order. */
  ghost predicate NameListsFrom(all: seq<seq<string>>, entries: seq<string>, es: Table, vanilla: Table,
                                objects: map<string, AssetObject>) {
    && |all| == 1
    && (forall n :: n in all[0] <==>
          (exists k :: k in es && n == "extrasounds:" + k)
          || (exists k :: k in vanilla && n == "minecraft:" + k)
          || (exists k :: k in objects && n == AssetSoundName(k)))
    && |all[0]| == |es| + |vanilla| + |objects|
    && multiset(entries) == multiset(es.Keys)
    && (forall i :: 0 <= i < |entries| - 1 ==> UpperCaseCompare(entries[i], entries[i + 1]) <= 0)
  }

  /** The `then` of `refreshJsonAsync`'s `Promise.all`. */
  method BuildNameLists(es: Table, vanilla: Table, objects: map<string, AssetObject>)
    returns (all: seq<seq<string>>, entries: seq<string>)
    ensures NameListsFrom(all, entries, es, vanilla, objects)
  {
    var esKeys := KeysOf(es);
    var mcKeys := KeysOf(vanilla);
    var assetKeys := KeysOf(objects);
    var names := AllNames(esKeys, mcKeys, assetKeys);
    NameListMembers(esKeys, mcKeys, assetKeys);
    all := SortedUniqueOfOneArray(names);
    entries := SortBy(esKeys, UpperCaseBefore());
    UpperCaseSorted(esKeys);
    DistinctSeqMultiset(esKeys, es.Keys);
  }

  /** The list as evidently intended, `sortedUnique(...names)`: every name
      of the three kinds exactly once, in upper-cased order. */
  lemma IntendedNameList(esKeys: seq<string>, mcKeys: seq<string>, assetKeys: seq<string>)
    ensures var r := SortedUnique(AllNames(esKeys, mcKeys, assetKeys));
      && (forall n :: n in r <==>
            (exists k :: k in esKeys && n == "extrasounds:" + k)
            || (exists k :: k in mcKeys && n == "minecraft:" + k)
            || (exists k :: k in assetKeys && n == AssetSoundName(k)))
      && (forall i, j :: 0 <= i < j < |r| ==> r[i] != r[j])
      && (forall i :: 0 <= i < |r| - 1 ==> UpperCaseCompare(r[i], r[i + 1]) <= 0)
  {
    NameListMembers(esKeys, mcKeys, assetKeys);
    SortedUniqueProperties(AllNames(esKeys, mcKeys, assetKeys));
  }

  /** The list the three `map`s concatenate holds exactly the prefixed
      ExtraSounds keys, the prefixed vanilla keys and the file names. */
  lemma NameListMembers(esKeys: seq<string>, mcKeys: seq<string>, assetKeys: seq<string>)
    ensures var names := AllNames(esKeys, mcKeys, assetKeys);
      forall n :: n in names <==>
        (exists k :: k in esKeys && n == "extrasounds:" + k)
        || (exists k :: k in mcKeys && n == "minecraft:" + k)
        || (exists k :: k in assetKeys && n == AssetSoundName(k))
  {
    var a, b, c := Prefixed("extrasounds:", esKeys), Prefixed("minecraft:", mcKeys), AssetSoundNames(assetKeys);
    forall n ensures n in a + b + c <==>
        (exists k :: k in esKeys && n == "extrasounds:" + k)
        || (exists k :: k in mcKeys && n == "minecraft:" + k)
        || (exists k :: k in assetKeys && n == AssetSoundName(k))
    {
      if exists k :: k in esKeys && n == "extrasounds:" + k {
        var k :| k in esKeys && n == "extrasounds:" + k;
        var i :| 0 <= i < |esKeys| && esKeys[i] == k;
        assert a[i] == n;
      }
      if exists k :: k in mcKeys && n == "minecraft:" + k {
        var k :| k in mcKeys && n == "minecraft:" + k;
        var i :| 0 <= i < |mcKeys| && mcKeys[i] == k;
        assert b[i] == n;
      }
      if exists k :: k in assetKeys && n == AssetSoundName(k) {
        var k :| k in assetKeys && n == AssetSoundName(k);
        var i :| 0 <= i < |assetKeys| && assetKeys[i] == k;
        assert c[i] == n;
      }
    }
  }

  /** A duplicate-free enumeration of a set has that set as its multiset. */
  lemma {:induction false} DistinctSeqMultiset(keys: seq<string>, s: set<string>)
    requires forall k :: k in keys <==> k in s
    requires forall i, j :: 0 <= i < j < |keys| ==> keys[i] != keys[j]
    ensures multiset(keys) == multiset(s)
    decreases |keys|
  {
    if keys != [] {
      var k := keys[|keys| - 1];
      var init := keys[..|keys| - 1];
      assert keys == init + [k];
      assert k !in init;
      forall x ensures x in init <==> x in s - {k} {
        if x in init {
          var i :| 0 <= i < |init| && init[i] == x;
          assert keys[i] == x;
        }
      }
      DistinctSeqMultiset(init, s - {k});
      assert s == (s - {k}) + {k};
    } else {
      assert s == {};
    }
  }
}
