/** The sounds.json data model (src/@types/sounds_json.d.ts): a table from
    entry names to entries, each holding a `sounds` array whose elements
    are bare strings or objects with optional properties. */
module SoundsJson {
  import opened Wrappers

  /** A JSON value as it may stand in a property of a sound element. */
  datatype Value = Null | Bool(b: bool) | Num(n: real) | Str(s: string)

  /** An element of an entry's `sounds` array: a bare file name, or an
      object whose properties (`name`, `volume`, `pitch`, `weight`, `type`,
      `stream`, `attenuation_distance`, `preload`) may each be absent. */
  datatype SoundEntry = Bare(file: string) | Obj(props: map<string, Value>)

  /** An entry: `sounds` may be missing in a hand-written file, `replace`
      is whatever JSON value the file holds. */
  datatype Sounds = Sounds(sounds: Option<seq<SoundEntry>>, replace: Option<Value>, subtitle: Option<string>)

  type Table = map<string, Sounds>

  /** `entry[key]`: a bare string has none of the object properties. */
  function Prop(e: SoundEntry, key: string): Option<Value> {
    match e
    case Bare(_) => None
    case Obj(props) => if key in props then Some(props[key]) else None
  }

  /** JavaScript truthiness of a property value. */
  predicate Truthy(v: Option<Value>) {
    match v
    case None => false
    case Some(Null) => false
    case Some(Bool(b)) => b
    case Some(Num(n)) => n != 0.0
    case Some(Str(s)) => s != ""
  }

  /** `entry[key] ?? 1` as a multiplier: an absent or `null` property
      gives 1, and a boolean counts as 0 or 1 under `*`. */
  function FactorOr1(e: SoundEntry, key: string): (r: real)
    ensures Prop(e, key).None? || Prop(e, key) == Some(Null) ==> r == 1.0
    ensures Prop(e, key) == Some(Bool(false)) ==> r == 0.0
    ensures forall n :: Prop(e, key) == Some(Num(n)) ==> r == n
  {
    match Prop(e, key)
    case Some(Num(n)) => n
    case Some(Bool(b)) => if b then 1.0 else 0.0
    case _ => 1.0
  }

  /** The factor applied by `if (entry[key]) x *= entry[key]`: a zero or
      absent property leaves `x` alone. */
  function TruthyFactor(e: SoundEntry, key: string): (r: real)
    ensures r != 0.0
    ensures !Truthy(Prop(e, key)) ==> r == 1.0
  {
    match Prop(e, key)
    case Some(Num(n)) => if n != 0.0 then n else 1.0
    case _ => 1.0
  }

  /** `entry['type'] === 'event'`. */
  predicate IsEventEntry(e: SoundEntry) {
    Prop(e, "type") == Some(Str("event"))
  }

  /** The file or event name of an element: the string itself, or its
      `name` property when that is a string. */
  function NameOf(e: SoundEntry): Option<string> {
    match e
    case Bare(s) => Some(s)
    case Obj(props) => if "name" in props && props["name"].Str? then Some(props["name"].s) else None
  }

  /** `Object.keys(m)`: every key once, in an order the model leaves open. */
  method KeysOf<V>(m: map<string, V>) returns (keys: seq<string>)
    ensures forall k :: k in keys <==> k in m
    ensures forall i, j :: 0 <= i < j < |keys| ==> keys[i] != keys[j]
    ensures |keys| == |m|
  {
    keys := [];
    var rest := m.Keys;
    while rest != {}
      invariant rest <= m.Keys
      invariant forall k :: k in keys <==> k in m && k !in rest
      invariant forall i, j :: 0 <= i < j < |keys| ==> keys[i] != keys[j]
      invariant |keys| + |rest| == |m.Keys|
      decreases rest
    {
      var key :| key in rest;
      keys := keys + [key];
      rest := rest - {key};
    }
  }
}
