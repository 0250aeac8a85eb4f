/** A child of a composite: any one of the reusable leaf settings.

    A composite may hold leaves of every kind side by side, so a child is a
    sum of the five leaf records. All enum children of one composite share
    the enum type `E` and its `EnumCodec`.
 */
module Setting {
  import opened Store
  import opened Outcomes
  import BoolSettings
  import IntSettings
  import FloatSettings
  import StringSettings
  import EnumSettings

  datatype Child<E> =
    | BoolChild(b: BoolSettings.BoolSetting)
    | IntChild(n: IntSettings.IntSetting)
    | FloatChild(f: FloatSettings.FloatSetting)
    | StringChild(t: StringSettings.StringSetting)
    | EnumChild(e: EnumSettings.EnumSetting<E>)
  {
    function Key(): string
    {
      match this
      case BoolChild(b) => b.key
      case IntChild(n) => n.key
      case FloatChild(f) => f.key
      case StringChild(t) => t.key
      case EnumChild(e) => e.key
    }
  }

  /** What the runtime does for the enum type: `Enum.Parse`, `ToString`,
      and the base class's `PostLoadCheckIfValueIsValid`. */
  datatype EnumCodec<!E> = EnumCodec(parse: string -> EnumSettings.ParseOutcome<E>,
                                    show: E -> string,
                                    postCheck: E -> E)

  /** `codec.parse(codec.show(v))` is `Parsed(v)`. */
  ghost predicate NamesRoundTrip<E>(codec: EnumCodec<E>, v: E)
  {
    codec.parse(codec.show(v)) == EnumSettings.Parsed(v)
  }

  /** The child's own `Load`, dispatched on its kind. */
  function Load<E>(c: Child<E>, st: Store, codec: EnumCodec<E>): (r: Loaded<Child<E>>)
    ensures r.Ok? ==> r.setting.Key() == c.Key()
    ensures !c.EnumChild? ==> r.Ok?
  {
    match c
    case BoolChild(b) => Ok(BoolChild(BoolSettings.Load(b, st)))
    case IntChild(n) => Ok(IntChild(IntSettings.Load(n, st)))
    case FloatChild(f) => Ok(FloatChild(FloatSettings.Load(f, st)))
    case StringChild(t) => Ok(StringChild(StringSettings.Load(t, st)))
    case EnumChild(e) =>
      match EnumSettings.Load(e, st, codec.parse, codec.postCheck)
      case Ok(e') => Ok(EnumChild(e'))
      case Failed(err) => Failed(err)
  }

  /** The one store entry the child's `Save` writes. */
  function Encode<E>(c: Child<E>, show: E -> string): StoreValue
  {
    match c
    case BoolChild(b) => B(b.value)
    case IntChild(n) => I(n.value)
    case FloatChild(f) => F(f.value)
    case StringChild(t) => S(t.value)
    case EnumChild(e) => S(show(e.value))
  }

  /** The child's own `Save`, dispatched on its kind. */
  function Save<E>(c: Child<E>, st: Store, show: E -> string): (r: Store)
    ensures r.Keys == st.Keys + {c.Key()}
    ensures r[c.Key()] == Encode(c, show)
    ensures forall k :: k in st && k != c.Key() ==> r[k] == st[k]
  {
    match c
    case BoolChild(b) => BoolSettings.Save(b, st)
    case IntChild(n) => IntSettings.Save(n, st)
    case FloatChild(f) => FloatSettings.Save(f, st)
    case StringChild(t) => StringSettings.Save(t, st)
    case EnumChild(e) => EnumSettings.Save(e, st, show)
  }

  /** `GetCategory()`, which every reusable leaf answers with "". */
  function Category<E>(c: Child<E>): (cat: string)
    ensures |cat| == 0
  {
    ""
  }

  /** `ApplyValue()` of a reusable leaf: an empty override, so the game
      state `g` it would push into is handed back untouched. */
  function Apply<E, G>(c: Child<E>, g: G): G
  {
    g
  }

  /** Two children differ at most in their current `Value`: same kind, same
      key, same default, and for floats the same bounds. */
  ghost predicate SameShape<E>(a: Child<E>, b: Child<E>)
  {
    match (a, b)
    case (BoolChild(x), BoolChild(y)) => x.key == y.key && x.default == y.default
    case (IntChild(x), IntChild(y)) => x.key == y.key && x.default == y.default
    case (FloatChild(x), FloatChild(y)) =>
      x.key == y.key && x.default == y.default && x.minValue == y.minValue && x.maxValue == y.maxValue
    case (StringChild(x), StringChild(y)) => x.key == y.key && x.default == y.default
    case (EnumChild(x), EnumChild(y)) => x.key == y.key && x.default == y.default
    case _ => false
  }

  /** Loading a same-shape child from a store whose entry under the key is
      exactly what `c` saves reproduces `c`. */
  lemma LoadEncoded<E>(c: Child<E>, blank: Child<E>, st: Store, codec: EnumCodec<E>)
    requires SameShape(blank, c)
    requires c.Key() in st && st[c.Key()] == Encode(c, codec.show)
    requires c.EnumChild? ==> NamesRoundTrip(codec, c.e.value)
    ensures Load(blank, st, codec) == Ok(c)
  {
    match c
    case BoolChild(b) =>
    case IntChild(n) =>
    case FloatChild(f) =>
    case StringChild(t) =>
    case EnumChild(e) =>
  }
}
