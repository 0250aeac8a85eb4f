/** `EnumSetting<T>` and `CustomDefaultEnumSetting<T>`: an enum member
    persisted as its name through the store's string operations.

    `Enum.Parse` and `ToString` belong to the runtime, so they are
    parameters: `parse` says what `Enum.Parse(typeof(T), text)` does --
    return a member, throw an `ArgumentException`, or throw anything else --
    and `show` is `ToString`. The foreign base class's
    `PostLoadCheckIfValueIsValid` is the parameter `postCheck`.
 */
module EnumSettings {
  import opened Store
  import opened Outcomes
  import Keys

  datatype ParseOutcome<E> =
    | Parsed(member: E)
    | ArgumentError            // `ArgumentException` or a subclass of it: the text names no member
    | OtherError(name: string) // any other exception type, by name

  datatype EnumSetting<E> = EnumSetting(key: string, value: E, default: E)

  function New<E>(prefix: string, typeName: string, fallback: E, initial: E): (s: EnumSetting<E>)
    ensures s.key == Keys.SettingKey(prefix, typeName)
    ensures s.default == fallback && s.value == initial
  {
    EnumSetting(Keys.SettingKey(prefix, typeName), initial, fallback)
  }

  function NewCustomDefault<E>(prefix: string, typeName: string, defaultValue: E, initial: E): (s: EnumSetting<E>)
    ensures s.key == Keys.SettingKey(prefix, typeName)
    ensures s.default == defaultValue
  {
    New(prefix, typeName, defaultValue, initial)
  }

  /** A stored name that parses is adopted; one whose parse throws
      `ArgumentException` gives way to the default; any other exception
      escapes, and the caller's setting keeps its old `Value`. With the key
      absent the default is adopted and only then is the post-load check
      run. */
  function Load<E>(s: EnumSetting<E>, st: Store, parse: string -> ParseOutcome<E>,
                   postCheck: E -> E): (r: Loaded<EnumSetting<E>>)
    ensures r.Ok? ==> r.setting.key == s.key && r.setting.default == s.default
    ensures s.key in st && st[s.key].S? && parse(st[s.key].s).Parsed? ==>
              r == Ok(s.(value := parse(st[s.key].s).member))
    ensures s.key in st && st[s.key].S? && parse(st[s.key].s).ArgumentError? ==>
              r == Ok(s.(value := s.default))
    ensures s.key in st && st[s.key].S? && parse(st[s.key].s).OtherError? ==>
              r == Failed(Rethrown(parse(st[s.key].s).name))
    ensures !(s.key in st && st[s.key].S?) ==> r == Ok(s.(value := postCheck(s.default)))
  {
    match TryLoadString(st, s.key)
    case Some(text) =>
      (match parse(text)
       case Parsed(m) => Ok(s.(value := m))
       case ArgumentError => Ok(s.(value := s.default))
       case OtherError(name) => Failed(Rethrown(name)))
    case None =>
      Ok(s.(value := postCheck(s.default)))
  }

  /** The setting's name for its value, under its key, and nothing else. */
  function Save<E>(s: EnumSetting<E>, st: Store, show: E -> string): (r: Store)
    ensures r.Keys == st.Keys + {s.key}
    ensures r[s.key] == S(show(s.value))
    ensures forall k :: k in st && k != s.key ==> r[k] == st[k]
  {
    Put(st, s.key, S(show(s.value)))
  }

  /** Only a missing key ever fails over to the post-load check; only a
      parse error other than `ArgumentException` ever fails. */
  lemma LoadFailsOnlyOnForeignException<E>(s: EnumSetting<E>, st: Store,
                                           parse: string -> ParseOutcome<E>, postCheck: E -> E)
    ensures Load(s, st, parse, postCheck).Failed? <==>
              s.key in st && st[s.key].S? && parse(st[s.key].s).OtherError?
  {
  }

  /** When the key holds a string, the post-load check plays no part. */
  lemma PresentKeySkipsPostCheck<E>(s: EnumSetting<E>, st: Store, parse: string -> ParseOutcome<E>,
                                    check1: E -> E, check2: E -> E)
    requires s.key in st && st[s.key].S?
    ensures Load(s, st, parse, check1) == Load(s, st, parse, check2)
  {
  }

  /** If the runtime parses every name `ToString` gives back to the same
      member, save then load on a newly constructed setting reproduces the value. */
  lemma SaveLoadRoundTrip<E>(s: EnumSetting<E>, blank: EnumSetting<E>, st: Store,
                             parse: string -> ParseOutcome<E>, show: E -> string, postCheck: E -> E)
    requires blank.key == s.key && blank.default == s.default
    requires parse(show(s.value)) == Parsed(s.value)
    ensures Load(blank, Save(s, st, show), parse, postCheck) == Ok(s)
  {
  }

  /** With the key absent, a custom-default setting adopts the constructor's
      `defaultValue` as passed through the post-load check. */
  lemma CustomDefaultFallback<E>(prefix: string, typeName: string, defaultValue: E, initial: E,
                                 st: Store, parse: string -> ParseOutcome<E>, postCheck: E -> E)
    requires Keys.SettingKey(prefix, typeName) !in st
    ensures Load(NewCustomDefault(prefix, typeName, defaultValue, initial), st, parse, postCheck)
              == Ok(NewCustomDefault(prefix, typeName, defaultValue, initial).(value := postCheck(defaultValue)))
  {
  }
}
