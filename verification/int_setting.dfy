/** `IntSetting` and `CustomDefaultIntSetting`: a 32-bit integer persisted with
    the store's int operations under its own key. */
module IntSettings {
  import opened Store
  import Keys

  /** `value` is the setting's `Value`; `default` is what its
      `GetDefaultValue()` returns. */
  datatype IntSetting = IntSetting(key: string, value: Int32, default: Int32)

  /** The constructor of a concrete subclass named `typeName`, whose
      `GetDefaultValue()` answers `fallback`. `initial` is the `Value` the
      foreign base class starts with. */
  function New(prefix: string, typeName: string, fallback: Int32, initial: Int32): (s: IntSetting)
    ensures s.key == Keys.SettingKey(prefix, typeName)
    ensures s.default == fallback && s.value == initial
  {
    IntSetting(Keys.SettingKey(prefix, typeName), initial, fallback)
  }

  /** `CustomDefaultIntSetting(prefix, defaultValue)`: the fallback is the
      constructor's argument. */
  function NewCustomDefault(prefix: string, typeName: string, defaultValue: Int32, initial: Int32): (s: IntSetting)
    ensures s.key == Keys.SettingKey(prefix, typeName)
    ensures s.default == defaultValue
  {
    New(prefix, typeName, defaultValue, initial)
  }

  /** Adopt the stored int verbatim, or the default when there is none. Never fails. */
  function Load(s: IntSetting, st: Store): (r: IntSetting)
    ensures r.key == s.key && r.default == s.default
    ensures s.key in st && st[s.key].I? ==> r.value == st[s.key].i
    ensures !(s.key in st && st[s.key].I?) ==> r.value == s.default
  {
    match TryLoadInt(st, s.key)
    case Some(v) => s.(value := v)
    case None => s.(value := s.default)
  }

  function Save(s: IntSetting, st: Store): (r: Store)
    ensures r.Keys == st.Keys + {s.key}
    ensures r[s.key] == I(s.value)
    ensures forall k :: k in st && k != s.key ==> r[k] == st[k]
  {
    Put(st, s.key, I(s.value))
  }

  /** A newly constructed setting of the same class and prefix reads back what was saved. */
  lemma SaveLoadRoundTrip(s: IntSetting, blank: IntSetting, st: Store)
    requires blank.key == s.key && blank.default == s.default
    ensures Load(blank, Save(s, st)) == s
  {
  }

  /** With the key absent, a custom-default setting falls back to the
      argument it was constructed with. */
  lemma CustomDefaultFallback(prefix: string, typeName: string, defaultValue: Int32, initial: Int32, st: Store)
    requires Keys.SettingKey(prefix, typeName) !in st
    ensures Load(NewCustomDefault(prefix, typeName, defaultValue, initial), st).value == defaultValue
  {
  }
}
