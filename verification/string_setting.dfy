/** `StringSetting` and `CustomDefaultStringSetting`: a string persisted with
    the store's string operations under its own key. */
module StringSettings {
  import opened Store
  import Keys

  /** `value` is the setting's `Value`; `default` is what its
      `GetDefaultValue()` returns. */
  datatype StringSetting = StringSetting(key: string, value: string, default: string)

  /** The constructor of a concrete subclass named `typeName`, whose
      `GetDefaultValue()` answers `fallback`. `initial` is the `Value` the
      foreign base class starts with. */
  function New(prefix: string, typeName: string, fallback: string, initial: string): (s: StringSetting)
    ensures s.key == Keys.SettingKey(prefix, typeName)
    ensures s.default == fallback && s.value == initial
  {
    StringSetting(Keys.SettingKey(prefix, typeName), initial, fallback)
  }

  /** `CustomDefaultStringSetting(prefix, defaultValue)`: the fallback is the
      constructor's argument. */
  function NewCustomDefault(prefix: string, typeName: string, defaultValue: string, initial: string): (s: StringSetting)
    ensures s.key == Keys.SettingKey(prefix, typeName)
    ensures s.default == defaultValue
  {
    New(prefix, typeName, defaultValue, initial)
  }

  /** Adopt the stored string unchanged, the empty string included, or the
      default when there is none. Never fails. */
  function Load(s: StringSetting, st: Store): (r: StringSetting)
    ensures r.key == s.key && r.default == s.default
    ensures s.key in st && st[s.key].S? ==> r.value == st[s.key].s
    ensures !(s.key in st && st[s.key].S?) ==> r.value == s.default
  {
    match TryLoadString(st, s.key)
    case Some(v) => s.(value := v)
    case None => s.(value := s.default)
  }

  function Save(s: StringSetting, st: Store): (r: Store)
    ensures r.Keys == st.Keys + {s.key}
    ensures r[s.key] == S(s.value)
    ensures forall k :: k in st && k != s.key ==> r[k] == st[k]
  {
    Put(st, s.key, S(s.value))
  }

  /** A newly constructed setting of the same class and prefix reads back what was saved. */
  lemma SaveLoadRoundTrip(s: StringSetting, blank: StringSetting, st: Store)
    requires blank.key == s.key && blank.default == s.default
    ensures Load(blank, Save(s, st)) == s
  {
  }

  /** With the key absent, a custom-default setting falls back to the
      argument it was constructed with. */
  lemma CustomDefaultFallback(prefix: string, typeName: string, defaultValue: string, initial: string, st: Store)
    requires Keys.SettingKey(prefix, typeName) !in st
    ensures Load(NewCustomDefault(prefix, typeName, defaultValue, initial), st).value == defaultValue
  {
  }
}
