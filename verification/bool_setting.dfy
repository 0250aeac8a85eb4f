/** `BoolSetting` and `CustomDefaultBoolSetting`: a boolean persisted with
    the store's bool operations under its own key. */
module BoolSettings {
  import opened Store
  import Keys

  /** `value` is the setting's `Value`; `default` is what its
      `GetDefaultValue()` returns. */
  datatype BoolSetting = BoolSetting(key: string, value: bool, default: bool)

  /** The constructor of a concrete subclass named `typeName`, whose
      `GetDefaultValue()` answers `fallback`. `initial` is the `Value` the
      foreign base class starts with. */
  function New(prefix: string, typeName: string, fallback: bool, initial: bool): (s: BoolSetting)
    ensures s.key == Keys.SettingKey(prefix, typeName)
    ensures s.default == fallback && s.value == initial
  {
    BoolSetting(Keys.SettingKey(prefix, typeName), initial, fallback)
  }

  /** `CustomDefaultBoolSetting(prefix, defaultValue)`: the fallback is the
      constructor's argument. */
  function NewCustomDefault(prefix: string, typeName: string, defaultValue: bool, initial: bool): (s: BoolSetting)
    ensures s.key == Keys.SettingKey(prefix, typeName)
    ensures s.default == defaultValue
  {
    New(prefix, typeName, defaultValue, initial)
  }

  /** Adopt the stored bool, or the default when there is none. Never fails. */
  function Load(s: BoolSetting, st: Store): (r: BoolSetting)
    ensures r.key == s.key && r.default == s.default
    ensures s.key in st && st[s.key].B? ==> r.value == st[s.key].b
    ensures !(s.key in st && st[s.key].B?) ==> r.value == s.default
  {
    match TryLoadBool(st, s.key)
    case Some(v) => s.(value := v)
    case None => s.(value := s.default)
  }

  function Save(s: BoolSetting, st: Store): (r: Store)
    ensures r.Keys == st.Keys + {s.key}
    ensures r[s.key] == B(s.value)
    ensures forall k :: k in st && k != s.key ==> r[k] == st[k]
  {
    Put(st, s.key, B(s.value))
  }

  /** A newly constructed setting of the same class and prefix reads back what was saved. */
  lemma SaveLoadRoundTrip(s: BoolSetting, blank: BoolSetting, st: Store)
    requires blank.key == s.key && blank.default == s.default
    ensures Load(blank, Save(s, st)) == s
  {
  }

  /** With the key absent, a custom-default setting falls back to the
      argument it was constructed with. */
  lemma CustomDefaultFallback(prefix: string, typeName: string, defaultValue: bool, initial: bool, st: Store)
    requires Keys.SettingKey(prefix, typeName) !in st
    ensures Load(NewCustomDefault(prefix, typeName, defaultValue, initial), st).value == defaultValue
  {
  }
}
