/** `FloatSetting` and `CustomDefaultFloatSetting`: a float persisted with
    the store's float operations under its own key, plus the inclusive
    bounds the subclass reports once, at construction. */
module FloatSettings {
  import opened Store
  import Keys

  datatype FloatSetting = FloatSetting(
    key: string,
    value: FloatTok,
    default: FloatTok,
    minValue: FloatTok,
    maxValue: FloatTok)

  /** `minMax` is what the subclass's `GetMinMaxValue()` answers; it is
      asked once and copied into `MinValue`/`MaxValue`. */
  function New(prefix: string, typeName: string, fallback: FloatTok,
               minMax: (FloatTok, FloatTok), initial: FloatTok): (s: FloatSetting)
    ensures s.key == Keys.SettingKey(prefix, typeName)
    ensures s.minValue == minMax.0 && s.maxValue == minMax.1
    ensures s.default == fallback && s.value == initial
  {
    FloatSetting(Keys.SettingKey(prefix, typeName), initial, fallback, minMax.0, minMax.1)
  }

  function NewCustomDefault(prefix: string, typeName: string, defaultValue: FloatTok,
                            minMax: (FloatTok, FloatTok), initial: FloatTok): (s: FloatSetting)
    ensures s.key == Keys.SettingKey(prefix, typeName)
    ensures s.default == defaultValue
    ensures s.minValue == minMax.0 && s.maxValue == minMax.1
  {
    New(prefix, typeName, defaultValue, minMax, initial)
  }

  /** Adopt the stored float as it is -- this layer does not clamp it to
      [MinValue, MaxValue] -- or the default when there is none. */
  function Load(s: FloatSetting, st: Store): (r: FloatSetting)
    ensures r.key == s.key && r.default == s.default
    ensures r.minValue == s.minValue && r.maxValue == s.maxValue
    ensures s.key in st && st[s.key].F? ==> r.value == st[s.key].f
    ensures !(s.key in st && st[s.key].F?) ==> r.value == s.default
  {
    match TryLoadFloat(st, s.key)
    case Some(v) => s.(value := v)
    case None => s.(value := s.default)
  }

  function Save(s: FloatSetting, st: Store): (r: Store)
    ensures r.Keys == st.Keys + {s.key}
    ensures r[s.key] == F(s.value)
    ensures forall k :: k in st && k != s.key ==> r[k] == st[k]
  {
    Put(st, s.key, F(s.value))
  }

  lemma SaveLoadRoundTrip(s: FloatSetting, blank: FloatSetting, st: Store)
    requires blank.key == s.key && blank.default == s.default
    requires blank.minValue == s.minValue && blank.maxValue == s.maxValue
    ensures Load(blank, Save(s, st)) == s
  {
  }

  /** Any stored float is adopted, even one outside the bounds: the bounds
      play no part in `Load`. */
  lemma LoadIgnoresBounds(s: FloatSetting, lo: FloatTok, hi: FloatTok, st: Store)
    ensures Load(s.(minValue := lo, maxValue := hi), st).value == Load(s, st).value
  {
  }

  lemma CustomDefaultFallback(prefix: string, typeName: string, defaultValue: FloatTok,
                              minMax: (FloatTok, FloatTok), initial: FloatTok, st: Store)
    requires Keys.SettingKey(prefix, typeName) !in st
    ensures Load(NewCustomDefault(prefix, typeName, defaultValue, minMax, initial), st).value == defaultValue
  {
  }
}
