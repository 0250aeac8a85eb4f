# HasteSettingLib: typed settings and their composites, in Dafny

HasteSettingLib lets mod authors declare typed settings for the game's
`Zorro.Settings` framework and group them. This project models the part of
it that does more than bind to the host:

- **Reusable leaf settings.** These are `BoolSetting`, `IntSetting`,
  `FloatSetting`, `StringSetting` and `EnumSetting<T>`, plus their
  `CustomDefault…` variants. Each one persists a single value under the key
  `prefix + "." + typeName`. `Load` adopts the stored value of the matching
  kind, and falls back to the default when there is none. `Save` writes the
  current value. The enum leaf stores the member's name. It recovers from an
  `ArgumentException` during parsing and re-throws any other exception.
- **Composites.** These are `CollapsibleSetting` and `DynamicSettingList`.
  They run `Load`, `Save` and `ApplyValue` on each child in list order.
  Failures are not isolated: the first child whose `Load` throws ends the
  call.

How the model is built:

- Every type is immutable and every operation is a pure function.
- The preference store is a `map<string, StoreValue>`. A typed read
  succeeds exactly when the key holds a value of that kind.
- A leaf is a record of its key, its current `Value` and its
  `GetDefaultValue()`. A float leaf also keeps `MinValue`/`MaxValue`.
- A composite's children are a sequence of the five leaf kinds.
- Composite `Load` and `Save` are left-to-right folds over that sequence.
  - `Load` returns the children as they stand afterwards: those before a
    failure are loaded, the rest are untouched. It also returns the
    escaping exception, if there is one.
  - `Save` returns the new store.
- `DynamicSettingLists.Add` and `DynamicSettingLists.RemoveAt` are not
  members of the library. They model the `List<Setting>.Add` and
  `RemoveAt` calls that callers make on the public `Settings` list.

Files:

| file | module | models |
|---|---|---|
| store.dfy | `Store` | the `ISettingsSaveLoad` store, C# `int`, opaque `float` |
| outcomes.dfy | `Outcomes` | a `Load` that returns or throws |
| keys.dfy | `Keys` | the persistence key |
| bool_setting.dfy, int_setting.dfy, string_setting.dfy, float_setting.dfy, enum_setting.dfy | `BoolSettings`, … | one source file each |
| setting.dfy | `Setting` | a composite's child (`Setting.Child`), dispatching to its leaf |
| fan_out.dfy | `FanOut` | the loops both composites share |
| collapsible_setting.dfy | `CollapsibleSettings` | `CollapsibleSetting` |
| dynamic_setting_list.dfy | `DynamicSettingLists` | `DynamicSettingList` |

Foreign parts are parameters:

- `Enum.Parse` is `parse: string -> ParseOutcome<E>`. It answers with a
  member, an `ArgumentException` (or an exception of a subclass of it), or
  some other exception.
- `ToString` is `show`.
- The base class's `PostLoadCheckIfValueIsValid` is `postCheck`.
- The `Value` that a newly constructed leaf starts with is `initial`.
- The concrete subclass's default is `fallback`.
- `GetMinMaxValue()` is `minMax`.
- An overridden child `ApplyValue` is a `hook` on an opaque game state.
  The reusable leaves' empty override is `Setting.Apply`.

Behaviour of the code worth noting:

- The code does not clamp a loaded float to its bounds at this layer. A
  stored value outside `[MinValue, MaxValue]` is handed to `Value` as it is
  (see `FloatSettings.LoadIgnoresBounds`).
- Only the enum leaf has a parse step. The other kinds either find a value
  of their kind or fall back.
- `PostLoadCheckIfValueIsValid` runs only when the key is absent. It does
  not run after a stored name has been parsed (EnumSetting.cs:49-53).

## Model

| member | source | states |
|---|---|---|
| Keys.SettingKey | SettingsLib/Reusable/BoolSetting.cs:23-26 | the key is the prefix, then one '.', then the type name, and nothing else |
| Keys.SamePrefixKeyInjective | SettingsLib/Reusable/IntSetting.cs:23-26 | under one prefix, different type names give different keys |
| Keys.KeyInjective | SettingsLib/Reusable/StringSetting.cs:23-26 | with dot-free C# class names, the key determines both the prefix and the type name, so two settings share a key only if they share both |
| BoolSettings.New | SettingsLib/Reusable/BoolSetting.cs:23-26 | the constructor derives the key from prefix and type name; the default is the subclass's `GetDefaultValue()` |
| BoolSettings.NewCustomDefault | SettingsLib/Reusable/BoolSetting.cs:10-16 | the custom-default variant's default is the constructor's `defaultValue` |
| BoolSettings.Load | SettingsLib/Reusable/BoolSetting.cs:28-37 | a stored bool under the key becomes `Value`; otherwise (absent, or another kind) `Value` becomes the default; key and default unchanged; never fails |
| BoolSettings.Save | SettingsLib/Reusable/BoolSetting.cs:39-42 | the store gains or overwrites exactly the key, with `B(Value)`; every other entry is unchanged |
| BoolSettings.SaveLoadRoundTrip | SettingsLib/Reusable/BoolSetting.cs:28-42 | saving then loading into a newly constructed setting with the same key and default reproduces the setting |
| BoolSettings.CustomDefaultFallback | SettingsLib/Reusable/BoolSetting.cs:35-36 | with the key absent, a custom-default setting loads the constructor's `defaultValue` |
| IntSettings.New | SettingsLib/Reusable/IntSetting.cs:23-26 | key from prefix and type name; default from the subclass |
| IntSettings.NewCustomDefault | SettingsLib/Reusable/IntSetting.cs:10-16 | the fallback is the constructor argument |
| IntSettings.Load | SettingsLib/Reusable/IntSetting.cs:28-37 | a stored 32-bit int is adopted verbatim; otherwise the default |
| IntSettings.Save | SettingsLib/Reusable/IntSetting.cs:39-42 | exactly one entry is written, key to `I(Value)` |
| IntSettings.SaveLoadRoundTrip | SettingsLib/Reusable/IntSetting.cs:28-42 | save then load round-trips every `int` |
| IntSettings.CustomDefaultFallback | SettingsLib/Reusable/IntSetting.cs:35-36 | with the key absent, the custom default is loaded |
| StringSettings.New | SettingsLib/Reusable/StringSetting.cs:23-26 | key from prefix and type name; default from the subclass |
| StringSettings.NewCustomDefault | SettingsLib/Reusable/StringSetting.cs:10-16 | the fallback is the constructor argument |
| StringSettings.Load | SettingsLib/Reusable/StringSetting.cs:28-37 | a stored string is adopted unchanged, the empty string included; otherwise the default |
| StringSettings.Save | SettingsLib/Reusable/StringSetting.cs:39-42 | exactly one entry is written, key to `S(Value)` |
| StringSettings.SaveLoadRoundTrip | SettingsLib/Reusable/StringSetting.cs:28-42 | save then load round-trips every string |
| StringSettings.CustomDefaultFallback | SettingsLib/Reusable/StringSetting.cs:35-36 | with the key absent, the custom default is loaded |
| FloatSettings.New | SettingsLib/Reusable/FloatSetting.cs:24-30 | key from prefix and type name; `MinValue`/`MaxValue` are the two halves of `GetMinMaxValue()`, asked once |
| FloatSettings.NewCustomDefault | SettingsLib/Reusable/FloatSetting.cs:11-17 | the fallback is the constructor argument; the bounds are still captured |
| FloatSettings.Load | SettingsLib/Reusable/FloatSetting.cs:32-41 | a stored float is adopted as it is; otherwise the default; key, default, `MinValue` and `MaxValue` unchanged |
| FloatSettings.Save | SettingsLib/Reusable/FloatSetting.cs:43-46 | exactly one entry is written, key to `F(Value)` |
| FloatSettings.SaveLoadRoundTrip | SettingsLib/Reusable/FloatSetting.cs:32-46 | save then load round-trips the float token, bounds included |
| FloatSettings.LoadIgnoresBounds | SettingsLib/Reusable/FloatSetting.cs:32-38 | the loaded value does not depend on the bounds: there is no clamping at this layer |
| FloatSettings.CustomDefaultFallback | SettingsLib/Reusable/FloatSetting.cs:39-40 | with the key absent, the custom default is loaded |
| EnumSettings.New | SettingsLib/Reusable/EnumSetting.cs:25-28 | key from prefix and type name; default from the subclass |
| EnumSettings.NewCustomDefault | SettingsLib/Reusable/EnumSetting.cs:11-17 | the fallback is the constructor argument |
| EnumSettings.Load | SettingsLib/Reusable/EnumSetting.cs:30-54 | stored name that parses: that member; parse throws `ArgumentException`: the default, no failure; parse throws anything else: `Load` fails with that exception; key absent: the default passed through the post-load check |
| EnumSettings.Save | SettingsLib/Reusable/EnumSetting.cs:56-59 | exactly one entry is written, key to `S(ToString(Value))` |
| EnumSettings.LoadFailsOnlyOnForeignException | SettingsLib/Reusable/EnumSetting.cs:38-43 | `Load` fails if and only if the key holds a string whose parse throws something other than `ArgumentException` |
| EnumSettings.PresentKeySkipsPostCheck | SettingsLib/Reusable/EnumSetting.cs:49-53 | when the key holds a string, the result is the same whatever the post-load check does |
| EnumSettings.SaveLoadRoundTrip | SettingsLib/Reusable/EnumSetting.cs:30-59 | if `Parse(ToString(v)) = v`, save then load into a newly constructed setting gives back `v` |
| EnumSettings.CustomDefaultFallback | SettingsLib/Reusable/EnumSetting.cs:11-17 | with the key absent, a custom-default enum setting loads the constructor's `defaultValue` as passed through `PostLoadCheckIfValueIsValid` |
| Setting.Load | SettingsLib/Settings/CollapsibleSetting.cs:43 | a child's own `Load` keeps its key, and only an enum child can throw |
| Setting.Save | SettingsLib/Settings/CollapsibleSetting.cs:51 | a child's own `Save` writes its key only, with the value its kind encodes |
| Setting.Category | SettingsLib/Reusable/BoolSetting.cs:46 | `GetCategory()` is empty for every reusable leaf |
| Setting.Apply | SettingsLib/Reusable/BoolSetting.cs:44 | the reusable leaves' empty `ApplyValue()`: it hands back the game state it was given, and a composite of such leaves therefore applies nothing (`FanOut.ReusableApplyIsNoOp`) |
| FanOut.LoadAll | SettingsLib/Settings/CollapsibleSetting.cs:39-45 | the composite `Load` returns exactly one child for each child it was given |
| FanOut.SaveAll | SettingsLib/Settings/CollapsibleSetting.cs:47-53 | the composite `Save` loop; what it writes is stated by `FanOut.SaveAllWrites` and `FanOut.SaveAllAppend` |
| FanOut.ApplyAll | SettingsLib/Settings/CollapsibleSetting.cs:31-37 | the composite `ApplyValue` loop; its order is stated by `FanOut.ApplyVisitsInOrder` and `FanOut.ApplyAllAppend` |
| FanOut.LoadAllMeaning | SettingsLib/Settings/CollapsibleSetting.cs:39-45 | the composite `Load` loads every child in order from the same store. It fails if and only if some child's `Load` throws. It then stops at the first such child, and that child and the ones after it keep their values |
| FanOut.FirstFailureAborts | SettingsLib/Settings/CollapsibleSetting.cs:41-44 | the first throwing child is where the composite `Load` stops, and what it throws is what escapes |
| FanOut.SaveAllWrites | SettingsLib/Settings/CollapsibleSetting.cs:47-53 | the composite `Save` adds exactly the children's keys and leaves other entries alone; the last child with a given key decides its entry |
| FanOut.SaveAllAppend | SettingsLib/Settings/DynamicSettingList.cs:44-49 | saving children plus one more is saving the children, then the new one |
| FanOut.ApplyVisitsInOrder | SettingsLib/Settings/CollapsibleSetting.cs:31-37 | child `ApplyValue`s are called once each, in list order |
| FanOut.ApplyAllAppend | SettingsLib/Settings/DynamicSettingList.cs:28-34 | applying `a + b` applies `a` then `b` |
| FanOut.ReusableApplyIsNoOp | SettingsLib/Reusable/BoolSetting.cs:44 | the reusable leaves' empty `ApplyValue`, fanned out, changes nothing |
| FanOut.EmptyIsInert | SettingsLib/Settings/CollapsibleSetting.cs:39-53 | with no children, `Load` fails nowhere and `Save` leaves the store as it was |
| FanOut.SaveLoadRoundTrip | SettingsLib/Settings/CollapsibleSetting.cs:39-53 | with pairwise-distinct keys, and enum names that parse back, save then load into same-shape children reproduces every child |
| CollapsibleSettings.OnToggled | SettingsLib/Settings/CollapsibleSetting.cs:26-29 | the default toggle handler answers false |
| CollapsibleSettings.GetSettings | SettingsLib/Settings/CollapsibleSetting.cs:11-24 | the group's public setting fields, in declaration order; `Load`, `Save` and `ApplyValue` all go through it |
| CollapsibleSettings.ApplyValue | SettingsLib/Settings/CollapsibleSetting.cs:31-37 | every field's `ApplyValue()` in field order (`CollapsibleSettings.ApplyValueOfReusableLeaves`, `FanOut.ApplyVisitsInOrder`) |
| CollapsibleSettings.Load | SettingsLib/Settings/CollapsibleSetting.cs:39-45 | the fields after `Load` are related to the fields before it exactly as `FanOut.LoadsAs` describes |
| CollapsibleSettings.Save | SettingsLib/Settings/CollapsibleSetting.cs:47-53 | adds the fields' keys and leaves other entries alone; the last field with a key decides its entry |
| CollapsibleSettings.LaterFieldWins | SettingsLib/Settings/CollapsibleSetting.cs:47-53 | when two fields share a key, the later one's value persists |
| CollapsibleSettings.ApplyValueOfReusableLeaves | SettingsLib/Settings/CollapsibleSetting.cs:31-37 | a group of reusable leaves applies nothing |
| CollapsibleSettings.EmptyIsInert | SettingsLib/Settings/CollapsibleSetting.cs:11-24 | a group with no setting fields loads to itself without failure and saves nothing |
| CollapsibleSettings.SaveLoadRoundTrip | SettingsLib/Settings/CollapsibleSetting.cs:39-53 | with distinct keys, a same-shape group loads back every saved field value |
| CollapsibleSettings.FailingFieldAborts | SettingsLib/Settings/CollapsibleSetting.cs:41-44 | a throwing field fails the group's `Load`, and the fields from it onward are not loaded |
| DynamicSettingLists.Create | SettingsLib/Settings/DynamicSettingList.cs:10-11 | `Settings` starts empty and no UI element is registered |
| DynamicSettingLists.GetSettings | SettingsLib/Settings/DynamicSettingList.cs:13-16 | the `Settings` list itself, so a change to it is seen by the next `Load`, `Save` or `ApplyValue` (`DynamicSettingLists.AddIsSeenThroughGetSettings`) |
| DynamicSettingLists.SetUIElement | SettingsLib/Settings/DynamicSettingList.cs:18-21 | registers the given UI element, replacing any earlier one, and leaves the children alone |
| DynamicSettingLists.UpdateUI | SettingsLib/Settings/DynamicSettingList.cs:23-26 | `RefreshList` is called on the registered element only, and nothing happens when none is registered |
| DynamicSettingLists.UpdateUIRefreshesRegistered | SettingsLib/Settings/DynamicSettingList.cs:18-26 | after `SetUIElement(ui)`, `UpdateUI` refreshes `ui`; a new list refreshes nothing |
| DynamicSettingLists.AddIsSeenThroughGetSettings | SettingsLib/Settings/DynamicSettingList.cs:11-16 | an append to `Settings` is what `GetSettings()` then returns; the UI element is untouched |
| DynamicSettingLists.Load | SettingsLib/Settings/DynamicSettingList.cs:36-42 | loads the current `Settings` as `FanOut.LoadsAs` describes; the UI element is untouched |
| DynamicSettingLists.Save | SettingsLib/Settings/DynamicSettingList.cs:44-49 | only adds or overwrites entries; the last child with a key decides its entry |
| DynamicSettingLists.SaveAfterAdd | SettingsLib/Settings/DynamicSettingList.cs:44-49 | after an append, `Save` writes every earlier child's key and then the new child's entry |
| DynamicSettingLists.RemoveKeepsSavedKey | SettingsLib/Settings/DynamicSettingList.cs:44-49 | removing a child and saving again deletes nothing; the removed child's entry survives unless a remaining child overwrites it |
| DynamicSettingLists.ApplyValueOfReusableLeaves | SettingsLib/Settings/DynamicSettingList.cs:28-34 | a list of reusable leaves applies nothing |
| DynamicSettingLists.ApplyValue | SettingsLib/Settings/DynamicSettingList.cs:28-34 | every child's `ApplyValue()` in current list order (`DynamicSettingLists.ApplyValueInListOrder`) |
| DynamicSettingLists.ApplyValueInListOrder | SettingsLib/Settings/DynamicSettingList.cs:28-34 | `ApplyValue` reaches the children in the current list order |
| DynamicSettingLists.SaveLoadRoundTrip | SettingsLib/Settings/DynamicSettingList.cs:36-49 | with distinct keys, a same-shape list loads back every saved child value |
| DynamicSettingLists.FailingChildAborts | SettingsLib/Settings/DynamicSettingList.cs:36-42 | a throwing child fails the list's `Load`, and the children from it onward are not loaded |

## Left out

- The behaviour of the real preference store (`PlayerPrefs` behind
  `ISettingsSaveLoad`) is an assumption, not a model. The assumption is that
  a typed read succeeds exactly when the key holds a value of that kind. The
  store's own errors are not modelled.
- Float semantics are not modelled: no NaN, no rounding, no ordering. A
  float is an opaque bit pattern compared by equality. So a bound
  invariant for numeric settings cannot be stated; the model states only
  that `Load` ignores the bounds.
- The `Zorro.Settings` base classes are foreign code. The starting `Value`,
  `GetDefaultValue()`, `GetMinMaxValue()` and `PostLoadCheckIfValueIsValid`
  are parameters, not definitions.
- Assigning the foreign `Value`, `MinValue` and `MaxValue` properties is
  taken to store the assigned value unchanged. A base-class setter that
  clamps, validates or notifies is not modelled; every row that says a
  value is adopted as it is, and `FloatSettings.LoadIgnoresBounds`, holds
  only under this assumption.
- `Enum.Parse` and `ToString` are parameters. Which strings .NET accepts
  (numeric strings, flag combinations) is not modelled.
- The reflection in `CollapsibleSetting.GetSettings` is replaced by an
  explicit list of fields in declaration order. Four things are lost with
  it:
  - .NET's `GetFields()` does not promise any order.
  - `IsSubclassOf` skips a field whose declared type is exactly `Setting`.
  - A null field would throw on `Load`.
  - `GetFields()` with no binding flags finds only public fields, static
    ones included, and the filter looks at the field's declared type, not
    at the value it holds. A `private` or `protected` setting field, or one
    declared as an interface or `object` that holds a setting, is never
    loaded, saved or applied.
- A composite's children are the five reusable leaf kinds. Nested
  composites and other `Setting` subclasses are not modelled as children.
- All enum children of one composite share one enum type.
- Concrete subclasses that override `ApplyValue` are not modelled. Their
  effect is the opaque `hook` parameter.
- `Debug.Log`/`Debug.LogError` output is not modelled: logging has no
  effect on state.
- `GetSettingUICell`, `GetDebugUI`, the `UI/` and `DebugUI/` classes
  (including what `RefreshList` draws and the expanded/collapsed flag) and
  `NamedType` are left out. They only build Unity objects, or they are a
  placeholder `Type` whose members throw.
- `DynamicSettingLists.UpdateUI`: the model records that `RefreshList` is
  called, not what it renders. So the refresh-idempotence property of the
  rendered child count is not stated.
- The overridable parts are taken to be pure and not to throw.
  `GetDefaultValue()` is read once, at construction, into the leaf's
  `default` field, while the code calls it again on every `Load`
  (BoolSetting.cs:36, EnumSetting.cs:47 and 52); the two agree only when it
  always answers the same. `PostLoadCheckIfValueIsValid` is a pure
  `postCheck: E -> E` that cannot throw, and one `postCheck` serves every
  enum child of a composite.
- EnumSettings.LoadFailsOnlyOnForeignException: holds only under the
  assumptions above. A throwing `GetDefaultValue()` or
  `PostLoadCheckIfValueIsValid` would be a further way for `Load` to fail,
  and so would a throwing store.
- Setting.Load: "only an enum child can throw" holds only under the same
  assumptions; so does every leaf `Load` never failing.
- The virtual `GetSettings()` (CollapsibleSetting.cs:11,
  DynamicSettingList.cs:13) and `UpdateUI()` (DynamicSettingList.cs:23) are
  fixed to their base bodies. A subclass that overrides them is not
  modelled.
