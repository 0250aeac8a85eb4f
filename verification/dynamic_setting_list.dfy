/** `DynamicSettingList`: a composite whose children are an explicit list
    that callers grow and shrink at run time, plus an optional UI element to
    notify when the list changes.
 */
module DynamicSettingLists {
  import opened Store
  import Setting
  import FanOut

  /** The registered `DynamicSettingListUI`, by identity. */
  datatype UiElement = UiElement(id: nat)

  datatype DynamicSettingList<E> = DynamicSettingList(settings: seq<Setting.Child<E>>,
                                                      uiElement: Option<UiElement>)

  /** A new list: `Settings` is empty and no UI element is registered. */
  function Create<E>(): (d: DynamicSettingList<E>)
    ensures |d.settings| == 0 && d.uiElement.None?
  {
    DynamicSettingList([], None)
  }

  /** `GetSettings()` hands out the `Settings` list itself. */
  function GetSettings<E>(d: DynamicSettingList<E>): seq<Setting.Child<E>>
  {
    d.settings
  }

  /** `Settings.Add(s)`, made by a caller. */
  function Add<E>(d: DynamicSettingList<E>, s: Setting.Child<E>): DynamicSettingList<E>
  {
    d.(settings := d.settings + [s])
  }

  /** `Settings.RemoveAt(i)`, made by a caller. */
  function RemoveAt<E>(d: DynamicSettingList<E>, i: nat): DynamicSettingList<E>
    requires i < |d.settings|
  {
    d.(settings := d.settings[..i] + d.settings[i + 1..])
  }

  /** `SetUIElement(ui)`: registers `ui`, replacing any earlier element;
      the children are untouched. */
  function SetUIElement<E>(d: DynamicSettingList<E>, ui: UiElement): (r: DynamicSettingList<E>)
    ensures r.uiElement == Some(ui)
    ensures GetSettings(r) == GetSettings(d)
  {
    d.(uiElement := Some(ui))
  }

  /** `UpdateUI()`: the `RefreshList()` calls it makes -- one on the
      registered element, none when there is none. */
  function UpdateUI<E>(d: DynamicSettingList<E>): (refreshed: seq<UiElement>)
    ensures d.uiElement.None? ==> refreshed == []
    ensures d.uiElement.Some? ==> refreshed == [d.uiElement.value]
  {
    match d.uiElement
    case None => []
    case Some(ui) => [ui]
  }

  function Load<E>(d: DynamicSettingList<E>, st: Store, codec: Setting.EnumCodec<E>)
    : (r: (DynamicSettingList<E>, Option<FanOut.Abort>))
    ensures r.0.uiElement == d.uiElement
    ensures FanOut.LoadsAs(GetSettings(d), st, codec, FanOut.LoadOutcome(GetSettings(r.0), r.1))
  {
    FanOut.LoadAllMeaning(GetSettings(d), st, codec);
    var out := FanOut.LoadAll(GetSettings(d), st, codec);
    (d.(settings := out.children), out.abort)
  }

  function Save<E>(d: DynamicSettingList<E>, st: Store, show: E -> string): (r: Store)
    ensures r.Keys == st.Keys + FanOut.KeysOf(GetSettings(d))
    ensures forall k :: k in st && k !in FanOut.KeysOf(GetSettings(d)) ==> r[k] == st[k]
    ensures forall i :: 0 <= i < |d.settings| && FanOut.LastWithKey(d.settings, i) ==>
              r[d.settings[i].Key()] == Setting.Encode(d.settings[i], show)
  {
    FanOut.SaveAllWrites(GetSettings(d), st, show);
    FanOut.SaveAll(GetSettings(d), st, show)
  }

  function ApplyValue<E, G>(d: DynamicSettingList<E>, hook: (Setting.Child<E>, G) -> G, g: G): G
  {
    FanOut.ApplyAll(GetSettings(d), hook, g)
  }

  /** A change made through `GetSettings()` is a change to `Settings`. */
  lemma AddIsSeenThroughGetSettings<E>(d: DynamicSettingList<E>, s: Setting.Child<E>)
    ensures GetSettings(Add(d, s)) == GetSettings(d) + [s]
    ensures Add(d, s).uiElement == d.uiElement
  {
  }

  /** After an append, `Save` writes what it wrote before and then the new
      child's entry. */
  lemma SaveAfterAdd<E>(d: DynamicSettingList<E>, s: Setting.Child<E>, st: Store, show: E -> string)
    ensures Save(Add(d, s), st, show) == Setting.Save(s, Save(d, st, show), show)
    ensures Save(Add(d, s), st, show)[s.Key()] == Setting.Encode(s, show)
    ensures FanOut.KeysOf(d.settings) <= Save(Add(d, s), st, show).Keys
  {
    FanOut.SaveAllAppend(d.settings, s, st, show);
  }

  /** `Save` never deletes: removing a child and saving again keeps the
      entry the child wrote, unless another remaining child overwrites it. */
  lemma RemoveKeepsSavedKey<E>(d: DynamicSettingList<E>, i: nat, st: Store, show: E -> string)
    requires i < |d.settings|
    ensures var before := Save(d, st, show);
            var after := Save(RemoveAt(d, i), before, show);
            && before.Keys <= after.Keys
            && (d.settings[i].Key() !in FanOut.KeysOf(RemoveAt(d, i).settings) ==>
                  after[d.settings[i].Key()] == before[d.settings[i].Key()])
  {
    assert d.settings[i].Key() in FanOut.KeysOf(d.settings);
  }

  /** `UpdateUI()` refreshes the element last registered, and nothing before
      one is registered. */
  lemma UpdateUIRefreshesRegistered<E>(d: DynamicSettingList<E>, ui: UiElement)
    ensures UpdateUI(SetUIElement(d, ui)) == [ui]
    ensures UpdateUI(Create<E>()) == []
  {
  }

  /** A list of reusable leaves applies nothing. */
  lemma ApplyValueOfReusableLeaves<E, G>(d: DynamicSettingList<E>, g: G)
    ensures ApplyValue(d, (s: Setting.Child<E>, x: G) => Setting.Apply(s, x), g) == g
  {
    FanOut.ReusableApplyIsNoOp(d.settings, g);
  }

  /** Children `ApplyValue` in the current list order. */
  lemma ApplyValueInListOrder<E>(d: DynamicSettingList<E>, log: seq<string>)
    ensures ApplyValue(d, FanOut.LogKey, log) == log + FanOut.KeySeq(d.settings)
  {
    FanOut.ApplyVisitsInOrder(d.settings, log);
  }

  lemma SaveLoadRoundTrip<E>(d: DynamicSettingList<E>, blank: DynamicSettingList<E>, st: Store,
                             codec: Setting.EnumCodec<E>)
    requires |blank.settings| == |d.settings|
    requires forall i :: 0 <= i < |d.settings| ==> Setting.SameShape(blank.settings[i], d.settings[i])
    requires FanOut.DistinctKeys(d.settings)
    requires forall i :: 0 <= i < |d.settings| && d.settings[i].EnumChild? ==>
               Setting.NamesRoundTrip(codec, d.settings[i].e.value)
    ensures Load(blank, Save(d, st, codec.show), codec) == (blank.(settings := d.settings), None)
  {
    FanOut.SaveLoadRoundTrip(d.settings, blank.settings, st, codec);
  }

  /** A child whose `Load` throws, after earlier children that loaded, makes
      the whole `Load` fail there; it and the children after it are not
      loaded. */
  lemma FailingChildAborts<E>(c: DynamicSettingList<E>, st: Store, codec: Setting.EnumCodec<E>, j: nat)
    requires j < |c.settings|
    requires forall i :: 0 <= i < j ==> Setting.Load(c.settings[i], st, codec).Ok?
    requires Setting.Load(c.settings[j], st, codec).Failed?
    ensures Load(c, st, codec).1 == Some(FanOut.Abort(j, Setting.Load(c.settings[j], st, codec).error))
    ensures Load(c, st, codec).0.settings[j..] == c.settings[j..]
  {
    FanOut.FirstFailureAborts(c.settings, st, codec, j);
  }
}
