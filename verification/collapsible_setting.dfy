/** `CollapsibleSetting`: a fixed group of settings that are the composite's
    own fields. The source finds them by reflection on every call; here the
    fields are an explicit, ordered child list.
 */
module CollapsibleSettings {
  import opened Store
  import Setting
  import FanOut

  datatype CollapsibleSetting<E> = CollapsibleSetting(fields: seq<Setting.Child<E>>)

  /** `GetSettings()`: the children, in field order. */
  function GetSettings<E>(c: CollapsibleSetting<E>): seq<Setting.Child<E>>
  {
    c.fields
  }

  /** The base `OnToggled()`, which answers false. */
  function OnToggled<E>(c: CollapsibleSetting<E>): (answer: bool)
    ensures !answer
  {
    false
  }

  /** `Load(loader)`: every child loads from the same store, in order; the
      first exception stops the loop and escapes. */
  function Load<E>(c: CollapsibleSetting<E>, st: Store, codec: Setting.EnumCodec<E>)
    : (r: (CollapsibleSetting<E>, Option<FanOut.Abort>))
    ensures FanOut.LoadsAs(GetSettings(c), st, codec, FanOut.LoadOutcome(GetSettings(r.0), r.1))
  {
    FanOut.LoadAllMeaning(GetSettings(c), st, codec);
    var out := FanOut.LoadAll(GetSettings(c), st, codec);
    (CollapsibleSetting(out.children), out.abort)
  }

  /** `Save(saver)`: every child saves, in order. Entries are only added or
      overwritten; on a key collision the later field's value persists. */
  function Save<E>(c: CollapsibleSetting<E>, st: Store, show: E -> string): (r: Store)
    ensures r.Keys == st.Keys + FanOut.KeysOf(GetSettings(c))
    ensures forall k :: k in st && k !in FanOut.KeysOf(GetSettings(c)) ==> r[k] == st[k]
    ensures forall i :: 0 <= i < |c.fields| && FanOut.LastWithKey(c.fields, i) ==>
              r[c.fields[i].Key()] == Setting.Encode(c.fields[i], show)
  {
    FanOut.SaveAllWrites(GetSettings(c), st, show);
    FanOut.SaveAll(GetSettings(c), st, show)
  }

  /** `ApplyValue()`: every child's `ApplyValue`, in order, on game state `g`. */
  function ApplyValue<E, G>(c: CollapsibleSetting<E>, hook: (Setting.Child<E>, G) -> G, g: G): G
  {
    FanOut.ApplyAll(GetSettings(c), hook, g)
  }

  /** Two keys that collide: the later field wins. */
  lemma LaterFieldWins<E>(c: CollapsibleSetting<E>, i: nat, j: nat, st: Store, show: E -> string)
    requires i < j < |c.fields|
    requires c.fields[i].Key() == c.fields[j].Key()
    requires FanOut.LastWithKey(c.fields, j)
    ensures Save(c, st, show)[c.fields[i].Key()] == Setting.Encode(c.fields[j], show)
  {
  }

  /** A composite of reusable leaves applies nothing. */
  lemma ApplyValueOfReusableLeaves<E, G>(c: CollapsibleSetting<E>, g: G)
    ensures ApplyValue(c, (s: Setting.Child<E>, x: G) => Setting.Apply(s, x), g) == g
  {
    FanOut.ReusableApplyIsNoOp(c.fields, g);
  }

  /** With no fields, `Load` and `Save` leave the composite and the store as
      they were. */
  lemma EmptyIsInert<E>(st: Store, codec: Setting.EnumCodec<E>)
    ensures Load(CollapsibleSetting([]), st, codec) == (CollapsibleSetting([]), None)
    ensures Save(CollapsibleSetting([]), st, codec.show) == st
  {
    FanOut.EmptyIsInert(st, codec);
  }

  /** Save, then load a composite of the same shape: with distinct keys, every
      field's value comes back and nothing fails. */
  lemma SaveLoadRoundTrip<E>(c: CollapsibleSetting<E>, blank: CollapsibleSetting<E>, st: Store,
                             codec: Setting.EnumCodec<E>)
    requires |blank.fields| == |c.fields|
    requires forall i :: 0 <= i < |c.fields| ==> Setting.SameShape(blank.fields[i], c.fields[i])
    requires FanOut.DistinctKeys(c.fields)
    requires forall i :: 0 <= i < |c.fields| && c.fields[i].EnumChild? ==>
               Setting.NamesRoundTrip(codec, c.fields[i].e.value)
    ensures Load(blank, Save(c, st, codec.show), codec) == (c, None)
  {
    FanOut.SaveLoadRoundTrip(c.fields, blank.fields, st, codec);
  }

  /** A child whose `Load` throws, after earlier children that loaded, makes
      the whole `Load` fail there; it and the children after it are not
      loaded. */
  lemma FailingFieldAborts<E>(c: CollapsibleSetting<E>, st: Store, codec: Setting.EnumCodec<E>, j: nat)
    requires j < |c.fields|
    requires forall i :: 0 <= i < j ==> Setting.Load(c.fields[i], st, codec).Ok?
    requires Setting.Load(c.fields[j], st, codec).Failed?
    ensures Load(c, st, codec).1 == Some(FanOut.Abort(j, Setting.Load(c.fields[j], st, codec).error))
    ensures Load(c, st, codec).0.fields[j..] == c.fields[j..]
  {
    FanOut.FirstFailureAborts(c.fields, st, codec, j);
  }
}
