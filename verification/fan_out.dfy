/** The fan-out both composites share: `Load`, `Save` and `ApplyValue` run
    the children's own operations one after another, in list order, with no
    isolation -- an exception from one child's `Load` ends the loop there.
 */
module FanOut {
  import opened Store
  import opened Outcomes
  import Setting

  /** Where a composite `Load` stopped: the index of the child whose `Load`
      threw, and what it threw. */
  datatype Abort = Abort(at: nat, error: LoadError)

  /** The children after a composite `Load` (those before the failure
      loaded, the rest as they were), and the escaping exception if any. */
  datatype LoadOutcome<E> = LoadOutcome(children: seq<Setting.Child<E>>, abort: Option<Abort>)

  /** Declarative reading of a composite `Load` over `cs`: without an abort,
      every child is replaced by its loaded self; with an abort at `j`, the
      children before `j` loaded, child `j` threw, and child `j` and all
      after it are untouched. */
  ghost predicate LoadsAs<E>(cs: seq<Setting.Child<E>>, st: Store, codec: Setting.EnumCodec<E>, out: LoadOutcome<E>)
  {
    && |out.children| == |cs|
    && (out.abort.None? ==>
          forall i :: 0 <= i < |cs| ==> Setting.Load(cs[i], st, codec) == Ok(out.children[i]))
    && (out.abort.Some? ==>
          var j := out.abort.value.at;
          && j < |cs|
          && (forall i :: 0 <= i < j ==> Setting.Load(cs[i], st, codec) == Ok(out.children[i]))
          && Setting.Load(cs[j], st, codec) == Failed(out.abort.value.error)
          && out.children[j..] == cs[j..])
  }

  /** The abort of a `Load` over the tail, re-indexed for the whole list. */
  function Shift(a: Option<Abort>): Option<Abort>
  {
    if a.Some? then Some(Abort(a.value.at + 1, a.value.error)) else None
  }

  /** A composite `Load`: the children's loads, left to right, stopping at
      the first one that throws. */
  function LoadAll<E>(cs: seq<Setting.Child<E>>, st: Store, codec: Setting.EnumCodec<E>): (r: LoadOutcome<E>)
    ensures |r.children| == |cs|
    decreases |cs|
  {
    if |cs| == 0 then LoadOutcome([], None)
    else
      match Setting.Load(cs[0], st, codec)
      case Failed(err) => LoadOutcome(cs, Some(Abort(0, err)))
      case Ok(c) =>
        var rest := LoadAll(cs[1..], st, codec);
        LoadOutcome([c] + rest.children, Shift(rest.abort))
  }

  /** `LoadAll` is what `LoadsAs` describes, and it fails exactly when some
      child's `Load` throws. */
  lemma {:induction false} LoadAllMeaning<E>(cs: seq<Setting.Child<E>>, st: Store, codec: Setting.EnumCodec<E>)
    ensures LoadsAs(cs, st, codec, LoadAll(cs, st, codec))
    ensures LoadAll(cs, st, codec).abort.None? <==>
              forall i :: 0 <= i < |cs| ==> Setting.Load(cs[i], st, codec).Ok?
    decreases |cs|
  {
    if |cs| > 0 {
      match Setting.Load(cs[0], st, codec)
      case Failed(err) =>
        assert LoadAll(cs, st, codec) == LoadOutcome(cs, Some(Abort(0, err)));
      case Ok(c) =>
        var rest := LoadAll(cs[1..], st, codec);
        LoadAllMeaning(cs[1..], st, codec);
        assert LoadAll(cs, st, codec) == LoadOutcome([c] + rest.children, Shift(rest.abort));
        LoadStep(cs, st, codec, c, rest);
    }
  }

  /** The inductive step of `LoadAllMeaning`: a first child that loads,
      followed by the rest's outcome. */
  lemma LoadStep<E>(cs: seq<Setting.Child<E>>, st: Store, codec: Setting.EnumCodec<E>, c: Setting.Child<E>, rest: LoadOutcome<E>)
    requires |cs| > 0 && Setting.Load(cs[0], st, codec) == Ok(c)
    requires LoadsAs(cs[1..], st, codec, rest)
    requires rest.abort.None? <==> forall i :: 0 <= i < |cs| - 1 ==> Setting.Load(cs[1..][i], st, codec).Ok?
    ensures LoadsAs(cs, st, codec, LoadOutcome([c] + rest.children, Shift(rest.abort)))
    ensures Shift(rest.abort).None? <==> forall i :: 0 <= i < |cs| ==> Setting.Load(cs[i], st, codec).Ok?
  {
    var r := LoadOutcome([c] + rest.children, Shift(rest.abort));
    assert forall i :: 1 <= i < |cs| ==> cs[i] == cs[1..][i - 1] && r.children[i] == rest.children[i - 1];
    if rest.abort.Some? {
      var j := rest.abort.value.at;
      assert r.children[j + 1..] == rest.children[j..];
      assert cs[j + 1..] == cs[1..][j..];
    }
  }

  /** The keys a composite's children persist under. */
  ghost function KeysOf<E>(cs: seq<Setting.Child<E>>): set<string>
  {
    set i | 0 <= i < |cs| :: cs[i].Key()
  }

  /** No child after `i` shares child `i`'s key. */
  ghost predicate LastWithKey<E>(cs: seq<Setting.Child<E>>, i: int)
    requires 0 <= i < |cs|
  {
    forall j :: i < j < |cs| ==> cs[j].Key() != cs[i].Key()
  }

  ghost predicate DistinctKeys<E>(cs: seq<Setting.Child<E>>)
  {
    forall i, j :: 0 <= i < j < |cs| ==> cs[i].Key() != cs[j].Key()
  }

  /** A composite `Save`: the left-to-right fold of the child saves. */
  function SaveAll<E>(cs: seq<Setting.Child<E>>, st: Store, show: E -> string): Store
    decreases |cs|
  {
    if |cs| == 0 then st else SaveAll(cs[1..], Setting.Save(cs[0], st, show), show)
  }

  /** A composite `Save` only adds or overwrites entries: it adds exactly the
      children's keys, a key no child uses keeps its entry, and where
      children collide the last one's value persists. */
  lemma {:induction false} SaveAllWrites<E>(cs: seq<Setting.Child<E>>, st: Store, show: E -> string)
    ensures SaveAll(cs, st, show).Keys == st.Keys + KeysOf(cs)
    ensures forall k :: k in st && k !in KeysOf(cs) ==> SaveAll(cs, st, show)[k] == st[k]
    ensures forall i :: 0 <= i < |cs| && LastWithKey(cs, i) ==>
              SaveAll(cs, st, show)[cs[i].Key()] == Setting.Encode(cs[i], show)
    decreases |cs|
  {
    if |cs| > 0 {
      SaveAllWrites(cs[1..], Setting.Save(cs[0], st, show), show);
      KeysOfCons(cs);
      LastWithKeyTail(cs);
    }
  }

  lemma KeysOfCons<E>(cs: seq<Setting.Child<E>>)
    requires |cs| > 0
    ensures KeysOf(cs) == {cs[0].Key()} + KeysOf(cs[1..])
  {
    forall k | k in KeysOf(cs) ensures k in {cs[0].Key()} + KeysOf(cs[1..]) {
      var i :| 0 <= i < |cs| && cs[i].Key() == k;
      if i > 0 { assert cs[1..][i - 1] == cs[i]; }
    }
    forall k | k in KeysOf(cs[1..]) ensures k in KeysOf(cs) {
      var i :| 0 <= i < |cs[1..]| && cs[1..][i].Key() == k;
      assert cs[i + 1] == cs[1..][i];
    }
  }

  lemma LastWithKeyTail<E>(cs: seq<Setting.Child<E>>)
    requires |cs| > 0
    ensures forall i :: 1 <= i < |cs| && LastWithKey(cs, i) ==> LastWithKey(cs[1..], i - 1)
    ensures LastWithKey(cs, 0) ==> cs[0].Key() !in KeysOf(cs[1..])
  {
    if LastWithKey(cs, 0) {
      forall i | 0 <= i < |cs[1..]|
        ensures cs[1..][i].Key() != cs[0].Key()
      {
        assert cs[1..][i] == cs[i + 1];
      }
    }
  }

  /** A composite `ApplyValue`: each child's `ApplyValue` in list order,
      threading the game state `g` it acts on. */
  function ApplyAll<E, G>(cs: seq<Setting.Child<E>>, hook: (Setting.Child<E>, G) -> G, g: G): G
    decreases |cs|
  {
    if |cs| == 0 then g else ApplyAll(cs[1..], hook, hook(cs[0], g))
  }

  /** The keys of the children, in list order. */
  function KeySeq<E>(cs: seq<Setting.Child<E>>): seq<string>
  {
    seq(|cs|, i requires 0 <= i < |cs| => cs[i].Key())
  }

  /** The first child whose `Load` throws ends a composite `Load`: the
      exception escapes, and that child and every later one keep their old
      values. */
  lemma FirstFailureAborts<E>(cs: seq<Setting.Child<E>>, st: Store, codec: Setting.EnumCodec<E>, j: nat)
    requires j < |cs|
    requires forall i :: 0 <= i < j ==> Setting.Load(cs[i], st, codec).Ok?
    requires Setting.Load(cs[j], st, codec).Failed?
    ensures LoadAll(cs, st, codec).abort == Some(Abort(j, Setting.Load(cs[j], st, codec).error))
    ensures LoadAll(cs, st, codec).children[j..] == cs[j..]
  {
    LoadAllMeaning(cs, st, codec);
    var r := LoadAll(cs, st, codec);
    assert !Setting.Load(cs[j], st, codec).Ok?;
    assert r.abort.Some?;
    var at := r.abort.value.at;
    assert at < |cs| && Setting.Load(cs[at], st, codec).Failed?;
    assert at <= j;
    assert j <= at;
  }

  /** With no children, `Load` and `Save` change nothing. */
  lemma EmptyIsInert<E>(st: Store, codec: Setting.EnumCodec<E>)
    ensures LoadAll([], st, codec) == LoadOutcome([], None)
    ensures SaveAll([], st, codec.show) == st
  {
  }

  /** An `ApplyValue` hook that records which child it was called for. */
  function LogKey<E>(c: Setting.Child<E>, log: seq<string>): seq<string>
  {
    log + [c.Key()]
  }

  /** Child `ApplyValue`s run in list order: a hook that logs each key it is
      handed produces the keys in order. */
  lemma {:induction false} ApplyVisitsInOrder<E>(cs: seq<Setting.Child<E>>, log: seq<string>)
    ensures ApplyAll(cs, LogKey, log) == log + KeySeq(cs)
    decreases |cs|
  {
    if |cs| > 0 {
      var log1 := LogKey(cs[0], log);
      assert ApplyAll(cs, LogKey, log) == ApplyAll(cs[1..], LogKey, log1);
      ApplyVisitsInOrder(cs[1..], log1);
      assert KeySeq(cs) == [cs[0].Key()] + KeySeq(cs[1..]);
      assert log1 + KeySeq(cs[1..]) == log + ([cs[0].Key()] + KeySeq(cs[1..]));
    }
  }

  /** The reusable leaves' `ApplyValue` is empty, so a composite of them
      changes nothing. */
  lemma {:induction false} ReusableApplyIsNoOp<E, G>(cs: seq<Setting.Child<E>>, g: G)
    ensures ApplyAll(cs, (c: Setting.Child<E>, x: G) => Setting.Apply(c, x), g) == g
    decreases |cs|
  {
    if |cs| > 0 {
      ReusableApplyIsNoOp(cs[1..], g);
    }
  }

  /** Appending a child appends its `ApplyValue` after the others. */
  lemma {:induction false} ApplyAllAppend<E, G>(a: seq<Setting.Child<E>>, b: seq<Setting.Child<E>>, hook: (Setting.Child<E>, G) -> G, g: G)
    ensures ApplyAll(a + b, hook, g) == ApplyAll(b, hook, ApplyAll(a, hook, g))
    decreases |a|
  {
    if |a| > 0 {
      assert (a + b)[1..] == a[1..] + b;
      ApplyAllAppend(a[1..], b, hook, hook(a[0], g));
    } else {
      assert a + b == b;
    }
  }

  /** Appending a child appends its `Save` after the others'. */
  lemma {:induction false} SaveAllAppend<E>(cs: seq<Setting.Child<E>>, c: Setting.Child<E>, st: Store, show: E -> string)
    ensures SaveAll(cs + [c], st, show) == Setting.Save(c, SaveAll(cs, st, show), show)
    decreases |cs|
  {
    if |cs| > 0 {
      assert (cs + [c])[1..] == cs[1..] + [c];
      SaveAllAppend(cs[1..], c, Setting.Save(cs[0], st, show), show);
    }
  }

  /** Save then load into same-shape children reproduces every child, when
      the keys are pairwise distinct and each enum value's name parses back
      to it. */
  lemma SaveLoadRoundTrip<E>(cs: seq<Setting.Child<E>>, blanks: seq<Setting.Child<E>>, st: Store, codec: Setting.EnumCodec<E>)
    requires |blanks| == |cs|
    requires forall i :: 0 <= i < |cs| ==> Setting.SameShape(blanks[i], cs[i])
    requires DistinctKeys(cs)
    requires forall i :: 0 <= i < |cs| && cs[i].EnumChild? ==> Setting.NamesRoundTrip(codec, cs[i].e.value)
    ensures LoadAll(blanks, SaveAll(cs, st, codec.show), codec) == LoadOutcome(cs, None)
  {
    var saved := SaveAll(cs, st, codec.show);
    SaveAllWrites(cs, st, codec.show);
    forall i | 0 <= i < |cs|
      ensures Setting.Load(blanks[i], saved, codec) == Ok(cs[i])
    {
      assert LastWithKey(cs, i);
      assert cs[i].Key() in KeysOf(cs);
      Setting.LoadEncoded(cs[i], blanks[i], saved, codec);
    }
    LoadAllMeaning(blanks, saved, codec);
    var r := LoadAll(blanks, saved, codec);
    assert r.children == cs;
  }
}
