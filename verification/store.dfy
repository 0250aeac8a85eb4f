/** The key/value preference store behind `ISettingsSaveLoad`.

    The real store is foreign. The model makes one assumption about it: a
    typed try-read `TryLoadX(key)` succeeds exactly when the key currently
    holds a value of kind X, and hands that value back; a typed write
    `SaveX(key, v)` replaces the entry for `key` and touches nothing else.
 */
module Store {

  /** C#'s `int`: a 32-bit two's-complement integer. */
  type Int32 = x: int | -0x8000_0000 <= x < 0x8000_0000

  /** A C# `float`, kept opaque: only its bit pattern, compared for equality. */
  datatype FloatTok = FloatTok(bits: bv32)

  datatype StoreValue = B(b: bool) | I(i: Int32) | F(f: FloatTok) | S(s: string)

  type Store = map<string, StoreValue>

  datatype Option<T> = None | Some(value: T)

  function TryLoadBool(st: Store, key: string): Option<bool>
  {
    if key in st && st[key].B? then Some(st[key].b) else None
  }

  function TryLoadInt(st: Store, key: string): Option<Int32>
  {
    if key in st && st[key].I? then Some(st[key].i) else None
  }

  function TryLoadFloat(st: Store, key: string): Option<FloatTok>
  {
    if key in st && st[key].F? then Some(st[key].f) else None
  }

  function TryLoadString(st: Store, key: string): Option<string>
  {
    if key in st && st[key].S? then Some(st[key].s) else None
  }

  /** Every typed write is an overwrite of one entry. */
  function Put(st: Store, key: string, v: StoreValue): (r: Store)
    ensures r.Keys == st.Keys + {key}
    ensures r[key] == v
    ensures forall k :: k in st && k != key ==> r[k] == st[k]
  {
    st[key := v]
  }
}
