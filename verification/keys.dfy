/** Persistence keys: every reusable leaf setting stores its value under
    `prefix + "." + typeName`, where `typeName` is the runtime name of the
    concrete setting class (`GetType().Name`).
 */
module Keys {

  function SettingKey(prefix: string, typeName: string): (k: string)
    ensures |k| == |prefix| + 1 + |typeName|
    ensures k[..|prefix|] == prefix
    ensures k[|prefix|] == '.'
    ensures k[|prefix| + 1..] == typeName
  {
    prefix + "." + typeName
  }

  /** Under one prefix, the key determines the type name. */
  lemma SamePrefixKeyInjective(prefix: string, t1: string, t2: string)
    requires SettingKey(prefix, t1) == SettingKey(prefix, t2)
    ensures t1 == t2
  {
    var k := SettingKey(prefix, t1);
    assert t1 == k[|prefix| + 1..];
  }

  /** Past the separator, a key built from a dot-free type name holds no '.'. */
  lemma NoDotAfterSeparator(prefix: string, typeName: string)
    requires '.' !in typeName
    ensures forall i :: |prefix| < i < |SettingKey(prefix, typeName)| ==>
              SettingKey(prefix, typeName)[i] != '.'
  {
    var k := SettingKey(prefix, typeName);
    forall i | |prefix| < i < |k|
      ensures k[i] != '.'
    {
      assert k[i] == k[|prefix| + 1..][i - |prefix| - 1];
    }
  }

  /** A C# class name never contains a '.', so the key is the last
      dot-separated segment appended to the prefix: it determines both. */
  lemma KeyInjective(p1: string, t1: string, p2: string, t2: string)
    requires '.' !in t1 && '.' !in t2
    requires SettingKey(p1, t1) == SettingKey(p2, t2)
    ensures p1 == p2 && t1 == t2
  {
    var k := SettingKey(p1, t1);
    NoDotAfterSeparator(p1, t1);
    NoDotAfterSeparator(p2, t2);
    assert k[|p2|] == '.';
    assert k[|p1|] == '.';
    assert |p1| == |p2|;
    assert p1 == k[..|p1|];
    SamePrefixKeyInjective(p1, t1, t2);
  }
}
