/**
 * `UniqueUid` and `generateClassName` (styled.ts): a counter whose every
 * `next()` yields a fresh number, rendered as `styled-component-N`.
 */
module Naming {
  import opened Wrappers
  import opened Strings

  class UniqueUid {
    var uid: int

    /** `new UniqueUid(uid?)`: a falsy argument (absent or 0) keeps the default 0. */
    constructor (init: Option<int>)
      ensures init.Some? && init.value != 0 ==> uid == init.value
      ensures init.None? || init.value == 0 ==> uid == 0
    {
      uid := 0;
      if init.Some? && init.value != 0 {
        uid := init.value;
      }
    }

    /** `++this.uid`: the counter grows by one and the new value is returned. */
    method Next() returns (n: int)
      modifies this
      ensures uid == old(uid) + 1
      ensures n == uid
    {
      uid := uid + 1;
      n := uid;
    }
  }

  const ClassPrefix: string := "styled-component-"

  /** The class name the counter value `n` stands for. */
  function ClassName(n: int): (r: string)
    ensures |ClassPrefix| < |r| && r[..|ClassPrefix|] == ClassPrefix
    ensures forall i | |ClassPrefix| <= i < |r| :: IsDigit(r[i]) || r[i] == '-'
    ensures forall i | |ClassPrefix| < i < |r| :: IsDigit(r[i])
  {
    ClassPrefix + IntToString(n)
  }

  /** Different counter values give different class names. */
  lemma ClassNameInjective(a: int, b: int)
    requires a != b
    ensures ClassName(a) != ClassName(b)
  {
    IntToStringInjective(a, b);
    assert ClassName(a)[|ClassPrefix|..] == IntToString(a);
    assert ClassName(b)[|ClassPrefix|..] == IntToString(b);
  }

  /** `generateClassName()`, drawing from the counter `ids` (the module-level `ID`). */
  method GenerateClassName(ids: UniqueUid) returns (name: string)
    modifies ids
    ensures ids.uid == old(ids.uid) + 1
    ensures name == ClassName(ids.uid)
  {
    var n := ids.Next();
    name := ClassPrefix + IntToString(n);
  }

  /**
   * Two calls of `generateClassName` on the same counter never return the
   * same name: the second sees a strictly larger counter value.
   */
  method GenerateTwice(ids: UniqueUid) returns (first: string, second: string)
    modifies ids
    ensures first != second
    ensures ids.uid == old(ids.uid) + 2
  {
    first := GenerateClassName(ids);
    ghost var n := ids.uid;
    second := GenerateClassName(ids);
    ClassNameInjective(n, ids.uid);
  }
}
