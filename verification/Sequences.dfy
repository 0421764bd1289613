/**
 Small facts about sequences that several modules need.
 */
module Sequences {

  predicate EndsWith<T(==)>(s: seq<T>, suffix: seq<T>) {
    |s| >= |suffix| && s[|s| - |suffix|..] == suffix
  }

  /** The text without a suffix, if it has it. */
  function TrimSuffix<T(==)>(s: seq<T>, suffix: seq<T>): seq<T> {
    if EndsWith(s, suffix) then s[..|s| - |suffix|] else s
  }

  lemma {:induction false} Regroup<T>(a: seq<T>, b: seq<T>, c: seq<T>)
    ensures (a + b) + c == a + (b + c)
  {
  }
}
