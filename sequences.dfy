/** A few facts about sequences and maps, proved once apart from everything else so
    that the proofs which need them do not have to rediscover them among
    many unrelated facts. */
module Sequences {
  lemma Associative<T>(a: seq<T>, b: seq<T>, c: seq<T>)
    ensures a + b + c == a + (b + c)
  {
  }

  /** A non-empty sequence is its front followed by its last element. */
  lemma FrontLast<T>(s: seq<T>)
    requires s != []
    ensures s == s[..|s| - 1] + [s[|s| - 1]]
  {
  }

  /** Adding an absent key to a map: the key set grows by that key and
      the other entries stay. */
  lemma AddAt<K, V>(m: map<K, V>, k: K, v: V)
    requires k !in m
    ensures m[k := v].Keys == m.Keys + {k}
    ensures forall j :: j in m ==> m[k := v][j] == m[j]
  {
  }

  /** Appending an element that has a property to a sequence whose
      elements all have it. */
  lemma AppendAll<T>(s: seq<T>, x: T, p: T -> bool)
    requires forall k :: 0 <= k < |s| ==> p(s[k])
    requires p(x)
    ensures forall k :: 0 <= k < |s + [x]| ==> p((s + [x])[k])
  {
  }

  /** Occurrences in a sequence with one more element at its front. */
  lemma CountFront<T>(x: T, s: seq<T>, v: T)
    ensures multiset([x] + s)[v] == multiset(s)[v] + (if x == v then 1 else 0)
  {
    assert multiset([x] + s) == multiset{x} + multiset(s);
  }
}
