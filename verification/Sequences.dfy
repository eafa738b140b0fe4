/** Small facts about sequences. */
module Sequences {
  /** The first n entries, or all if there are fewer. */
  function Cut<T>(s: seq<T>, n: nat): seq<T> {
    if |s| <= n then s else s[..n]
  }

  lemma Assoc<T>(a: seq<T>, b: seq<T>, c: seq<T>)
    ensures (a + b) + c == a + (b + c)
  {
  }

  /** What follows the first n entries. */
  function Drop<T>(s: seq<T>, n: nat): seq<T> {
    if n <= |s| then s[n..] else []
  }

  /** The first n entries of s, as far as there are any, are v. */
  predicate Starts<T(==)>(s: seq<T>, n: nat, v: T) {
    forall j :: 0 <= j < n && j < |s| ==> s[j] == v
  }

  lemma DropDrop<T>(s: seq<T>, m: nat, n: nat)
    ensures Drop(Drop(s, m), n) == Drop(s, m + n)
  {
  }

  lemma StartsParts<T>(s: seq<T>, m: nat, n: nat, v: T)
    ensures Starts(s, m + n, v) <==> Starts(s, m, v) && Starts(Drop(s, m), n, v)
  {
    if Starts(s, m, v) && Starts(Drop(s, m), n, v) {
      forall j | 0 <= j < m + n && j < |s| ensures s[j] == v {
        assert j >= m ==> s[j] == Drop(s, m)[j - m];
      }
    }
  }
}
