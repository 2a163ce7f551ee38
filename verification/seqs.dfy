/** List operations of the Kotlin collections the sign software uses:
    `reversed()`, `add(index, x)` and `removeAt(index)`. */
module Seqs {

  /** `reversed()`. */
  function Reverse<T>(s: seq<T>): (r: seq<T>)
    ensures |r| == |s|
    ensures forall i :: 0 <= i < |s| ==> r[i] == s[|s| - 1 - i]
  {
    if |s| == 0 then [] else Reverse(s[1..]) + [s[0]]
  }

  /** Reversing twice gives the list back. */
  lemma ReverseReverse<T>(s: seq<T>)
    ensures Reverse(Reverse(s)) == s
  {
  }

  lemma ReverseAppend<T>(a: seq<T>, b: seq<T>)
    ensures Reverse(a + b) == Reverse(b) + Reverse(a)
  {
  }

  /** `add(i, x)`: `x` lands at index `i`, the rest shifts right. */
  function InsertAt<T>(s: seq<T>, i: nat, x: T): (r: seq<T>)
    requires i <= |s|
    ensures |r| == |s| + 1 && r[i] == x
    ensures r[..i] == s[..i] && r[i + 1..] == s[i..]
  {
    s[..i] + [x] + s[i..]
  }

  /** `removeAt(i)`: the entry at `i` is gone, the rest shifts left. */
  function RemoveAt<T>(s: seq<T>, i: nat): (r: seq<T>)
    requires i < |s|
    ensures |r| == |s| - 1
    ensures r[..i] == s[..i] && r[i..] == s[i + 1..]
  {
    s[..i] + s[i + 1..]
  }

  /** Putting an entry back where it was removed gives the list back. */
  lemma InsertRemove<T>(s: seq<T>, i: nat)
    requires i < |s|
    ensures InsertAt(RemoveAt(s, i), i, s[i]) == s
  {
    assert RemoveAt(s, i)[..i] == s[..i];
    assert RemoveAt(s, i)[i..] == s[i + 1..];
    assert s == s[..i] + [s[i]] + s[i + 1..];
  }

  /** Removing what was just inserted gives the list back. */
  lemma RemoveInsert<T>(s: seq<T>, i: nat, x: T)
    requires i <= |s|
    ensures RemoveAt(InsertAt(s, i, x), i) == s
  {
    var r := InsertAt(s, i, x);
    assert r[..i] == s[..i] && r[i + 1..] == s[i..];
    assert s == s[..i] + s[i..];
  }
}
