/** Generic facts about sequences: reversal (Python's `[::-1]` and `list.reverse`). */
module Sequences {

  /** The elements of `s` in the opposite order. */
  function Reversed<T>(s: seq<T>): (r: seq<T>)
    ensures |r| == |s|
  {
    if s == [] then [] else Reversed(s[1..]) + [s[0]]
  }

  /** Element `k` of the reversal is element `|s| - 1 - k` of the input. */
  lemma {:induction false} ReversedAt<T>(s: seq<T>, k: nat)
    requires k < |s|
    ensures Reversed(s)[k] == s[|s| - 1 - k]
  {
    if k < |s| - 1 {
      ReversedAt(s[1..], k);
    }
  }

  /** Reversal is determined pointwise by the mirror index. */
  lemma ReversedIsMirror<T>(s: seq<T>, r: seq<T>)
    requires |r| == |s|
    requires forall k :: 0 <= k < |s| ==> r[k] == s[|s| - 1 - k]
    ensures r == Reversed(s)
  {
    forall k | 0 <= k < |s| ensures r[k] == Reversed(s)[k] {
      ReversedAt(s, k);
    }
  }

  /** Reversing twice gives back the original sequence. */
  lemma ReversedTwice<T>(s: seq<T>)
    ensures Reversed(Reversed(s)) == s
  {
    var r := Reversed(s);
    forall k | 0 <= k < |s| ensures s[k] == r[|r| - 1 - k] {
      ReversedAt(s, |s| - 1 - k);
    }
    ReversedIsMirror(r, s);
  }
}
