/** The generic helpers of utils.go that the core calls. */
module Utils {

  /** Number of elements of `s` that satisfy `p`, counted from the end so that
      it unfolds in the same direction as the loop in `Count`. */
  function Occurrences<E>(s: seq<E>, p: E -> bool): (n: nat)
    ensures n <= |s|
  {
    if s == [] then 0
    else Occurrences(s[..|s| - 1], p) + (if p(s[|s| - 1]) then 1 else 0)
  }

  /** `Count` (utils.go:14-22): walks the slice once, counting matches. */
  method Count<E>(s: seq<E>, p: E -> bool) returns (c: nat)
    ensures c == Occurrences(s, p)
  {
    c := 0;
    var i := 0;
    while i < |s|
      invariant 0 <= i <= |s|
      invariant c == Occurrences(s[..i], p)
    {
      assert s[..i + 1][..i] == s[..i];
      if p(s[i]) {
        c := c + 1;
      }
      i := i + 1;
    }
    assert s[..i] == s;
  }

  /** Counting distributes over concatenation. */
  lemma {:induction false} OccurrencesAppend<E>(s: seq<E>, t: seq<E>, p: E -> bool)
    ensures Occurrences(s + t, p) == Occurrences(s, p) + Occurrences(t, p)
    decreases |t|
  {
    if t == [] {
      assert s + t == s;
    } else {
      var t' := t[..|t| - 1];
      assert (s + t)[..|s + t| - 1] == s + t';
      OccurrencesAppend(s, t', p);
    }
  }

  /** The count is all of `s` exactly when every element matches, and zero
      exactly when none does. */
  lemma {:induction false} OccurrencesExtremes<E>(s: seq<E>, p: E -> bool)
    ensures Occurrences(s, p) == |s| <==> forall i | 0 <= i < |s| :: p(s[i])
    ensures Occurrences(s, p) == 0 <==> forall i | 0 <= i < |s| :: !p(s[i])
    decreases |s|
  {
    if s != [] {
      var s' := s[..|s| - 1];
      OccurrencesExtremes(s', p);
      assert forall i | 0 <= i < |s'| :: s'[i] == s[i];
    }
  }
}
