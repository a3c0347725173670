/** Small value types and string helpers shared by the model: the Option and
    Result wrappers used for Go's nil results and error returns, and the few
    operations of Go's `strings` and `slices` packages that the core calls. */
module Common {

  datatype Option<+T> = None | Some(value: T)

  datatype Result<+T, +E> = Ok(value: T) | Err(error: E)

  /** The empty list for `None`, the one-element list for `Some`. */
  function OptionSeq<T>(o: Option<T>): seq<T>
  {
    match o
    case None => []
    case Some(x) => [x]
  }

  /** `pat` occurs in `s` at position `i`. */
  predicate OccursAt(s: string, pat: string, i: int)
  {
    0 <= i && i + |pat| <= |s| && s[i..i + |pat|] == pat
  }

  /** `strings.Contains(s, pat)`. */
  predicate ContainsStr(s: string, pat: string)
  {
    exists i | 0 <= i <= |s| :: OccursAt(s, pat, i)
  }

  /** Index of the last occurrence of `c` in `s`, or -1. */
  function LastIndexOf(s: string, c: char): (r: int)
    ensures -1 <= r < |s|
    ensures r >= 0 ==> s[r] == c
    ensures forall j | r < j < |s| :: s[j] != c
  {
    if s == [] then -1
    else if s[|s| - 1] == c then |s| - 1
    else LastIndexOf(s[..|s| - 1], c)
  }

  /** Index of the first occurrence of `c` in `s`, or -1. */
  function IndexOf(s: string, c: char): (r: int)
    ensures -1 <= r < |s|
    ensures r >= 0 ==> s[r] == c
    ensures forall j | 0 <= j < |s| && (r < 0 || j < r) :: s[j] != c
  {
    if s == [] then -1
    else if s[0] == c then 0
    else var r := IndexOf(s[1..], c); if r < 0 then -1 else r + 1
  }

  /** Index of the first occurrence of `pat` in `s` at or after `from`, or -1
      (`strings.Index` on a suffix). */
  function FindFrom(s: string, pat: string, from: nat): (r: int)
    requires |pat| > 0
    ensures r == -1 || (from <= r && OccursAt(s, pat, r))
    ensures forall j | from <= j && (r < 0 || j < r) :: !OccursAt(s, pat, j)
    decreases |s| - from
  {
    if from + |pat| > |s| then -1
    else if OccursAt(s, pat, from) then from
    else FindFrom(s, pat, from + 1)
  }

  /** `strings.Split(s, sep)` for a non-empty separator: the pieces between
      successive non-overlapping occurrences of `sep`, scanned left to right. */
  function SplitOn(s: string, sep: string): (parts: seq<string>)
    requires |sep| > 0
    ensures |parts| >= 1
    decreases |s|
  {
    var i := FindFrom(s, sep, 0);
    if i < 0 then [s]
    else [s[..i]] + SplitOn(s[i + |sep|..], sep)
  }

  /** `strings.Join(parts, sep)`. */
  function JoinWith(parts: seq<string>, sep: string): string
  {
    if parts == [] then ""
    else if |parts| == 1 then parts[0]
    else parts[0] + sep + JoinWith(parts[1..], sep)
  }

  /** Splitting and joining with the same separator gives back the input. */
  lemma {:induction false} SplitJoin(s: string, sep: string)
    requires |sep| > 0
    ensures JoinWith(SplitOn(s, sep), sep) == s
    decreases |s|
  {
    var i := FindFrom(s, sep, 0);
    if i >= 0 {
      var rest := s[i + |sep|..];
      SplitJoin(rest, sep);
      SplitOnCons(s, sep);
      JoinStep(s, sep, i, SplitOn(rest, sep));
    }
  }

  lemma SplitOnCons(s: string, sep: string)
    requires |sep| > 0 && FindFrom(s, sep, 0) >= 0
    ensures var i := FindFrom(s, sep, 0);
      SplitOn(s, sep) == [s[..i]] + SplitOn(s[i + |sep|..], sep)
  {
  }

  /** Joining the piece before an occurrence of `sep` to pieces that join
      back to what follows it gives back the whole string. */
  lemma JoinStep(s: string, sep: string, i: int, tail: seq<string>)
    requires OccursAt(s, sep, i) && |tail| >= 1
    requires JoinWith(tail, sep) == s[i + |sep|..]
    ensures JoinWith([s[..i]] + tail, sep) == s
  {
    JoinCons(s[..i], tail, sep);
    SplitAround(s, sep, i);
  }

  lemma SplitAround(s: string, sep: string, i: int)
    requires OccursAt(s, sep, i)
    ensures s == s[..i] + sep + s[i + |sep|..]
  {
    assert s == s[..i] + s[i..i + |sep|] + s[i + |sep|..];
  }

  lemma JoinCons(p: string, tail: seq<string>, sep: string)
    requires |tail| >= 1
    ensures JoinWith([p] + tail, sep) == p + sep + JoinWith(tail, sep)
  {
    assert ([p] + tail)[1..] == tail;
  }

  /** No piece produced by SplitOn contains the separator. */
  lemma {:induction false} SplitPiecesFree(s: string, sep: string)
    requires |sep| > 0
    ensures forall k | 0 <= k < |SplitOn(s, sep)| :: !ContainsStr(SplitOn(s, sep)[k], sep)
    decreases |s|
  {
    var i := FindFrom(s, sep, 0);
    if i < 0 {
      NotFoundNotContained(s, sep);
    } else {
      var rest := s[i + |sep|..];
      SplitPiecesFree(rest, sep);
      assert SplitOn(s, sep) == [s[..i]] + SplitOn(rest, sep);
      PrefixBeforeFirstFree(s, sep, i);
    }
  }

  lemma PrefixBeforeFirstFree(s: string, sep: string, i: int)
    requires |sep| > 0 && 0 <= i <= |s|
    requires forall j | 0 <= j < i :: !OccursAt(s, sep, j)
    ensures !ContainsStr(s[..i], sep)
  {
    forall j | 0 <= j <= i ensures !OccursAt(s[..i], sep, j) {
      if OccursAt(s[..i], sep, j) {
        assert s[..i][j..j + |sep|] == s[j..j + |sep|];
        assert OccursAt(s, sep, j);
      }
    }
  }

  lemma NotFoundNotContained(s: string, sep: string)
    requires |sep| > 0 && FindFrom(s, sep, 0) < 0
    ensures !ContainsStr(s, sep)
  {
  }

  /** `strings.Replace(s, pat, "", -1)`: drops every non-overlapping occurrence
      of `pat`, scanning left to right. */
  function RemoveAll(s: string, pat: string): (r: string)
    requires |pat| > 0
    ensures |r| <= |s|
    ensures !ContainsStr(s, pat) ==> r == s
    decreases |s|
  {
    if s == [] then ""
    else if OccursAt(s, pat, 0) then RemoveAll(s[|pat|..], pat)
    else
      var r := [s[0]] + RemoveAll(s[1..], pat);
      assert !ContainsStr(s, pat) ==> !ContainsStr(s[1..], pat) by {
        if ContainsStr(s[1..], pat) {
          var j :| 0 <= j <= |s[1..]| && OccursAt(s[1..], pat, j);
          assert s[j + 1..j + 1 + |pat|] == s[1..][j..j + |pat|];
          assert OccursAt(s, pat, j + 1);
        }
      }
      r
  }

  /** Go's `<` on strings: lexicographic order on characters. (Dafny's own `<`
      on sequences is "proper prefix".) */
  predicate LexLess(a: string, b: string)
    decreases |a|
  {
    if a == [] then b != []
    else if b == [] then false
    else if a[0] != b[0] then a[0] < b[0]
    else LexLess(a[1..], b[1..])
  }

  lemma {:induction false} LexLessIrreflexive(a: string)
    ensures !LexLess(a, a)
    decreases |a|
  {
    if a != [] { LexLessIrreflexive(a[1..]); }
  }

  lemma {:induction false} LexLessTransitive(a: string, b: string, c: string)
    requires LexLess(a, b) && LexLess(b, c)
    ensures LexLess(a, c)
    decreases |a|
  {
    if a != [] && b != [] && c != [] && a[0] == b[0] && b[0] == c[0] {
      LexLessTransitive(a[1..], b[1..], c[1..]);
    }
  }

  lemma {:induction false} LexLessTotal(a: string, b: string)
    requires a != b
    ensures LexLess(a, b) || LexLess(b, a)
    decreases |a|
  {
    if a != [] && b != [] && a[0] == b[0] {
      assert a == [a[0]] + a[1..] && b == [b[0]] + b[1..];
      LexLessTotal(a[1..], b[1..]);
    }
  }

  /** Appends to `acc`, in order, each element of `xs` not already present —
      the `if !slices.Contains(tables, t) { tables = append(tables, t) }` idiom. */
  function AppendNew(acc: seq<string>, xs: seq<string>): (r: seq<string>)
    decreases |xs|
  {
    if xs == [] then acc
    else AppendNew(if xs[0] in acc then acc else acc + [xs[0]], xs[1..])
  }

  /** A non-empty sequence is its front followed by its last element. */
  lemma FrontLast<T>(s: seq<T>)
    requires s != []
    ensures s == s[..|s| - 1] + [s[|s| - 1]]
  {
  }

  predicate NoDup<T(==)>(s: seq<T>)
  {
    forall i, j | 0 <= i < j < |s| :: s[i] != s[j]
  }

  /** What `AppendNew` promises: the old entries stay as a prefix, nothing is
      duplicated, and exactly the elements of both inputs are present. */
  lemma {:induction false} AppendNewSpec(acc: seq<string>, xs: seq<string>)
    requires NoDup(acc)
    ensures NoDup(AppendNew(acc, xs))
    ensures acc <= AppendNew(acc, xs)
    ensures forall t :: t in AppendNew(acc, xs) <==> t in acc || t in xs
    decreases |xs|
  {
    if xs != [] {
      var acc' := if xs[0] in acc then acc else acc + [xs[0]];
      AppendNewSpec(acc', xs[1..]);
      assert forall t :: t in xs <==> t == xs[0] || t in xs[1..] by {
        assert xs == [xs[0]] + xs[1..];
      }
    }
  }

  /** Appending in two steps is the same as appending the concatenation. */
  lemma {:induction false} AppendNewConcat(acc: seq<string>, xs: seq<string>, ys: seq<string>)
    ensures AppendNew(acc, xs + ys) == AppendNew(AppendNew(acc, xs), ys)
    decreases |xs|
  {
    if xs != [] {
      assert (xs + ys)[0] == xs[0] && (xs + ys)[1..] == xs[1..] + ys;
      AppendNewConcat(if xs[0] in acc then acc else acc + [xs[0]], xs[1..], ys);
    } else {
      assert xs + ys == ys;
    }
  }

  /** Merging a list that was itself deduplicated gives the same result as
      merging the raw list: duplicates in `xs` are skipped either way. */
  lemma {:induction false} AppendNewDedup(acc: seq<string>, xs: seq<string>)
    ensures AppendNew(acc, AppendNew([], xs)) == AppendNew(acc, xs)
    decreases |xs|
  {
    AppendNewAbsorb(acc, [], xs);
  }

  /** Generalisation of AppendNewDedup: if everything in `seen` is already in
      `acc`, merging `AppendNew(seen, xs)` minus its prefix `seen` adds what
      merging `xs` adds. */
  lemma {:induction false} AppendNewAbsorb(acc: seq<string>, seen: seq<string>, xs: seq<string>)
    requires forall t | t in seen :: t in acc
    ensures seen <= AppendNew(seen, xs)
    ensures AppendNew(acc, AppendNew(seen, xs)[|seen|..]) == AppendNew(acc, xs)
    decreases |xs|
  {
    if xs == [] {
      assert AppendNew(seen, xs)[|seen|..] == [];
    } else {
      var x := xs[0];
      if x in seen {
        AppendNewAbsorb(acc, seen, xs[1..]);
        assert x in acc;
      } else {
        var seen' := seen + [x];
        var acc' := if x in acc then acc else acc + [x];
        AppendNewAbsorb(acc', seen', xs[1..]);
        var out := AppendNew(seen', xs[1..]);
        assert AppendNew(seen, xs) == out;
        assert seen' <= out && out[|seen|] == seen'[|seen|] == x;
        assert out[|seen|..] == [out[|seen|]] + out[|seen| + 1..];
        assert out[|seen|..] == [x] + out[|seen'|..];
        assert AppendNew(acc, [x] + out[|seen'|..]) == AppendNew(acc', out[|seen'|..]) by {
          assert ([x] + out[|seen'|..])[1..] == out[|seen'|..];
        }
      }
    }
  }
}
