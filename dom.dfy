/** The two DOM behaviours the page's handlers rely on: `querySelector`, which
    yields the first element in document order that matches (or null), and a
    class toggled on a list of elements, of which exactly one should carry it. */
module Dom {

  datatype Option<T> = None | Some(value: T)

  /** `k` is the first position of `key` in `xs`. */
  ghost predicate IsFirst<T>(xs: seq<T>, key: T, k: int)
  {
    0 <= k < |xs| && xs[k] == key && forall j :: 0 <= j < k ==> xs[j] != key
  }

  /** `r` is what `querySelector` yields for `key` over elements tagged `xs`. */
  ghost predicate IsFirstMatch<T>(xs: seq<T>, key: T, r: Option<nat>)
  {
    match r
    case None => forall j :: 0 <= j < |xs| ==> xs[j] != key
    case Some(k) => IsFirst(xs, key, k)
  }

  /** Scans the elements in document order, as `querySelector` does. */
  method QuerySelector<T(==)>(xs: seq<T>, key: T) returns (r: Option<nat>)
    ensures IsFirstMatch(xs, key, r)
  {
    var i := 0;
    while i < |xs|
      invariant 0 <= i <= |xs|
      invariant forall j :: 0 <= j < i ==> xs[j] != key
    {
      if xs[i] == key {
        return Some(i);
      }
      i := i + 1;
    }
    return None;
  }

  /** Number of elements carrying the class. */
  function CountTrue(flags: seq<bool>): nat
  {
    if flags == [] then 0 else (if flags[0] then 1 else 0) + CountTrue(flags[1..])
  }

  /** Only the element at `k` carries the class. */
  ghost predicate OnlyAt(flags: seq<bool>, k: int)
  {
    forall i :: 0 <= i < |flags| ==> flags[i] == (i == k)
  }

  lemma {:induction false} NoneTrue(flags: seq<bool>)
    ensures CountTrue(flags) == 0 <==> forall i :: 0 <= i < |flags| ==> !flags[i]
  {
    if flags != [] {
      NoneTrue(flags[1..]);
      assert forall i :: 1 <= i < |flags| ==> flags[i] == flags[1..][i - 1];
    }
  }

  /** "Exactly one active, and it is `k`" in both directions. */
  lemma {:induction false} OnlyAtIff(flags: seq<bool>, k: int)
    requires 0 <= k < |flags|
    ensures OnlyAt(flags, k) <==> CountTrue(flags) == 1 && flags[k]
  {
    var rest := flags[1..];
    assert forall i :: 1 <= i < |flags| ==> flags[i] == rest[i - 1];
    if k == 0 {
      NoneTrue(rest);
    } else {
      OnlyAtIff(rest, k - 1);
      if flags[0] {
        NoneTrue(rest);
        assert CountTrue(flags) == 1 ==> !rest[k - 1];
      }
      assert OnlyAt(flags, k) <==> !flags[0] && OnlyAt(rest, k - 1);
    }
  }
}
