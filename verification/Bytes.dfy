/** Octets, network-order fields and the small wrappers shared by every module. */
module Bytes {

  type byte = x: int | 0 <= x < 256
  type u16 = x: int | 0 <= x < 0x1_0000
  type u32 = x: int | 0 <= x < 0x1_0000_0000

  /** An IPv4 address as its four octets on the wire. */
  type Ip4 = a: seq<byte> | |a| == 4 witness [0, 0, 0, 0]

  datatype Option<+T> = None | Some(value: T)

  /** The 16-bit field at offset `i`, network order. */
  function ReadU16(b: seq<byte>, i: nat): u16
    requires i + 2 <= |b|
  {
    (b[i] as int) * 256 + b[i + 1] as int
  }

  /** A 16-bit field as it goes on the wire, network order. */
  function PutU16(x: u16): (b: seq<byte>)
    ensures |b| == 2 && ReadU16(b, 0) == x
  {
    [x / 256, x % 256]
  }

  /** The four octets at offset `i`. */
  function ReadIp4(b: seq<byte>, i: nat): Ip4
    requires i + 4 <= |b|
  {
    b[i..i + 4]
  }

  // ----- order-preserving selection ------------------------------------------

  /** The elements of `s` that satisfy `keep`, in their original order. */
  function Filter<T>(s: seq<T>, keep: T -> bool): seq<T>
  {
    if s == [] then []
    else Filter(s[..|s| - 1], keep) + (if keep(s[|s| - 1]) then [s[|s| - 1]] else [])
  }

  /** `a` can be obtained from `b` by deleting elements, without reordering. */
  ghost predicate IsSubsequence<T>(a: seq<T>, b: seq<T>)
  {
    if a == [] then true
    else if b == [] then false
    else if a[|a| - 1] == b[|b| - 1] && IsSubsequence(a[..|a| - 1], b[..|b| - 1]) then true
    else IsSubsequence(a, b[..|b| - 1])
  }

  lemma FilterSnoc<T>(s: seq<T>, x: T, keep: T -> bool)
    ensures Filter(s + [x], keep) == Filter(s, keep) + (if keep(x) then [x] else [])
  {
    assert (s + [x])[..|s|] == s;
  }

  lemma {:induction false} FilterKeeps<T>(s: seq<T>, keep: T -> bool)
    ensures forall x :: x in Filter(s, keep) <==> x in s && keep(x)
  {
    if s != [] {
      FilterKeeps(s[..|s| - 1], keep);
      assert s == s[..|s| - 1] + [s[|s| - 1]];
    }
  }

  lemma {:induction false} FilterCat<T>(s: seq<T>, t: seq<T>, keep: T -> bool)
    ensures Filter(s + t, keep) == Filter(s, keep) + Filter(t, keep)
  {
    if t == [] {
      assert s + t == s;
    } else {
      var n := |t| - 1;
      FilterCat(s, t[..n], keep);
      assert (s + t)[..|s| + n] == s + t[..n];
    }
  }

  lemma {:induction false} FilterCount<T>(s: seq<T>, keep: T -> bool, x: T)
    requires keep(x)
    ensures multiset(Filter(s, keep))[x] == multiset(s)[x]
  {
    if s != [] {
      FilterCount(s[..|s| - 1], keep, x);
      assert s == s[..|s| - 1] + [s[|s| - 1]];
    }
  }

  /** Selecting with a weaker condition first changes nothing. */
  lemma {:induction false} FilterFilter<T>(s: seq<T>, outer: T -> bool, inner: T -> bool)
    requires forall x :: x in s && inner(x) ==> outer(x)
    ensures Filter(Filter(s, outer), inner) == Filter(s, inner)
  {
    if s != [] {
      var n := |s| - 1;
      FilterFilter(s[..n], outer, inner);
      FilterSnoc(Filter(s[..n], outer), s[n], inner);
      assert Filter(s[..n], outer) + [] == Filter(s[..n], outer);
    }
  }

  lemma {:induction false} FilterEmpty<T>(s: seq<T>, keep: T -> bool)
    requires forall x :: x in s ==> !keep(x)
    ensures Filter(s, keep) == []
  {
    if s != [] {
      FilterEmpty(s[..|s| - 1], keep);
    }
  }

  lemma {:induction false} SubsequenceDropLast<T>(a: seq<T>, b: seq<T>)
    requires a != [] && IsSubsequence(a, b)
    ensures IsSubsequence(a[..|a| - 1], b)
  {
    var n := |b| - 1;
    if !(a[|a| - 1] == b[n] && IsSubsequence(a[..|a| - 1], b[..n])) {
      SubsequenceDropLast(a, b[..n]);
    }
    SubsequenceSkip(a[..|a| - 1], b[..n], b[n]);
    assert b == b[..n] + [b[n]];
  }

  /** Appending an element that is not taken keeps a subsequence. */
  lemma SubsequenceSkip<T>(a: seq<T>, b: seq<T>, x: T)
    requires IsSubsequence(a, b)
    ensures IsSubsequence(a, b + [x])
  {
    assert (b + [x])[..|b|] == b;
  }

  /** Appending the same element to both sides keeps a subsequence. */
  lemma SubsequenceTake<T>(a: seq<T>, b: seq<T>, x: T)
    requires IsSubsequence(a, b)
    ensures IsSubsequence(a + [x], b + [x])
  {
    assert (b + [x])[..|b|] == b && (a + [x])[..|a|] == a;
  }

  lemma {:induction false} SubsequencePrefix<T>(a: seq<T>, tail: seq<T>, b: seq<T>)
    requires IsSubsequence(a + tail, b)
    ensures IsSubsequence(a, b)
    decreases |tail|
  {
    if tail == [] {
      assert a + tail == a;
    } else {
      SubsequenceDropLast(a + tail, b);
      assert (a + tail)[..|a + tail| - 1] == a + tail[..|tail| - 1];
      SubsequencePrefix(a, tail[..|tail| - 1], b);
    }
  }

  /** Selecting on both sides keeps a subsequence. */
  lemma {:induction false} SubsequenceFilter<T>(a: seq<T>, b: seq<T>, keep: T -> bool)
    requires IsSubsequence(a, b)
    ensures IsSubsequence(Filter(a, keep), Filter(b, keep))
  {
    if a != [] {
      var m, n := |a| - 1, |b| - 1;
      assert b == b[..n] + [b[n]];
      FilterSnoc(b[..n], b[n], keep);
      if a[m] == b[n] && IsSubsequence(a[..m], b[..n]) {
        SubsequenceFilter(a[..m], b[..n], keep);
        if keep(a[m]) {
          SubsequenceTake(Filter(a[..m], keep), Filter(b[..n], keep), a[m]);
        } else {
          assert Filter(a, keep) == Filter(a[..m], keep) && Filter(b, keep) == Filter(b[..n], keep);
        }
      } else {
        SubsequenceFilter(a, b[..n], keep);
        if keep(b[n]) {
          SubsequenceSkip(Filter(a, keep), Filter(b[..n], keep), b[n]);
        } else {
          assert Filter(b, keep) == Filter(b[..n], keep);
        }
      }
    }
  }

  lemma {:induction false} SubsequenceMembers<T>(a: seq<T>, b: seq<T>)
    requires IsSubsequence(a, b)
    ensures forall x :: x in a ==> x in b
  {
    if a != [] {
      var m, n := |a| - 1, |b| - 1;
      assert a == a[..m] + [a[m]] && b == b[..n] + [b[n]];
      if a[m] == b[n] && IsSubsequence(a[..m], b[..n]) {
        SubsequenceMembers(a[..m], b[..n]);
      } else {
        SubsequenceMembers(a, b[..n]);
      }
    }
  }
}
