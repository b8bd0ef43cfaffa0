/** Removing what is blank at both ends of a sequence: Python's `strip`, over any notion of blank. */
module Trimming {

  function Strip<T>(s: seq<T>, blank: T -> bool): seq<T> {
    if s == [] then []
    else if blank(s[0]) then Strip(s[1..], blank)
    else if blank(s[|s| - 1]) then Strip(s[..|s| - 1], blank)
    else s
  }

  /** `s[i..j]` is `s` without what is blank at its ends. */
  ghost predicate Trims<T>(s: seq<T>, blank: T -> bool, i: nat, j: nat) {
    && i <= j <= |s|
    && (forall k :: 0 <= k < i ==> blank(s[k]))
    && (forall k :: j <= k < |s| ==> blank(s[k]))
    && (i < j ==> !blank(s[i]) && !blank(s[j - 1]))
  }

  lemma TrimsFront<T>(s: seq<T>, blank: T -> bool, i: nat, j: nat)
    requires s != [] && blank(s[0]) && Trims(s[1..], blank, i, j)
    ensures Trims(s, blank, i + 1, j + 1) && s[1..][i..j] == s[i + 1..j + 1]
  {
    assert forall n :: 0 < n < |s| ==> s[n] == s[1..][n - 1];
  }

  lemma TrimsBack<T>(s: seq<T>, blank: T -> bool, i: nat, j: nat)
    requires s != [] && blank(s[|s| - 1]) && Trims(s[..|s| - 1], blank, i, j)
    ensures Trims(s, blank, i, j) && s[..|s| - 1][i..j] == s[i..j]
  {
    assert forall n :: 0 <= n < |s| - 1 ==> s[n] == s[..|s| - 1][n];
  }

  /** Stripping keeps exactly what lies between the blanks at the two ends. */
  lemma {:induction false} StripTrims<T>(s: seq<T>, blank: T -> bool) returns (i: nat, j: nat)
    ensures Trims(s, blank, i, j) && Strip(s, blank) == s[i..j]
  {
    if s == [] {
      i, j := 0, 0;
    } else if blank(s[0]) {
      var k, l := StripTrims(s[1..], blank);
      TrimsFront(s, blank, k, l);
      i, j := k + 1, l + 1;
    } else if blank(s[|s| - 1]) {
      i, j := StripTrims(s[..|s| - 1], blank);
      TrimsBack(s, blank, i, j);
    } else {
      i, j := 0, |s|;
    }
  }

  /** There is only one way to trim. */
  lemma TrimsOnce<T>(s: seq<T>, blank: T -> bool, i: nat, j: nat, k: nat, l: nat)
    requires Trims(s, blank, i, j) && Trims(s, blank, k, l)
    ensures s[i..j] == s[k..l]
  {
    if i < j {
      TrimWithin(s, blank, i, j, k, l);
    }
    if k < l {
      TrimWithin(s, blank, k, l, i, j);
    }
  }

  lemma TrimWithin<T>(s: seq<T>, blank: T -> bool, i: nat, j: nat, k: nat, l: nat)
    requires Trims(s, blank, i, j) && Trims(s, blank, k, l) && i < j
    ensures k <= i && j <= l
  {
  }

  lemma StripIs<T>(s: seq<T>, blank: T -> bool, i: nat, j: nat)
    requires Trims(s, blank, i, j)
    ensures Strip(s, blank) == s[i..j]
  {
    var k, l := StripTrims(s, blank);
    TrimsOnce(s, blank, i, j, k, l);
  }
}
