/** Sorting the file list: bubble passes until nothing moves. */
module NameSort {
  import opened Bytes

  type Name = seq<Byte>

  // ---- the order ---------------------------------------------------------------------

  /** ASCII upper case, byte by byte. */
  function UpperByte(b: Byte): Byte { if 'a' as int <= b <= 'z' as int then b - 32 else b }

  function Upper(s: Name): (u: Name)
    ensures |u| == |s|
  {
    seq<Byte>(|s|, i requires 0 <= i < |s| => UpperByte(s[i]))
  }

  /** Byte-wise comparison of names without NUL bytes: a proper prefix comes first. */
  function Compare(s: Name, t: Name): int {
    if s == [] && t == [] then 0
    else if s == [] then -1
    else if t == [] then 1
    else if s[0] != t[0] then s[0] as int - t[0] as int
    else Compare(s[1..], t[1..])
  }

  predicate Above(s: Name, t: Name) { Compare(Upper(s), Upper(t)) > 0 }

  lemma {:induction false} CompareIsOrder(s: Name, t: Name)
    ensures Compare(s, t) > 0 <==> Compare(t, s) < 0
    ensures Compare(s, t) == 0 <==> s == t
    decreases |s|
  {
    if s != [] && t != [] && s[0] == t[0] {
      CompareIsOrder(s[1..], t[1..]);
      assert s == [s[0]] + s[1..] && t == [t[0]] + t[1..];
    }
  }

  /** s comes before t: at the first difference it has ended or has the smaller byte. */
  ghost predicate Before(s: Name, t: Name) {
    exists k :: FirstDifference(s, t, k)
  }

  predicate FirstDifference(s: Name, t: Name, k: nat) {
    k <= |s| && k < |t| && s[..k] == t[..k] && (k == |s| || s[k] < t[k])
  }

  lemma {:induction false} CompareAtDifference(s: Name, t: Name, k: nat)
    requires FirstDifference(s, t, k)
    ensures Compare(s, t) < 0
    decreases k
  {
    if k > 0 {
      assert s[0] == s[..k][0] == t[..k][0] == t[0];
      assert s[1..][..k - 1] == s[..k][1..] && t[1..][..k - 1] == t[..k][1..];
      CompareAtDifference(s[1..], t[1..], k - 1);
    }
  }

  /** The comparison is negative exactly when its first name comes before the second. */
  lemma {:induction false} CompareIsBefore(s: Name, t: Name)
    ensures Compare(s, t) < 0 <==> Before(s, t)
    decreases |s|
  {
    if k: nat :| FirstDifference(s, t, k) { CompareAtDifference(s, t, k); }
    if Compare(s, t) < 0 {
      if s == [] || s[0] != t[0] {
        assert FirstDifference(s, t, 0);
      } else {
        CompareIsBefore(s[1..], t[1..]);
        var j: nat :| FirstDifference(s[1..], t[1..], j);
        assert s[..j + 1] == [s[0]] + s[1..][..j] && t[..j + 1] == [t[0]] + t[1..][..j];
        assert FirstDifference(s, t, j + 1);
      }
    }
  }

  /** Only the 26 small letters change, each by 20h. */
  lemma {:induction false} UpperCaseLetters(b: Byte)
    ensures UpperByte(b) == if 0x61 <= b <= 0x7A then b - 0x20 else b
  {
  }

  lemma {:induction false} CompareTransitive(s: Name, t: Name, u: Name)
    requires Compare(s, t) <= 0 && Compare(t, u) <= 0
    ensures Compare(s, u) <= 0
    decreases |s|
  {
    if s != [] && t != [] && u != [] && s[0] == t[0] == u[0] {
      CompareTransitive(s[1..], t[1..], u[1..]);
    }
  }

  /** Neighbours in order make the whole list sorted. */
  lemma {:induction false} AdjacentSuffices(s: seq<Name>, i: nat, j: nat)
    requires i < j < |s| && forall k :: 0 <= k < |s| - 1 ==> !Above(s[k], s[k + 1])
    ensures !Above(s[i], s[j])
    decreases j
  {
    hide Upper, Compare;
    assert !Above(s[j - 1], s[j - 1 + 1]);
    if i < j - 1 {
      AdjacentSuffices(s, i, j - 1);
      CompareTransitive(Upper(s[i]), Upper(s[j - 1]), Upper(s[j]));
    }
  }

  // ---- exchanging neighbours -----------------------------------------------------------

  function Swapped(s: seq<Name>, i: nat): (t: seq<Name>)
    requires i + 1 < |s|
    ensures |t| == |s|
  {
    s[i := s[i + 1]][i + 1 := s[i]]
  }

  /** The names that read as key in upper case, in the order they stand. */
  function WithKey(s: seq<Name>, key: Name): seq<Name> {
    if s == [] then [] else (if Upper(s[0]) == key then [s[0]] else []) + WithKey(s[1..], key)
  }

  /** How many names of s sort strictly below x. */
  function Below(s: seq<Name>, x: Name): nat {
    if s == [] then 0 else (if Above(x, s[0]) then 1 else 0) + Below(s[1..], x)
  }

  /** Pairs standing in the wrong order. */
  function Inversions(s: seq<Name>): nat {
    if s == [] then 0 else Below(s[1..], s[0]) + Inversions(s[1..])
  }

  lemma {:induction false} SwappedTail(s: seq<Name>, i: nat)
    requires i + 1 < |s|
    ensures i > 0 ==> Swapped(s, i)[0] == s[0] && Swapped(s, i)[1..] == Swapped(s[1..], i - 1)
    ensures i == 0 ==> Swapped(s, i) == [s[1], s[0]] + s[2..]
  {
  }

  lemma {:induction false} SwapKeepsKeys(s: seq<Name>, i: nat, key: Name)
    requires i + 1 < |s| && Upper(s[i]) != Upper(s[i + 1])
    ensures WithKey(Swapped(s, i), key) == WithKey(s, key)
    decreases i
  {
    hide Upper;
    SwappedTail(s, i);
    if i > 0 {
      SwapKeepsKeys(s[1..], i - 1, key);
    } else {
      var t := Swapped(s, 0);
      assert t[1..] == [s[0]] + s[2..] && t[1..][1..] == s[2..] && s[1..][1..] == s[2..];
      assert WithKey(s, key) == (if Upper(s[0]) == key then [s[0]] else []) + WithKey(s[1..], key);
      assert WithKey(t, key) == (if Upper(s[1]) == key then [s[1]] else []) + WithKey(t[1..], key);
    }
  }

  lemma {:induction false} SwapKeepsBelow(s: seq<Name>, i: nat, x: Name)
    requires i + 1 < |s|
    ensures Below(Swapped(s, i), x) == Below(s, x)
    decreases i
  {
    hide Above;
    SwappedTail(s, i);
    if i > 0 {
      SwapKeepsBelow(s[1..], i - 1, x);
    } else {
      var t := Swapped(s, 0);
      assert t[1..] == [s[0]] + s[2..] && t[1..][1..] == s[2..] && s[1..][1..] == s[2..];
    }
  }

  /** Exchanging two neighbours in the wrong order removes exactly one inversion. */
  lemma {:induction false} SwapRemovesInversion(s: seq<Name>, i: nat)
    requires i + 1 < |s| && Above(s[i], s[i + 1])
    ensures Inversions(Swapped(s, i)) == Inversions(s) - 1
    decreases i
  {
    SwappedTail(s, i);
    CompareIsOrder(Upper(s[i]), Upper(s[i + 1]));
    assert !Above(s[i + 1], s[i]);
    hide Above;
    if i > 0 {
      SwapRemovesInversion(s[1..], i - 1);
      SwapKeepsBelow(s[1..], i - 1, s[0]);
    } else {
      var t := Swapped(s, 0);
      assert t[1..] == [s[0]] + s[2..] && t[1..][1..] == s[2..] && s[1..][1..] == s[2..];
    }
  }

  // ---- the sort ------------------------------------------------------------------------

  /**
   * Same names, sorted by upper-cased name, and names that compare equal keep their order.
   * It ends because every exchange removes an inversion.
   */
  method SortList(fileList: array<Name>, count: nat)
    requires count <= fileList.Length
    modifies fileList
    ensures forall i, j :: 0 <= i < j < count ==> !Before(Upper(fileList[j]), Upper(fileList[i]))
    ensures forall key :: WithKey(fileList[..count], key) == old(WithKey(fileList[..count], key))
    ensures multiset(fileList[..count]) == old(multiset(fileList[..count]))
    ensures fileList[count..] == old(fileList[count..])
  {
    var swapped := true;
    while swapped
      invariant !swapped ==> forall k :: 0 <= k < count - 1 ==> !Above(fileList[..count][k], fileList[..count][k + 1])
      invariant forall key :: WithKey(fileList[..count], key) == old(WithKey(fileList[..count], key))
      invariant multiset(fileList[..count]) == old(multiset(fileList[..count]))
      invariant fileList[count..] == old(fileList[count..])
      decreases Inversions(fileList[..count]), swapped
    {
      swapped := Pass(fileList, count);
    }
    forall i, j | 0 <= i < j < count ensures !Before(Upper(fileList[j]), Upper(fileList[i])) {
      AdjacentSuffices(fileList[..count], i, j);
      CompareIsOrder(Upper(fileList[i]), Upper(fileList[j]));
      CompareIsBefore(Upper(fileList[j]), Upper(fileList[i]));
    }
  }

  /** One pass over the list. */
  method Pass(fileList: array<Name>, count: nat) returns (swapped: bool)
    requires count <= fileList.Length
    modifies fileList
    ensures swapped ==> Inversions(fileList[..count]) < old(Inversions(fileList[..count]))
    ensures !swapped ==> fileList[..count] == old(fileList[..count])
    ensures !swapped ==> forall k :: 0 <= k < count - 1 ==> !Above(fileList[..count][k], fileList[..count][k + 1])
    ensures forall key :: WithKey(fileList[..count], key) == old(WithKey(fileList[..count], key))
    ensures multiset(fileList[..count]) == old(multiset(fileList[..count]))
    ensures fileList[count..] == old(fileList[count..])
  {
    hide Upper, Inversions, WithKey;
    swapped := false;
    var i := 0;
    while i < count - 1
      invariant 0 <= i && (count > 0 ==> i <= count - 1)
      invariant swapped ==> Inversions(fileList[..count]) < old(Inversions(fileList[..count]))
      invariant !swapped ==> fileList[..count] == old(fileList[..count])
      invariant !swapped ==> forall k :: 0 <= k < i && k + 1 < count ==>
                  !Above(fileList[..count][k], fileList[..count][k + 1])
      invariant forall key :: WithKey(fileList[..count], key) == old(WithKey(fileList[..count], key))
      invariant multiset(fileList[..count]) == old(multiset(fileList[..count]))
      invariant fileList[count..] == old(fileList[count..])
    {
      var name1 := Upper(fileList[i]);
      var name2 := Upper(fileList[i + 1]);
      if Compare(name1, name2) > 0 {
        Exchange(fileList, count, i);
        swapped := true;
      }
      i := i + 1;
    }
  }

  method Exchange(fileList: array<Name>, count: nat, i: nat)
    requires i + 1 < count <= fileList.Length && Above(fileList[i], fileList[i + 1])
    modifies fileList
    ensures fileList[..count] == Swapped(old(fileList[..count]), i)
    ensures fileList[count..] == old(fileList[count..])
    ensures Inversions(fileList[..count]) < old(Inversions(fileList[..count]))
    ensures forall key :: WithKey(fileList[..count], key) == old(WithKey(fileList[..count], key))
    ensures multiset(fileList[..count]) == old(multiset(fileList[..count]))
  {
    ghost var s := fileList[..count];
    var temp := fileList[i];
    fileList[i] := fileList[i + 1];
    fileList[i + 1] := temp;
    assert fileList[..count] == Swapped(s, i);
    SwapRemovesInversion(s, i);
    CompareIsOrder(Upper(s[i]), Upper(s[i + 1]));
    forall key ensures WithKey(Swapped(s, i), key) == WithKey(s, key) {
      SwapKeepsKeys(s, i, key);
    }
  }
}
