/**
 * The order sort.Strings puts names in, and the sorted key listing both
 * commands build from a Go map: range over the keys, append each one to a
 * slice, then sort.Strings the slice.
 *
 * Go compares strings byte by byte; for UTF-8 text that is the order of the
 * code points, which is the order of Dafny's characters.
 */
module Sorting {

  /** Lexicographic "a sorts strictly before b". */
  predicate Less(a: string, b: string)
    decreases |a|
  {
    if |a| == 0 then |b| > 0
    else if |b| == 0 then false
    else if a[0] != b[0] then a[0] < b[0]
    else Less(a[1..], b[1..])
  }

  lemma {:induction false} LessIrreflexive(a: string)
    ensures !Less(a, a)
    decreases |a|
  {
    if |a| > 0 {
      LessIrreflexive(a[1..]);
    }
  }

  lemma {:induction false} LessTransitive(a: string, b: string, c: string)
    requires Less(a, b) && Less(b, c)
    ensures Less(a, c)
    decreases |a|
  {
    if |a| > 0 && a[0] == b[0] && b[0] == c[0] {
      LessTransitive(a[1..], b[1..], c[1..]);
    }
  }

  lemma {:induction false} LessTotal(a: string, b: string)
    ensures a == b || Less(a, b) || Less(b, a)
    decreases |a|
  {
    if |a| > 0 && |b| > 0 && a[0] == b[0] {
      LessTotal(a[1..], b[1..]);
      if a[1..] == b[1..] {
        assert a == [a[0]] + a[1..] && b == [b[0]] + b[1..];
      }
    }
  }

  /** Less is a strict total order. */
  lemma LessIsStrictTotalOrder()
    ensures forall a :: !Less(a, a)
    ensures forall a, b, c :: Less(a, b) && Less(b, c) ==> Less(a, c)
    ensures forall a, b :: a == b || Less(a, b) || Less(b, a)
  {
    forall a ensures !Less(a, a) { LessIrreflexive(a); }
    forall a, b, c | Less(a, b) && Less(b, c) ensures Less(a, c) { LessTransitive(a, b, c); }
    forall a, b ensures a == b || Less(a, b) || Less(b, a) { LessTotal(a, b); }
  }

  predicate StrictlySorted(s: seq<string>)
  {
    forall i, j :: 0 <= i < j < |s| ==> Less(s[i], s[j])
  }

  predicate Distinct(s: seq<string>)
  {
    forall i, j :: 0 <= i < j < |s| ==> s[i] != s[j]
  }

  function SetOf(s: seq<string>): set<string>
  {
    set x | x in s
  }

  /** Inserts a new name into a sorted list at its place. */
  function Insert(x: string, s: seq<string>): (r: seq<string>)
    requires StrictlySorted(s) && x !in s
    ensures StrictlySorted(r) && |r| == |s| + 1
    ensures SetOf(r) == SetOf(s) + {x}
  {
    LessIsStrictTotalOrder();
    if |s| == 0 then [x]
    else if Less(x, s[0]) then [x] + s
    else
      var t := Insert(x, s[1..]);
      assert SetOf(s) == {s[0]} + SetOf(s[1..]);
      assert Less(s[0], x);
      assert forall j :: 0 <= j < |t| ==> Less(s[0], t[j]) by {
        forall j | 0 <= j < |t| ensures Less(s[0], t[j]) {
          assert t[j] in SetOf(t);
          if t[j] != x {
            var k :| 0 <= k < |s[1..]| && s[1..][k] == t[j];
            assert s[k + 1] == t[j];
          }
        }
      }
      [s[0]] + t
  }

  lemma {:induction false} SortedIsDistinct(s: seq<string>)
    requires StrictlySorted(s)
    ensures Distinct(s) && |SetOf(s)| == |s|
  {
    LessIsStrictTotalOrder();
    if |s| > 0 {
      SortedIsDistinct(s[1..]);
      assert SetOf(s) == {s[0]} + SetOf(s[1..]);
      assert s[0] !in SetOf(s[1..]);
    }
  }

  /** Two sorted lists of the same names are the same list. */
  lemma {:induction false} SortedUnique(a: seq<string>, b: seq<string>)
    requires StrictlySorted(a) && StrictlySorted(b) && SetOf(a) == SetOf(b)
    ensures a == b
    decreases |a|
  {
    LessIsStrictTotalOrder();
    SortedIsDistinct(a);
    SortedIsDistinct(b);
    if |a| > 0 {
      assert a[0] in SetOf(b);
      assert |b| > 0;
      assert b[0] in SetOf(a);
      assert a[0] == b[0];
      assert SetOf(a[1..]) == SetOf(a) - {a[0]};
      assert SetOf(b[1..]) == SetOf(b) - {b[0]};
      SortedUnique(a[1..], b[1..]);
      assert a == [a[0]] + a[1..] && b == [b[0]] + b[1..];
    }
  }

  lemma {:induction false} SortedExists(keys: set<string>)
    ensures exists s :: StrictlySorted(s) && SetOf(s) == keys
    decreases |keys|
  {
    if keys == {} {
      assert StrictlySorted([]) && SetOf([]) == keys;
    } else {
      var k :| k in keys;
      SortedExists(keys - {k});
      var s :| StrictlySorted(s) && SetOf(s) == keys - {k};
      var r := Insert(k, s);
      assert StrictlySorted(r) && SetOf(r) == keys;
    }
  }

  /** In a strictly sorted list, the smaller of two members comes first. */
  lemma SortedPositions(s: seq<string>, a: string, b: string) returns (i: nat, j: nat)
    requires StrictlySorted(s) && a in s && b in s && Less(a, b)
    ensures i < j < |s| && s[i] == a && s[j] == b
  {
    i :| i < |s| && s[i] == a;
    j :| j < |s| && s[j] == b;
    LessIrreflexive(a);
    if j < i {
      assert Less(b, a);
      LessTransitive(a, b, a);
    }
  }

  /** The keys of a map in ascending order: the sortedNames slice. */
  ghost function SortedKeys(keys: set<string>): (s: seq<string>)
    ensures StrictlySorted(s) && SetOf(s) == keys && |s| == |keys|
  {
    SortedExists(keys);
    var s :| StrictlySorted(s) && SetOf(s) == keys;
    SortedIsDistinct(s);
    s
  }

  /** Collects a map's keys in iteration order, then sorts them. */
  method SortedNames(keys: set<string>) returns (names: seq<string>)
    ensures names == SortedKeys(keys)
  {
    var collected: seq<string> := [];
    var rest := keys;
    while rest != {}
      invariant rest <= keys
      invariant Distinct(collected)
      invariant SetOf(collected) == keys - rest
      decreases rest
    {
      var k :| k in rest;
      assert SetOf(collected + [k]) == SetOf(collected) + {k};
      collected := collected + [k];
      rest := rest - {k};
    }
    names := [];
    for i := 0 to |collected|
      invariant StrictlySorted(names)
      invariant SetOf(names) == SetOf(collected[..i])
    {
      assert collected[i] !in SetOf(collected[..i]);
      assert SetOf(collected[..i + 1]) == SetOf(collected[..i]) + {collected[i]};
      names := Insert(collected[i], names);
    }
    assert collected[..|collected|] == collected;
    SortedUnique(names, SortedKeys(keys));
  }
}
