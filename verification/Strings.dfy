/** The order of strings, and sets of them listed in it. */
module Strings {
  predicate Less(a: string, b: string) {
    b != "" && (a == "" || a[0] < b[0] || (a[0] == b[0] && Less(a[1..], b[1..])))
  }

  /** Strings are compared at the first place where they differ, and a beginning comes before the whole. */
  lemma {:induction false} LessIs(a: string, b: string)
    ensures Less(a, b) <==> exists k :: 0 <= k <= |a| && FirstDifference(a, b, k)
  {
    if a == "" {
      assert b != "" ==> FirstDifference(a, b, 0);
    } else if b != "" && a[0] == b[0] {
      LessIs(a[1..], b[1..]);
      if k :| 0 <= k <= |a| && FirstDifference(a, b, k) {
        assert a[1..][..k - 1] == a[..k][1..] && b[1..][..k - 1] == b[..k][1..];
        assert FirstDifference(a[1..], b[1..], k - 1);
      }
      if k :| 0 <= k <= |a[1..]| && FirstDifference(a[1..], b[1..], k) {
        assert a[..k + 1] == [a[0]] + a[1..][..k] && b[..k + 1] == [b[0]] + b[1..][..k];
        assert FirstDifference(a, b, k + 1);
      }
    } else if b != "" {
      assert a[0] < b[0] ==> FirstDifference(a, b, 0);
      assert forall k :: 0 < k <= |a| && k <= |b| ==> a[..k][0] == a[0] && b[..k][0] == b[0];
    }
  }

  /** The strings agree on `k` characters, and then the first one has ended or has the smaller one. */
  predicate FirstDifference(a: string, b: string, k: nat)
    requires k <= |a|
  {
    k < |b| && a[..k] == b[..k] && (k == |a| || a[k] < b[k])
  }

  lemma LessIsTotal(a: string, b: string)
    ensures Less(a, b) || a == b || Less(b, a)
  {
    if a != "" && b != "" && a[0] == b[0] {
      LessIsTotal(a[1..], b[1..]);
      assert a == [a[0]] + a[1..] && b == [b[0]] + b[1..];
    }
  }

  lemma LessIsTransitive(a: string, b: string, c: string)
    requires Less(a, b) && Less(b, c)
    ensures Less(a, c)
  {
  }

  lemma LessIsStrict(a: string, b: string)
    ensures !(Less(a, b) && Less(b, a)) && !Less(a, a)
  {
  }

  predicate Ascending(names: seq<string>) {
    forall i, j :: 0 <= i < j < |names| ==> Less(names[i], names[j])
  }

  ghost predicate IsLeast(least: string, names: set<string>) {
    least in names && forall name <- names :: least == name || Less(least, name)
  }

  lemma {:induction false} LeastExists(names: set<string>) returns (least: string)
    requires names != {}
    ensures IsLeast(least, names)
  {
    var first :| first in names;
    var rest := names - {first};
    if rest == {} {
      assert names == {first};
      return first;
    }
    var other := LeastExists(rest);
    LessIsTotal(first, other);
    least := if Less(first, other) then first else other;
    forall name | name in names
      ensures least == name || Less(least, name)
    {
      if name != first && name != other && least == first {
        LessIsTransitive(first, other, name);
      }
    }
  }

  /** The names of a set in ascending order. */
  ghost function Sorted(names: set<string>): (sorted: seq<string>)
    ensures Ascending(sorted)
    ensures forall name :: name in sorted <==> name in names
  {
    if names == {} then []
    else
      var least := LeastOf(names);
      var rest := Sorted(names - {least});
      assert forall i :: 0 <= i < |rest| ==> rest[i] in rest;
      [least] + rest
  }

  ghost function LeastOf(names: set<string>): (least: string)
    requires names != {}
    ensures IsLeast(least, names)
  {
    assert exists least :: IsLeast(least, names) by {
      var least := LeastExists(names);
    }
    var least :| IsLeast(least, names);
    least
  }
}
