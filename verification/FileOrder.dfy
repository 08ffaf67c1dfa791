/** Migration file names and sort.Strings. */
module FileOrder {

  /** The comparison of sort.Strings. */
  predicate Less(a: string, b: string) {
    b != "" && (a == "" || a[0] < b[0] || (a[0] == b[0] && Less(a[1..], b[1..])))
  }

  /** The names agree up to i, where a ends or has the smaller character. */
  predicate SmallerAt(a: string, b: string, i: int) {
    0 <= i <= |a| && i < |b| && a[..i] == b[..i] && (i == |a| || a[i] < b[i])
  }

  /** a comes before b. */
  ghost predicate Before(a: string, b: string) {
    exists i :: SmallerAt(a, b, i)
  }

  /** The comparison that sorts is that order. */
  lemma {:induction false} LessIsBefore(a: string, b: string)
    ensures Less(a, b) <==> Before(a, b)
  {
    if b != "" && (a == "" || a[0] < b[0]) {
      assert SmallerAt(a, b, 0);
    } else if a != "" && b != "" && a[0] == b[0] {
      LessIsBefore(a[1..], b[1..]);
      if i :| SmallerAt(a[1..], b[1..], i) {
        assert a[..i + 1] == [a[0]] + a[1..][..i] && b[..i + 1] == [b[0]] + b[1..][..i];
        assert SmallerAt(a, b, i + 1);
      }
      if i :| SmallerAt(a, b, i) {
        assert i > 0 && a[1..][..i - 1] == a[..i][1..] && b[1..][..i - 1] == b[..i][1..];
        assert SmallerAt(a[1..], b[1..], i - 1);
      }
    } else {
      forall i ensures !SmallerAt(a, b, i) {
        if 0 < i <= |a| && i < |b| {
          assert a[..i][0] == a[0] && b[..i][0] == b[0];
        }
      }
    }
  }

  lemma BeforeTransitive(a: string, b: string, c: string)
    requires Before(a, b) && Before(b, c)
    ensures Before(a, c)
  {
    var i :| SmallerAt(a, b, i);
    var j :| SmallerAt(b, c, j);
    var k := if i < j then i else j;
    assert a[..k] == a[..i][..k] && c[..k] == c[..j][..k] && b[..i][..k] == b[..j][..k];
    assert i < j ==> c[..j][i] == b[..j][i];
    assert j < i ==> a[..i][j] == b[..i][j];
    assert SmallerAt(a, c, k);
  }

  lemma BeforeIrreflexive(a: string)
    ensures !Before(a, a)
  {
  }

  lemma {:induction false} BeforeTotal(a: string, b: string)
    ensures Before(a, b) || a == b || Before(b, a)
  {
    LessIsBefore(a, b);
    LessIsBefore(b, a);
    if a != "" && b != "" && a[0] == b[0] {
      BeforeTotal(a[1..], b[1..]);
      LessIsBefore(a[1..], b[1..]);
      LessIsBefore(b[1..], a[1..]);
      assert a[1..] == b[1..] ==> a == [a[0]] + a[1..] == b;
    }
  }

  /** Strictly increasing: sorted, and no name twice. */
  ghost predicate Sorted(names: seq<string>) {
    forall i, j | 0 <= i < j < |names| :: Before(names[i], names[j])
  }

  function Insert(name: string, names: seq<string>): seq<string> {
    if names == [] || Less(name, names[0]) then [name] + names
    else [names[0]] + Insert(name, names[1..])
  }

  function SortNames(names: seq<string>): seq<string> {
    if names == [] then [] else Insert(names[0], SortNames(names[1..]))
  }

  ghost function Elements(names: seq<string>): set<string> {
    set n | n in names
  }

  ghost predicate Distinct(names: seq<string>) {
    forall i, j | 0 <= i < j < |names| :: names[i] != names[j]
  }

  lemma {:induction false} InsertSorted(name: string, names: seq<string>)
    requires Sorted(names) && name !in names
    ensures Sorted(Insert(name, names)) && Elements(Insert(name, names)) == {name} + Elements(names)
  {
    var r := Insert(name, names);
    if names != [] {
      LessIsBefore(name, names[0]);
    }
    if names == [] {
      assert r == [name];
    } else if Less(name, names[0]) {
      assert r == [name] + names;
      forall j | 0 <= j < |names| ensures Before(name, names[j]) {
        if j > 0 {
          BeforeTransitive(name, names[0], names[j]);
        }
      }
      assert Elements(r) == {name} + Elements(names);
    } else {
      var rest := names[1..];
      InsertSorted(name, rest);
      BeforeTotal(name, names[0]);
      var tail := Insert(name, rest);
      forall j | 0 <= j < |tail| ensures Before(names[0], tail[j]) {
        assert tail[j] in Elements(tail);
        if tail[j] != name {
          var k :| 0 <= k < |rest| && rest[k] == tail[j];
          assert names[k + 1] == tail[j];
        }
      }
      assert Elements(r) == {names[0]} + Elements(tail);
      assert Elements(names) == {names[0]} + Elements(rest);
    }
  }

  /** Sorting distinct names orders them strictly and neither loses nor adds one. */
  lemma {:induction false} SortedNames(names: seq<string>)
    requires Distinct(names)
    ensures Sorted(SortNames(names)) && Elements(SortNames(names)) == Elements(names)
  {
    if names != [] {
      var rest := names[1..];
      assert Distinct(rest);
      SortedNames(rest);
      forall k | 0 <= k < |rest| ensures rest[k] != names[0] {
        assert rest[k] == names[k + 1];
      }
      assert names[0] !in Elements(rest);
      assert names[0] !in SortNames(rest) by {
        assert names[0] in SortNames(rest) <==> names[0] in Elements(SortNames(rest));
      }
      InsertSorted(names[0], SortNames(rest));
      assert Elements(names) == {names[0]} + Elements(rest);
    }
  }

  /** A strictly increasing list is determined by its elements. */
  lemma {:induction false} SortedUnique(a: seq<string>, b: seq<string>)
    requires Sorted(a) && Sorted(b) && Elements(a) == Elements(b)
    ensures a == b
    decreases |a|
  {
    assert a != [] ==> a[0] in Elements(a);
    assert b != [] ==> b[0] in Elements(b);
    if a != [] && b != [] {
      HeadIsLeast(a, b);
      assert a[0] == b[0];
      TailElements(a);
      TailElements(b);
      SortedUnique(a[1..], b[1..]);
      assert a == [a[0]] + a[1..] && b == [b[0]] + b[1..];
    }
  }

  lemma TailElements(a: seq<string>)
    requires Sorted(a) && a != []
    ensures Sorted(a[1..]) && Elements(a[1..]) == Elements(a) - {a[0]}
  {
    BeforeIrreflexive(a[0]);
    assert Elements(a) == {a[0]} + Elements(a[1..]);
    forall k | 0 <= k < |a[1..]| ensures a[1..][k] != a[0] {
      assert Before(a[0], a[k + 1]);
    }
  }

  lemma HeadIsLeast(a: seq<string>, b: seq<string>)
    requires Sorted(a) && Sorted(b) && a != [] && b != [] && Elements(a) == Elements(b)
    ensures a[0] == b[0]
  {
    assert a[0] in Elements(b) && b[0] in Elements(a);
    var i :| 0 <= i < |b| && b[i] == a[0];
    var j :| 0 <= j < |a| && a[j] == b[0];
    if i > 0 && j > 0 {
      BeforeTransitive(a[0], a[j], a[0]);
      BeforeIrreflexive(a[0]);
    }
  }
}
