/**
 The rows of `secret_versions` that belong to one secret: version number to row.
 Every statement of the repository filters on one secret_id, so this is the
 whole state a rotation or a rollback can touch.
 */
module VersionRows {

  /** `payload` is the encrypted value with its nonce; `current` is the is_current flag. */
  datatype Row<V> = Row(payload: V, current: bool)

  type Rows<V> = map<nat, Row<V>>

  /** The version numbers are exactly 1..n. */
  ghost predicate Numbered<V>(rows: Rows<V>) {
    forall v: nat :: v in rows <==> 1 <= v <= |rows|
  }

  function Currents<V>(rows: Rows<V>): set<nat> {
    set v | v in rows && rows[v].current
  }

  ghost predicate ExactlyOneCurrent<V>(rows: Rows<V>) {
    exists v :: Currents(rows) == {v}
  }

  lemma MaxExists(s: set<nat>)
    requires s != {}
    ensures exists m :: m in s && forall v | v in s :: v <= m
  {
    var x :| x in s;
    if s == {x} {
    } else {
      var rest := s - {x};
      assert s == rest + {x};
      MaxExists(rest);
      var m :| m in rest && forall v | v in rest :: v <= m;
      var top := if m < x then x else m;
      forall v | v in s ensures v <= top { assert v == x || v in rest; }
      assert top in s;
    }
  }

  /** COALESCE(MAX(version), 0) */
  function MaxVersion(s: set<nat>): (m: nat)
    ensures s == {} ==> m == 0
    ensures s != {} ==> m in s
    ensures forall v | v in s :: v <= m
  {
    if s == {} then 0
    else
      MaxExists(s);
      var m :| m in s && forall v | v in s :: v <= m;
      m
  }

  lemma MaxOfNumbered<V>(rows: Rows<V>)
    requires Numbered(rows)
    ensures MaxVersion(rows.Keys) == |rows|
  {
    if rows != map[] {
      assert |rows| in rows;
    }
  }

  /** is_current = FALSE on the given rows */
  function ClearRows<V>(rows: Rows<V>, cleared: set<nat>): (r: Rows<V>)
    ensures r.Keys == rows.Keys && |r| == |rows|
  {
    var r := map v | v in rows :: if v in cleared then rows[v].(current := false) else rows[v];
    assert r.Keys == rows.Keys;
    r
  }

  /** is_current = (version = target) on the given rows */
  function RewriteRows<V>(rows: Rows<V>, written: set<nat>, target: nat): (r: Rows<V>)
    ensures r.Keys == rows.Keys && |r| == |rows|
  {
    var r := map v | v in rows :: if v in written then rows[v].(current := v == target) else rows[v];
    assert r.Keys == rows.Keys;
    r
  }

  /** What a rotation means when nothing runs beside it. */
  function Rotated<V>(rows: Rows<V>, payload: V): Rows<V> {
    ClearRows(rows, Currents(rows))[MaxVersion(rows.Keys) + 1 := Row(payload, true)]
  }

  /** What a rollback means when nothing runs beside it. */
  function RolledBack<V>(rows: Rows<V>, target: nat): Rows<V> {
    RewriteRows(rows, rows.Keys, target)
  }

  /** The payloads in version order. */
  ghost function History<V>(rows: Rows<V>): (h: seq<V>)
    requires Numbered(rows)
    ensures |h| == |rows|
    ensures forall v: nat | v in rows :: h[v - 1] == rows[v].payload
  {
    seq(|rows|, i requires 0 <= i < |rows| => rows[i + 1].payload)
  }

  /** Adding a current version n+1 to numbered rows. */
  lemma Appended<V>(rows: Rows<V>, payload: V)
    requires Numbered(rows)
    ensures var after := rows[|rows| + 1 := Row(payload, true)];
            Numbered(after) && |after| == |rows| + 1
            && History(after) == History(rows) + [payload]
            && Currents(after) == Currents(rows) + {|rows| + 1}
  {
    var n := |rows| + 1;
    var after := rows[n := Row(payload, true)];
    assert n !in rows;
    assert |after| == n;
    assert Currents(after) == Currents(rows) + {n};
    assert History(after) == History(rows) + [payload] by {
      forall i | 0 <= i < n ensures History(after)[i] == (History(rows) + [payload])[i] {
        assert i + 1 in after;
        if i + 1 < n {
          assert i + 1 in rows;
        }
      }
    }
  }

  /** Writing flags touches no payload and no version number. */
  lemma FlagsOnly<V>(rows: Rows<V>, after: Rows<V>)
    requires Numbered(rows) && after.Keys == rows.Keys && |after| == |rows|
    requires forall v | v in rows :: after[v].payload == rows[v].payload
    ensures Numbered(after) && History(after) == History(rows)
  {
    forall i | 0 <= i < |rows| ensures History(after)[i] == History(rows)[i] {
      assert i + 1 in rows;
    }
  }

  /** Clearing some current flags and appending a current version. */
  lemma ClearedAndAppended<V>(rows: Rows<V>, cleared: set<nat>, payload: V)
    requires Numbered(rows)
    ensures var after := ClearRows(rows, cleared)[|rows| + 1 := Row(payload, true)];
            Numbered(after) && |after| == |rows| + 1
            && History(after) == History(rows) + [payload]
            && Currents(after) == Currents(rows) - cleared + {|rows| + 1}
  {
    var down := ClearRows(rows, cleared);
    FlagsOnly(rows, down);
    ClearedFlags(rows, cleared);
    Appended(down, payload);
  }

  lemma ClearedFlags<V>(rows: Rows<V>, cleared: set<nat>)
    ensures Currents(ClearRows(rows, cleared)) == Currents(rows) - cleared
  {
  }

  /** Rewriting the flags of the versions 1..seen. */
  lemma RewrittenUpTo<V>(rows: Rows<V>, written: set<nat>, target: nat, seen: nat)
    requires Numbered(rows) && target in written && seen <= |rows|
    requires forall v: nat :: v in written <==> 1 <= v <= seen
    ensures var after := RewriteRows(rows, written, target);
            Numbered(after) && History(after) == History(rows)
            && Currents(after) == (set v | v in Currents(rows) && v > seen) + {target}
  {
    FlagsOnly(rows, RewriteRows(rows, written, target));
    RewrittenFlags(rows, written, target, seen);
  }

  lemma RewrittenFlags<V>(rows: Rows<V>, written: set<nat>, target: nat, seen: nat)
    requires target in written && written <= rows.Keys
    requires forall v | v in rows :: v in written <==> v <= seen
    ensures Currents(RewriteRows(rows, written, target)) == (set v | v in Currents(rows) && v > seen) + {target}
  {
  }

  lemma RotatedIs<V>(rows: Rows<V>, payload: V)
    requires Numbered(rows)
    ensures Rotated(rows, payload) == ClearRows(rows, Currents(rows))[|rows| + 1 := Row(payload, true)]
  {
    MaxOfNumbered(rows);
  }

  /** A rotation appends its payload as version n+1, which becomes the only current one. */
  lemma RotatedMeaning<V>(rows: Rows<V>, payload: V)
    requires Numbered(rows)
    ensures var after := Rotated(rows, payload);
            Numbered(after) && |after| == |rows| + 1
            && History(after) == History(rows) + [payload]
            && Currents(after) == {|rows| + 1}
  {
    RotatedIs(rows, payload);
    ClearedAndAppended(rows, Currents(rows), payload);
    assert Currents(rows) - Currents(rows) == {};
  }

  /** A rollback keeps every payload and moves the flag to the target. */
  lemma RolledBackMeaning<V>(rows: Rows<V>, target: nat)
    requires Numbered(rows) && target in rows
    ensures Numbered(RolledBack(rows, target))
    ensures History(RolledBack(rows, target)) == History(rows)
    ensures Currents(RolledBack(rows, target)) == {target}
  {
    FlagsOnly(rows, RolledBack(rows, target));
    assert target in Currents(RolledBack(rows, target));
  }

  lemma TheCurrent<V>(rows: Rows<V>, n: nat)
    requires n in Currents(rows)
    ensures ExactlyOneCurrent(rows) <==> Currents(rows) <= {n}
  {
    if Currents(rows) <= {n} {
      assert Currents(rows) == {n};
    }
  }

  lemma OnlyAdded(s: set<nat>, removed: set<nat>, n: nat)
    requires n !in s
    ensures s - removed + {n} <= {n} <==> s <= removed
  {
    if s - removed + {n} <= {n} {
      forall v | v in s ensures v in removed {
        assert v !in removed ==> v in s - removed + {n};
      }
    }
  }

  lemma AppendedExactlyOne<V>(rows: Rows<V>, cleared: set<nat>, payload: V)
    requires Numbered(rows) && cleared <= Currents(rows)
    ensures var after := ClearRows(rows, cleared)[|rows| + 1 := Row(payload, true)];
            ExactlyOneCurrent(after) <==> Currents(rows) <= cleared
  {
    var n := |rows| + 1;
    ClearedAndAppended(rows, cleared, payload);
    TheCurrent(ClearRows(rows, cleared)[n := Row(payload, true)], n);
    assert n !in Currents(rows);
    OnlyAdded(Currents(rows), cleared, n);
  }

  /** Clearing and appending is the whole rotation exactly when every flag was cleared. */
  lemma AppendedIsRotated<V>(rows: Rows<V>, cleared: set<nat>, payload: V)
    requires Numbered(rows) && cleared <= Currents(rows)
    ensures var after := ClearRows(rows, cleared)[|rows| + 1 := Row(payload, true)];
            && (after == Rotated(rows, payload) <==> Currents(rows) <= cleared)
            && (ExactlyOneCurrent(after) <==> Currents(rows) <= cleared)
  {
    RotatedIs(rows, payload);
    AppendedExactlyOne(rows, cleared, payload);
    AppendedExactlyOne(rows, Currents(rows), payload);
    assert Currents(rows) <= cleared ==> cleared == Currents(rows);
  }

  /** Rewriting the first `seen` rows is the whole rollback exactly when no later row is current. */
  lemma RewrittenIsRolledBack<V>(rows: Rows<V>, written: set<nat>, target: nat, seen: nat)
    requires Numbered(rows) && target in written && seen <= |rows|
    requires forall v: nat :: v in written <==> 1 <= v <= seen
    ensures var after := RewriteRows(rows, written, target);
            && (after == RolledBack(rows, target) <==> forall v | v in Currents(rows) :: v <= seen)
            && (ExactlyOneCurrent(after) <==> forall v | v in Currents(rows) :: v <= seen)
  {
    var after := RewriteRows(rows, written, target);
    RewrittenUpTo(rows, written, target, seen);
    RolledBackMeaning(rows, target);
    TheCurrent(after, target);
    if forall v | v in Currents(rows) :: v <= seen {
      SameRollback(rows, written, target, seen);
    } else {
      var v :| v in Currents(rows) && v > seen;
      assert v in Currents(after) && v != target;
    }
  }

  lemma SameRollback<V>(rows: Rows<V>, written: set<nat>, target: nat, seen: nat)
    requires Numbered(rows) && target in written
    requires forall v: nat :: v in written <==> 1 <= v <= seen
    requires forall v | v in Currents(rows) :: v <= seen
    ensures RewriteRows(rows, written, target) == RolledBack(rows, target)
  {
    forall v | v in rows ensures RewriteRows(rows, written, target)[v] == RolledBack(rows, target)[v] {
      assert v !in written ==> v !in Currents(rows);
    }
  }
}
