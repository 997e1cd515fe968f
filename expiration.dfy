/**
 * `get_and_save_earliest_expiring_contracts`: among rows expiring today or
 * later (ISO date texts compared as strings), take the smallest expiration
 * and keep every row with exactly that expiration, in frame order. Today's
 * `%Y-%m-%d` text is a parameter.
 */
module ExpirationFilter {
  import opened Common
  import opened Lexical
  import opened Records

  function Expiration(row: Row): string
  {
    row.contract.expiration
  }

  /** `df[df['expiration'] >= today]['expiration']`. */
  function FutureExpirations(rows: seq<Row>, today: string): seq<string>
  {
    if rows == [] then []
    else
      var last := rows[|rows| - 1];
      FutureExpirations(rows[..|rows| - 1], today) +
      if LexLe(today, Expiration(last)) then [Expiration(last)] else []
  }

  /** Python's `min` over a non-empty sequence of strings: the least one. */
  function MinText(s: seq<string>): (m: string)
    requires s != []
    ensures m in s
    ensures forall x | x in s :: LexLe(m, x)
  {
    if |s| == 1 then
      LexLeReflexive(s[0]);
      s[0]
    else
      var init, last := s[..|s| - 1], s[|s| - 1];
      assert s == init + [last];
      var best := MinText(init);
      if LexLt(last, best) then
        LexLtImpliesLe(last, best);
        assert forall x | x in init :: LexLe(last, x) by {
          forall x | x in init ensures LexLe(last, x) {
            LexLeTransitive(last, best, x);
          }
        }
        LexLeReflexive(last);
        last
      else
        best
  }

  /** `df[df['expiration'] == e]`: the rows with that expiration, in frame order. */
  function WithExpiration(rows: seq<Row>, e: string): seq<Row>
  {
    if rows == [] then []
    else
      var last := rows[|rows| - 1];
      WithExpiration(rows[..|rows| - 1], e) + if Expiration(last) == e then [last] else []
  }

  /** What the filter returns, or `NoFutureContracts` where `min` raises on an empty sequence. */
  function EarliestExpiringContracts(rows: seq<Row>, today: string): Result<seq<Row>>
  {
    if rows == [] then Success([])
    else
      var future := FutureExpirations(rows, today);
      if future == [] then Failure(NoFutureContracts)
      else Success(WithExpiration(rows, MinText(future)))
  }

  lemma {:induction false} FutureExpirationsMembership(rows: seq<Row>, today: string, e: string)
    ensures e in FutureExpirations(rows, today) <==>
      LexLe(today, e) && exists i | 0 <= i < |rows| :: Expiration(rows[i]) == e
  {
    if rows != [] {
      var init := rows[..|rows| - 1];
      FutureExpirationsMembership(init, today, e);
      if exists i | 0 <= i < |init| :: Expiration(init[i]) == e {
        var i :| 0 <= i < |init| && Expiration(init[i]) == e;
        assert rows[i] == init[i];
      }
      if LexLe(today, e) && exists i | 0 <= i < |rows| :: Expiration(rows[i]) == e {
        var i :| 0 <= i < |rows| && Expiration(rows[i]) == e;
        if i < |init| {
          assert init[i] == rows[i];
        }
      }
    }
  }

  /** The expiration the filter keeps: the least one on or after today. */
  function EarliestDate(rows: seq<Row>, today: string): string
    requires FutureExpirations(rows, today) != []
  {
    MinText(FutureExpirations(rows, today))
  }

  /**
   * The filter fails exactly when the frame is not empty and no row expires
   * on or after today; an empty frame gives an empty result.
   */
  lemma EarliestFailsIffNoFutureRow(rows: seq<Row>, today: string)
    ensures rows == [] ==> EarliestExpiringContracts(rows, today) == Success([])
    ensures EarliestExpiringContracts(rows, today).Failure? <==>
      rows != [] && forall i | 0 <= i < |rows| :: LexLt(Expiration(rows[i]), today)
    ensures EarliestExpiringContracts(rows, today).Failure? ==>
      EarliestExpiringContracts(rows, today).error == NoFutureContracts
  {
    var future := FutureExpirations(rows, today);
    if future != [] {
      FutureExpirationsMembership(rows, today, future[0]);
    } else {
      forall i | 0 <= i < |rows| ensures LexLt(Expiration(rows[i]), today) {
        FutureExpirationsMembership(rows, today, Expiration(rows[i]));
      }
    }
  }

  /**
   * The chosen date E is on or after today, is the expiration of some row,
   * and no row expires in [today, E).
   */
  lemma EarliestDateIsLeastFuture(rows: seq<Row>, today: string)
    requires FutureExpirations(rows, today) != []
    ensures LexLe(today, EarliestDate(rows, today))
    ensures exists i | 0 <= i < |rows| :: Expiration(rows[i]) == EarliestDate(rows, today)
    ensures forall i | 0 <= i < |rows| && LexLe(today, Expiration(rows[i])) ::
      LexLe(EarliestDate(rows, today), Expiration(rows[i]))
    ensures forall i | 0 <= i < |rows| ::
      !(LexLe(today, Expiration(rows[i])) && LexLt(Expiration(rows[i]), EarliestDate(rows, today)))
  {
    var e := EarliestDate(rows, today);
    FutureExpirationsMembership(rows, today, e);
    forall i | 0 <= i < |rows| && LexLe(today, Expiration(rows[i]))
      ensures LexLe(e, Expiration(rows[i]))
    {
      FutureExpirationsMembership(rows, today, Expiration(rows[i]));
    }
  }

  /** `a` is `b` with some elements left out, the rest in the same order. */
  ghost predicate IsSubsequence<T>(a: seq<T>, b: seq<T>)
  {
    if a == [] then true
    else if b == [] then false
    else (a[|a| - 1] == b[|b| - 1] && IsSubsequence(a[..|a| - 1], b[..|b| - 1])) ||
         IsSubsequence(a, b[..|b| - 1])
  }

  /**
   * The kept rows are exactly the rows with expiration `e`, each as often as
   * in the frame, in frame order: nothing else appears and nothing is lost.
   */
  lemma {:induction false} WithExpirationContents(rows: seq<Row>, e: string)
    ensures IsSubsequence(WithExpiration(rows, e), rows)
    ensures forall x :: multiset(WithExpiration(rows, e))[x] == if Expiration(x) == e then multiset(rows)[x] else 0
    ensures forall x :: x in WithExpiration(rows, e) <==> x in rows && Expiration(x) == e
  {
    WithExpirationOrder(rows, e);
    WithExpirationCounts(rows, e);
    forall x ensures x in WithExpiration(rows, e) <==> x in rows && Expiration(x) == e {
      assert x in WithExpiration(rows, e) <==> multiset(WithExpiration(rows, e))[x] > 0;
      assert x in rows <==> multiset(rows)[x] > 0;
    }
  }

  /** The selection keeps the frame's order. */
  lemma {:induction false} WithExpirationOrder(rows: seq<Row>, e: string)
    ensures IsSubsequence(WithExpiration(rows, e), rows)
  {
    if rows != [] {
      var init, last := rows[..|rows| - 1], rows[|rows| - 1];
      WithExpirationOrder(init, e);
      var kept := WithExpiration(init, e);
      if Expiration(last) == e {
        assert WithExpiration(rows, e)[..|WithExpiration(rows, e)| - 1] == kept;
      } else {
        assert WithExpiration(rows, e) == kept;
      }
    }
  }

  /** The selection holds each matching row as often as the frame does, and no other row. */
  lemma {:induction false} WithExpirationCounts(rows: seq<Row>, e: string)
    ensures forall x :: multiset(WithExpiration(rows, e))[x] == if Expiration(x) == e then multiset(rows)[x] else 0
  {
    if rows != [] {
      var init, last := rows[..|rows| - 1], rows[|rows| - 1];
      assert rows == init + [last];
      WithExpirationCounts(init, e);
    }
  }

  /**
   * When the filter succeeds on a non-empty frame it returns a non-empty,
   * order-preserving selection whose rows all expire on the earliest future
   * date, and every frame row with that date is kept.
   */
  lemma EarliestExpiringContents(rows: seq<Row>, today: string)
    requires EarliestExpiringContracts(rows, today).Success?
    requires rows != []
    ensures FutureExpirations(rows, today) != []
    ensures EarliestExpiringContracts(rows, today).value != []
    ensures IsSubsequence(EarliestExpiringContracts(rows, today).value, rows)
    ensures forall x :: x in EarliestExpiringContracts(rows, today).value <==>
      x in rows && Expiration(x) == EarliestDate(rows, today)
  {
    var e := EarliestDate(rows, today);
    WithExpirationContents(rows, e);
    EarliestDateIsLeastFuture(rows, today);
    var i :| 0 <= i < |rows| && Expiration(rows[i]) == e;
    assert rows[i] in WithExpiration(rows, e);
  }

  /** Appending a row keeps it in the selection exactly when it expires on the chosen date. */
  lemma WithExpirationSnoc(rows: seq<Row>, r: Row, e: string)
    ensures WithExpiration(rows + [r], e) == WithExpiration(rows, e) + if Expiration(r) == e then [r] else []
  {
    assert (rows + [r])[..|rows|] == rows;
  }

  /** The three dates of the scenario below, in Python's string order. */
  lemma ScenarioDates()
    ensures LexLe("2025-01-10", "2025-01-17") && LexLe("2025-01-10", "2025-02-21")
    ensures !LexLe("2025-02-21", "2025-01-17")
  {
    assert LexLe("2025-01-10", "2025-01-17");
    assert LexLe("2025-01-10", "2025-02-21");
  }

  /** Three rows none of which has expired give their three expirations, in order. */
  lemma FutureExpirationsOfThree(x: Row, y: Row, z: Row, today: string)
    requires LexLe(today, Expiration(x)) && LexLe(today, Expiration(y)) && LexLe(today, Expiration(z))
    ensures FutureExpirations([x, y, z], today) == [Expiration(x), Expiration(y), Expiration(z)]
  {
    assert FutureExpirations([x], today) == [Expiration(x)] by {
      assert [x][..0] == [];
    }
    assert FutureExpirations([x, y], today) == [Expiration(x), Expiration(y)] by {
      assert [x, y][..1] == [x];
    }
    assert [x, y, z][..2] == [x, y];
  }

  lemma ScenarioFutureExpirations(x: Row, y: Row, z: Row)
    requires Expiration(x) == "2025-01-17" && Expiration(y) == "2025-01-17"
    requires Expiration(z) == "2025-02-21"
    ensures FutureExpirations([x, y, z], "2025-01-10") == ["2025-01-17", "2025-01-17", "2025-02-21"]
  {
    ScenarioDates();
    FutureExpirationsOfThree(x, y, z, "2025-01-10");
  }

  lemma ScenarioSelection(x: Row, y: Row, z: Row)
    requires Expiration(x) == "2025-01-17" && Expiration(y) == "2025-01-17"
    requires Expiration(z) == "2025-02-21"
    ensures WithExpiration([x, y, z], "2025-01-17") == [x, y]
  {
    var e := "2025-01-17";
    WithExpirationSnoc([], x, e);
    assert [] + [x] == [x];
    WithExpirationSnoc([x], y, e);
    assert [x] + [y] == [x, y];
    WithExpirationSnoc([x, y], z, e);
    assert [x, y] + [z] == [x, y, z];
  }

  /**
   * Two rows expiring 2025-01-17 and one expiring 2025-02-21, filtered on
   * 2025-01-10: the two January rows come back, in their order.
   */
  lemma TwoEarliestOfThree(x: Row, y: Row, z: Row)
    requires Expiration(x) == "2025-01-17" && Expiration(y) == "2025-01-17"
    requires Expiration(z) == "2025-02-21"
    ensures EarliestExpiringContracts([x, y, z], "2025-01-10") == Success([x, y])
  {
    ScenarioFutureExpirations(x, y, z);
    ScenarioSelection(x, y, z);
    ScenarioDates();
    var m := MinText(["2025-01-17", "2025-01-17", "2025-02-21"]);
    assert m == "2025-01-17" by {
      assert LexLe(m, "2025-01-17");
    }
  }
}
