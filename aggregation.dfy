/**
 * `get_and_save_aggregate_options_chain`: call both adapters, tag each row
 * with its provider, concatenate yfinance rows before Alpha Vantage rows,
 * round the four decimal columns, sort the frame in place by `contract_id`
 * and name the snapshot file after exchange, ticker and capture instant.
 * The capture instant arrives as its two `strftime` texts, and the float
 * rounding `round(2)` as the parameter `round`.
 */
module Aggregation {
  import opened Common
  import opened Lexical
  import opened Records
  import opened Yfinance
  import opened AlphaVantage

  /** The returned frame and the path it is written to. */
  datatype Snapshot = Snapshot(path: string, rows: seq<Row>)

  /** `df['source'] = name`: every row of one provider's frame gets that provider's tag. */
  function TagRows(contracts: seq<Contract>, source: Source): seq<Row>
  {
    seq(|contracts|, i requires 0 <= i < |contracts| => Row(contracts[i], source))
  }

  /** `pd.concat([yf_data, av_data])`. */
  function Combined(yf: seq<Contract>, av: seq<Contract>): seq<Row>
  {
    TagRows(yf, YFinance) + TagRows(av, AlphaVantage)
  }

  /** One row after `round(2)` on strike, implied_volatility, bid and ask. */
  function RoundRow(row: Row, round: real -> real): Row
  {
    var c := row.contract;
    row.(contract := c.(strike := round(c.strike), impliedVolatility := round(c.impliedVolatility),
                        bid := round(c.bid), ask := round(c.ask)))
  }

  function Rounded(rows: seq<Row>, round: real -> real): seq<Row>
  {
    seq(|rows|, i requires 0 <= i < |rows| => RoundRow(rows[i], round))
  }

  /** The rows the aggregate holds, before sorting. */
  function AggregateRows(yf: seq<Contract>, av: seq<Contract>, round: real -> real): seq<Row>
  {
    Rounded(Combined(yf, av), round)
  }

  /** `x` sorts no later than `y` by `contract_id`. */
  predicate IdLe(x: Row, y: Row)
  {
    LexLe(x.contract.contractId, y.contract.contractId)
  }

  /** Ascending by `contract_id`. */
  predicate SortedById(rows: seq<Row>)
  {
    forall i, j | 0 <= i < j < |rows| :: IdLe(rows[i], rows[j])
  }

  /** `f"{exchange}_{ticker}_options_chain_{date_str}_as_of_{time_str}.csv"`. */
  function FileName(exchange: string, ticker: string, date: string, time: string): string
  {
    exchange + "_" + ticker + "_options_chain_" + date + "_as_of_" + time + ".csv"
  }

  /** `os.path.join(directory, name)` on POSIX. */
  function JoinPath(directory: string, name: string): string
  {
    if |name| > 0 && name[0] == '/' then name
    else if directory == [] then name
    else if directory[|directory| - 1] == '/' then directory + name
    else directory + "/" + name
  }

  /** The column-wise rounding loop, applied to the frame in place. */
  method RoundDecimalColumns(frame: array<Row>, round: real -> real)
    modifies frame
    ensures frame[..] == Rounded(old(frame[..]), round)
  {
    for i := 0 to frame.Length
      invariant forall k | 0 <= k < i :: frame[k] == RoundRow(old(frame[k]), round)
      invariant forall k | i <= k < frame.Length :: frame[k] == old(frame[k])
    {
      frame[i] := RoundRow(frame[i], round);
    }
  }

  /** `sort_values('contract_id', inplace=True)`: sorted, and a permutation of the frame. */
  method SortByContractId(frame: array<Row>)
    modifies frame
    ensures SortedById(frame[..])
    ensures multiset(frame[..]) == old(multiset(frame[..]))
  {
    for i := 0 to frame.Length
      invariant forall k | 0 < k < i :: IdLe(frame[k - 1], frame[k])
      invariant multiset(frame[..]) == old(multiset(frame[..]))
    {
      InsertBackward(frame, i);
    }
    AdjacentSortedIsSorted(frame[..]);
  }

  /** Move `frame[i]` down into the ordered run `frame[..i]`, so that `frame[..i + 1]` is ordered. */
  method InsertBackward(frame: array<Row>, i: nat)
    requires i < frame.Length
    requires forall k | 0 < k < i :: IdLe(frame[k - 1], frame[k])
    modifies frame
    ensures forall k | 0 < k <= i :: IdLe(frame[k - 1], frame[k])
    ensures multiset(frame[..]) == old(multiset(frame[..]))
  {
    var j := i;
    while j > 0 && LexLt(frame[j].contract.contractId, frame[j - 1].contract.contractId)
      invariant 0 <= j <= i
      invariant forall k | 0 < k <= i && k != j :: IdLe(frame[k - 1], frame[k])
      invariant 0 < j < i ==> IdLe(frame[j - 1], frame[j + 1])
      invariant multiset(frame[..]) == old(multiset(frame[..]))
    {
      LexLtImpliesLe(frame[j].contract.contractId, frame[j - 1].contract.contractId);
      SwapAdjacent(frame, j);
      j := j - 1;
    }
  }

  method SwapAdjacent(frame: array<Row>, j: nat)
    requires 0 < j < frame.Length
    modifies frame
    ensures frame[j - 1] == old(frame[j]) && frame[j] == old(frame[j - 1])
    ensures forall k | 0 <= k < frame.Length && k != j - 1 && k != j :: frame[k] == old(frame[k])
    ensures multiset(frame[..]) == old(multiset(frame[..]))
  {
    frame[j - 1], frame[j] := frame[j], frame[j - 1];
  }

  lemma {:induction false} AdjacentChain(rows: seq<Row>, i: nat, j: nat)
    requires forall k | 0 < k < |rows| :: IdLe(rows[k - 1], rows[k])
    requires i <= j < |rows|
    ensures IdLe(rows[i], rows[j])
    decreases j - i
  {
    if i == j {
      LexLeReflexive(rows[i].contract.contractId);
    } else {
      AdjacentChain(rows, i, j - 1);
      LexLeTransitive(rows[i].contract.contractId, rows[j - 1].contract.contractId, rows[j].contract.contractId);
    }
  }

  /** Neighbours in order make the whole frame ordered. */
  lemma AdjacentSortedIsSorted(rows: seq<Row>)
    requires forall k | 0 < k < |rows| :: IdLe(rows[k - 1], rows[k])
    ensures SortedById(rows)
  {
    forall i, j | 0 <= i < j < |rows| ensures IdLe(rows[i], rows[j]) {
      AdjacentChain(rows, i, j);
    }
  }

  /**
   * The aggregate fails as soon as either adapter fails, yfinance first;
   * otherwise it returns the tagged, rounded rows of both, sorted by
   * `contract_id`, with the timestamped path.
   */
  method AggregateOptionsChain(
    exchange: string, ticker: string, outputDir: string, captureDate: string, captureTime: string,
    expirationDates: seq<string>, fetch: string -> Option<OptionChain>, avResponse: Option<Json>,
    round: real -> real)
    returns (r: Result<Snapshot>)
    ensures YfinanceChain(expirationDates, fetch).Failure? ==>
      r == Failure(YfinanceChain(expirationDates, fetch).error)
    ensures YfinanceChain(expirationDates, fetch).Success? && AlphaVantageChain(avResponse).Failure? ==>
      r == Failure(AlphaVantageChain(avResponse).error)
    ensures r.Success? <==>
      YfinanceChain(expirationDates, fetch).Success? && AlphaVantageChain(avResponse).Success?
    ensures r.Success? ==>
      r.value.path == JoinPath(outputDir, FileName(exchange, ticker, captureDate, captureTime)) &&
      SortedById(r.value.rows) &&
      multiset(r.value.rows) ==
        multiset(AggregateRows(YfinanceChain(expirationDates, fetch).value,
                               AlphaVantageChain(avResponse).value, round))
  {
    var fileName := FileName(exchange, ticker, captureDate, captureTime);
    var yfData := OptionsChainFromYfinance(expirationDates, fetch);
    if yfData.Failure? {
      return Failure(yfData.error);
    }
    var avData := OptionsChainFromAlphaVantage(avResponse);
    if avData.Failure? {
      return Failure(avData.error);
    }
    var combined := Combined(yfData.value, avData.value);
    var frame := new Row[|combined|](i requires 0 <= i < |combined| => combined[i]);
    assert frame[..] == combined;
    RoundDecimalColumns(frame, round);
    SortByContractId(frame);
    r := Success(Snapshot(JoinPath(outputDir, fileName), frame[..]));
  }

  /** Number of rows tagged with `source`. */
  function CountFrom(rows: seq<Row>, source: Source): nat
  {
    if rows == [] then 0
    else CountFrom(rows[..|rows| - 1], source) + if rows[|rows| - 1].source == source then 1 else 0
  }

  lemma {:induction false} CountFromAppend(a: seq<Row>, b: seq<Row>, source: Source)
    ensures CountFrom(a + b, source) == CountFrom(a, source) + CountFrom(b, source)
  {
    if b != [] {
      CountFromAppend(a, b[..|b| - 1], source);
      assert (a + b)[..|a + b| - 1] == a + b[..|b| - 1];
    } else {
      assert a + b == a;
    }
  }

  lemma RemoveOne(b: seq<Row>, k: nat, source: Source)
    requires k < |b|
    ensures multiset(b[..k] + b[k + 1..]) == multiset(b) - multiset{b[k]}
    ensures CountFrom(b, source) == CountFrom(b[..k] + b[k + 1..], source) + if b[k].source == source then 1 else 0
  {
    assert b == b[..k] + [b[k]] + b[k + 1..];
    CountFromAppend(b[..k] + [b[k]], b[k + 1..], source);
    CountFromAppend(b[..k], [b[k]], source);
    CountFromAppend(b[..k], b[k + 1..], source);
    assert [b[k]][..0] == [];
  }

  /** Reordering rows does not change how many come from each provider. */
  lemma {:induction false} CountFromPermutation(a: seq<Row>, b: seq<Row>, source: Source)
    requires multiset(a) == multiset(b)
    ensures CountFrom(a, source) == CountFrom(b, source)
    decreases |a|
  {
    if a == [] {
      assert |b| == |multiset(b)| == 0;
    } else {
      var init, x := a[..|a| - 1], a[|a| - 1];
      assert a == init + [x];
      assert multiset(init) == multiset(a) - multiset{x};
      assert x in multiset(b);
      var k :| 0 <= k < |b| && b[k] == x;
      RemoveOne(b, k, source);
      CountFromPermutation(init, b[..k] + b[k + 1..], source);
    }
  }

  lemma {:induction false} CountFromTagged(contracts: seq<Contract>, tag: Source, source: Source, round: real -> real)
    ensures CountFrom(Rounded(TagRows(contracts, tag), round), source) == if tag == source then |contracts| else 0
  {
    if contracts != [] {
      var init := contracts[..|contracts| - 1];
      CountFromTagged(init, tag, source, round);
      assert Rounded(TagRows(contracts, tag), round)[..|contracts| - 1] == Rounded(TagRows(init, tag), round);
    }
  }

  lemma RoundedAppend(a: seq<Row>, b: seq<Row>, round: real -> real)
    ensures Rounded(a + b, round) == Rounded(a, round) + Rounded(b, round)
  {
  }

  /**
   * No deduplication: the aggregate holds |yfinance| + |Alpha Vantage| rows,
   * exactly |yfinance| of them tagged 'yfinance' and |Alpha Vantage| tagged
   * 'alphavantage'.
   */
  lemma AggregateCounts(rows: seq<Row>, yf: seq<Contract>, av: seq<Contract>, round: real -> real)
    requires multiset(rows) == multiset(AggregateRows(yf, av, round))
    ensures |rows| == |yf| + |av|
    ensures CountFrom(rows, YFinance) == |yf|
    ensures CountFrom(rows, AlphaVantage) == |av|
  {
    var all := AggregateRows(yf, av, round);
    assert |rows| == |multiset(rows)| == |multiset(all)| == |all|;
    RoundedAppend(TagRows(yf, YFinance), TagRows(av, AlphaVantage), round);
    forall source: Source ensures CountFrom(rows, source) == if source == YFinance then |yf| else |av| {
      CountFromPermutation(rows, all, source);
      CountFromAppend(Rounded(TagRows(yf, YFinance), round), Rounded(TagRows(av, AlphaVantage), round), source);
      CountFromTagged(yf, YFinance, source, round);
      CountFromTagged(av, AlphaVantage, source, round);
    }
  }

  /** Each aggregate row is a rounded yfinance row tagged 'yfinance' or a rounded Alpha Vantage row tagged 'alphavantage'. */
  lemma AggregateRowOrigin(rows: seq<Row>, yf: seq<Contract>, av: seq<Contract>, round: real -> real, x: Row)
    requires multiset(rows) == multiset(AggregateRows(yf, av, round))
    requires x in rows
    ensures x.source.Name() == "yfinance" ==> exists i | 0 <= i < |yf| :: x == RoundRow(Row(yf[i], YFinance), round)
    ensures x.source.Name() == "alphavantage" ==> exists i | 0 <= i < |av| :: x == RoundRow(Row(av[i], AlphaVantage), round)
  {
    var all := AggregateRows(yf, av, round);
    assert x in multiset(all);
    var k :| 0 <= k < |all| && all[k] == x;
    var combined := Combined(yf, av);
    assert x == RoundRow(combined[k], round);
    if k < |yf| {
      assert combined[k] == TagRows(yf, YFinance)[k] == Row(yf[k], YFinance);
    } else {
      assert combined[k] == TagRows(av, AlphaVantage)[k - |yf|] == Row(av[k - |yf|], AlphaVantage);
    }
  }

  lemma FileNameInjective(exchange: string, ticker: string, date1: string, time1: string, date2: string, time2: string)
    requires |date1| == |date2|
    requires FileName(exchange, ticker, date1, time1) == FileName(exchange, ticker, date2, time2)
    ensures date1 == date2 && time1 == time2
  {
    var prefix := exchange + "_" + ticker + "_options_chain_";
    var tail1, tail2 := date1 + ("_as_of_" + time1 + ".csv"), date2 + ("_as_of_" + time2 + ".csv");
    assert FileName(exchange, ticker, date1, time1) == prefix + tail1;
    assert FileName(exchange, ticker, date2, time2) == prefix + tail2;
    assert tail1 == (prefix + tail1)[|prefix|..] == (prefix + tail2)[|prefix|..] == tail2;
    assert date1 == tail1[..|date1|] == tail2[..|date2|] == date2;
    var end1, end2 := "_as_of_" + time1 + ".csv", "_as_of_" + time2 + ".csv";
    assert end1 == tail1[|date1|..] == tail2[|date2|..] == end2;
    assert time1 == end1[7..|end1| - 4] == end2[7..|end2| - 4] == time2;
  }

  lemma JoinPathInjective(directory: string, name1: string, name2: string)
    requires (|name1| > 0 && name1[0] == '/') <==> (|name2| > 0 && name2[0] == '/')
    requires JoinPath(directory, name1) == JoinPath(directory, name2)
    ensures name1 == name2
  {
    var p := JoinPath(directory, name1);
    if |name1| > 0 && name1[0] == '/' {
    } else if directory == [] {
    } else if directory[|directory| - 1] == '/' {
      assert name1 == p[|directory|..] == name2;
    } else {
      assert name1 == p[|directory| + 1..] == name2;
    }
  }

  /**
   * Captures of the same exchange and ticker at two instants share a snapshot
   * path only when the instants are the same (dates are fixed-width
   * `%Y-%m-%d` texts).
   */
  lemma SnapshotPathIdentifiesInstant(
    directory: string, exchange: string, ticker: string,
    date1: string, time1: string, date2: string, time2: string)
    requires |date1| == |date2|
    ensures JoinPath(directory, FileName(exchange, ticker, date1, time1)) ==
            JoinPath(directory, FileName(exchange, ticker, date2, time2))
        ==> date1 == date2 && time1 == time2
  {
    var n1, n2 := FileName(exchange, ticker, date1, time1), FileName(exchange, ticker, date2, time2);
    if JoinPath(directory, n1) == JoinPath(directory, n2) {
      var prefix := exchange + "_";
      assert n1 == prefix + (ticker + "_options_chain_" + date1 + "_as_of_" + time1 + ".csv");
      assert n2 == prefix + (ticker + "_options_chain_" + date2 + "_as_of_" + time2 + ".csv");
      assert |n1| > 0 && |n2| > 0 && n1[0] == n2[0] by {
        if |exchange| > 0 {
          assert n1[0] == exchange[0] == n2[0];
        } else {
          assert n1[0] == '_' == n2[0];
        }
      }
      JoinPathInjective(directory, n1, n2);
      FileNameInjective(exchange, ticker, date1, time1, date2, time2);
    }
  }
}
