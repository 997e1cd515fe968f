/**
 * The yfinance adapter, `get_options_chain_from_yfinance`: walk the listed
 * expiration dates, fetch each date's chain, and append its calls frame and
 * its puts frame to `all_options`. The provider (`Ticker.options` and
 * `Ticker.option_chain`) is a parameter: the list of dates and a function that
 * gives a date's chain, or `None` where the fetch raised.
 */
module Yfinance {
  import opened Common
  import opened Records

  /** One row of a provider chain frame, in the columns the adapter selects. */
  datatype ChainRow = ChainRow(
    contractSymbol: string,
    strike: real,
    volume: int,
    openInterest: int,
    impliedVolatility: real,
    bid: real,
    ask: real)

  /** What `option_chain(date)` returns: a calls frame and a puts frame. */
  datatype OptionChain = OptionChain(calls: seq<ChainRow>, puts: seq<ChainRow>)

  /** A provider row with `type` and `expiration` set and `contractSymbol` renamed to `contract_id`. */
  function ToContract(row: ChainRow, kind: string, date: string): Contract
  {
    Contract(row.contractSymbol, kind, row.strike, date, row.volume, row.openInterest,
             row.impliedVolatility, row.bid, row.ask)
  }

  /** A whole provider frame tagged with one `type` and one `expiration`. */
  function Frame(rows: seq<ChainRow>, kind: string, date: string): seq<Contract>
  {
    seq(|rows|, i requires 0 <= i < |rows| => ToContract(rows[i], kind, date))
  }

  /** The frames one date appends: its calls then its puts, or nothing when the fetch raised. */
  function DateFrames(date: string, fetch: string -> Option<OptionChain>): seq<seq<Contract>>
  {
    match fetch(date)
    case None => []
    case Some(chain) => [Frame(chain.calls, "call", date), Frame(chain.puts, "put", date)]
  }

  /** The `all_options` list after walking `dates`. */
  function Frames(dates: seq<string>, fetch: string -> Option<OptionChain>): seq<seq<Contract>>
  {
    if dates == [] then []
    else Frames(dates[..|dates| - 1], fetch) + DateFrames(dates[|dates| - 1], fetch)
  }

  /** `pd.concat` of a list of frames. */
  function Concat(frames: seq<seq<Contract>>): seq<Contract>
  {
    if frames == [] then [] else Concat(frames[..|frames| - 1]) + frames[|frames| - 1]
  }

  /** The rows of every fetched date, in date order. */
  function FetchedRows(dates: seq<string>, fetch: string -> Option<OptionChain>): seq<Contract>
  {
    Concat(Frames(dates, fetch))
  }

  /** What the adapter returns or raises. */
  function YfinanceChain(dates: seq<string>, fetch: string -> Option<OptionChain>): Result<seq<Contract>>
  {
    if dates == [] then Failure(NoExpirations)
    else if Frames(dates, fetch) == [] then Failure(NothingFetched)
    else Success(FetchedRows(dates, fetch))
  }

  /** Some listed date was fetched. */
  ghost predicate AnyFetched(dates: seq<string>, fetch: string -> Option<OptionChain>)
  {
    exists i | 0 <= i < |dates| :: fetch(dates[i]).Some?
  }

  method OptionsChainFromYfinance(expirationDates: seq<string>, fetch: string -> Option<OptionChain>)
    returns (r: Result<seq<Contract>>)
    ensures r == YfinanceChain(expirationDates, fetch)
  {
    if expirationDates == [] {
      return Failure(NoExpirations);
    }
    var allOptions: seq<seq<Contract>> := [];
    for i := 0 to |expirationDates|
      invariant allOptions == Frames(expirationDates[..i], fetch)
    {
      assert expirationDates[..i + 1][..i] == expirationDates[..i];
      var date := expirationDates[i];
      match fetch(date) {
        case None =>
          // the fetch raised: this date is skipped
        case Some(chain) =>
          allOptions := allOptions + [Frame(chain.calls, "call", date)];
          allOptions := allOptions + [Frame(chain.puts, "put", date)];
      }
    }
    assert expirationDates[..|expirationDates|] == expirationDates;
    if allOptions == [] {
      return Failure(NothingFetched);
    }
    r := Success(Concat(allOptions));
  }

  lemma {:induction false} FramesEmptyIffNoneFetched(dates: seq<string>, fetch: string -> Option<OptionChain>)
    ensures Frames(dates, fetch) == [] <==> !AnyFetched(dates, fetch)
  {
    if dates != [] {
      var init := dates[..|dates| - 1];
      FramesEmptyIffNoneFetched(init, fetch);
      if AnyFetched(init, fetch) {
        var i :| 0 <= i < |init| && fetch(init[i]).Some?;
        assert fetch(dates[i]).Some?;
      }
      if AnyFetched(dates, fetch) && !AnyFetched(init, fetch) {
        var i :| 0 <= i < |dates| && fetch(dates[i]).Some?;
      }
    }
  }

  /**
   * The adapter fails exactly when no date is listed or no listed date could
   * be fetched; a fetched date whose frames are empty still counts as data.
   */
  lemma YfinanceFailsIffNothingFetched(dates: seq<string>, fetch: string -> Option<OptionChain>)
    ensures YfinanceChain(dates, fetch).Failure? <==> !AnyFetched(dates, fetch)
    ensures dates == [] ==> YfinanceChain(dates, fetch) == Failure(NoExpirations)
    ensures dates != [] && !AnyFetched(dates, fetch) ==> YfinanceChain(dates, fetch) == Failure(NothingFetched)
  {
    FramesEmptyIffNoneFetched(dates, fetch);
  }

  lemma {:induction false} ConcatAppend(f: seq<seq<Contract>>, g: seq<seq<Contract>>)
    ensures Concat(f + g) == Concat(f) + Concat(g)
  {
    if g == [] {
      assert f + g == f;
    } else {
      ConcatAppend(f, g[..|g| - 1]);
      assert (f + g)[..|f + g| - 1] == f + g[..|g| - 1];
    }
  }

  lemma {:induction false} FramesAppend(d1: seq<string>, d2: seq<string>, fetch: string -> Option<OptionChain>)
    ensures Frames(d1 + d2, fetch) == Frames(d1, fetch) + Frames(d2, fetch)
  {
    if d2 == [] {
      assert d1 + d2 == d1;
    } else {
      FramesAppend(d1, d2[..|d2| - 1], fetch);
      assert (d1 + d2)[..|d1 + d2| - 1] == d1 + d2[..|d2| - 1];
    }
  }

  /** The rows of consecutive date lists follow each other: date order is kept. */
  lemma FetchedRowsAppend(d1: seq<string>, d2: seq<string>, fetch: string -> Option<OptionChain>)
    ensures FetchedRows(d1 + d2, fetch) == FetchedRows(d1, fetch) + FetchedRows(d2, fetch)
  {
    FramesAppend(d1, d2, fetch);
    ConcatAppend(Frames(d1, fetch), Frames(d2, fetch));
  }

  /** One date contributes its calls tagged 'call', then its puts tagged 'put', or nothing. */
  lemma FetchedRowsOfOneDate(date: string, fetch: string -> Option<OptionChain>)
    ensures FetchedRows([date], fetch) ==
      match fetch(date)
      case None => []
      case Some(chain) => Frame(chain.calls, "call", date) + Frame(chain.puts, "put", date)
  {
    assert [date][..0] == [];
    match fetch(date) {
      case None =>
        assert Frames([date], fetch) == [];
      case Some(chain) =>
        var frames := DateFrames(date, fetch);
        assert Frames([date], fetch) == frames;
        assert frames[..1] == [frames[0]] && [frames[0]][..0] == [];
        assert Concat(frames[..1]) == frames[0];
        assert Concat(frames) == frames[0] + frames[1];
    }
  }

  /** Number of rows the fetched dates hold, calls and puts together. */
  function FetchedCount(dates: seq<string>, fetch: string -> Option<OptionChain>): nat
  {
    if dates == [] then 0
    else
      var d := dates[|dates| - 1];
      FetchedCount(dates[..|dates| - 1], fetch) +
      match fetch(d)
      case None => 0
      case Some(chain) => |chain.calls| + |chain.puts|
  }

  /** Nothing is deduplicated or dropped: every provider row of a fetched date is kept. */
  lemma {:induction false} FetchedRowsCount(dates: seq<string>, fetch: string -> Option<OptionChain>)
    ensures |FetchedRows(dates, fetch)| == FetchedCount(dates, fetch)
  {
    if dates != [] {
      var init, d := dates[..|dates| - 1], dates[|dates| - 1];
      assert dates == init + [d];
      FetchedRowsCount(init, fetch);
      FetchedRowsAppend(init, [d], fetch);
      FetchedRowsOfOneDate(d, fetch);
    }
  }

  /** A row of date `d`'s calls or puts frame, where `d` was fetched. */
  ghost predicate FromDate(c: Contract, d: string, fetch: string -> Option<OptionChain>)
  {
    fetch(d).Some? &&
    (c in Frame(fetch(d).value.calls, "call", d) || c in Frame(fetch(d).value.puts, "put", d))
  }

  /** A row came from some fetched date: it carries that date and the frame's `type`. */
  ghost predicate FromFetchedDate(c: Contract, dates: seq<string>, fetch: string -> Option<OptionChain>)
  {
    exists i | 0 <= i < |dates| :: FromDate(c, dates[i], fetch)
  }

  lemma {:induction false} FetchedRowsMembership(dates: seq<string>, fetch: string -> Option<OptionChain>, c: Contract)
    ensures c in FetchedRows(dates, fetch) <==> FromFetchedDate(c, dates, fetch)
  {
    if dates != [] {
      var init, d := dates[..|dates| - 1], dates[|dates| - 1];
      assert dates == init + [d];
      FetchedRowsMembership(init, fetch, c);
      FetchedRowsAppend(init, [d], fetch);
      FetchedRowsOfOneDate(d, fetch);
      assert c in FetchedRows([d], fetch) <==> FromDate(c, d, fetch);
      assert c in FetchedRows(dates, fetch) <==> c in FetchedRows(init, fetch) || FromDate(c, d, fetch);
      if FromFetchedDate(c, init, fetch) {
        var i :| 0 <= i < |init| && FromDate(c, init[i], fetch);
        assert dates[i] == init[i];
      }
      if FromFetchedDate(c, dates, fetch) && !FromDate(c, d, fetch) {
        var i :| 0 <= i < |dates| && FromDate(c, dates[i], fetch);
        assert i != |init|;
        assert init[i] == dates[i];
      }
    }
  }

  /** Every row the adapter returns is a call or a put expiring on a listed date that was fetched. */
  lemma YfinanceRowsAreTagged(dates: seq<string>, fetch: string -> Option<OptionChain>, c: Contract)
    requires YfinanceChain(dates, fetch).Success?
    requires c in YfinanceChain(dates, fetch).value
    ensures c.kind == "call" || c.kind == "put"
    ensures exists i | 0 <= i < |dates| :: dates[i] == c.expiration && fetch(dates[i]).Some?
  {
    FetchedRowsMembership(dates, fetch, c);
    var i :| 0 <= i < |dates| && FromDate(c, dates[i], fetch);
    var chain := fetch(dates[i]).value;
    if c in Frame(chain.calls, "call", dates[i]) {
      var j :| 0 <= j < |chain.calls| && Frame(chain.calls, "call", dates[i])[j] == c;
    } else {
      var j :| 0 <= j < |chain.puts| && Frame(chain.puts, "put", dates[i])[j] == c;
    }
  }
}
