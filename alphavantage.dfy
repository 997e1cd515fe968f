/**
 * The Alpha Vantage adapter, `get_options_chain_from_alphavantage`, from the
 * decoded HTTP response on. The request itself is a parameter: `None` when
 * `requests.get`, `raise_for_status` or `response.json()` raised, otherwise
 * the decoded body.
 */
module AlphaVantage {
  import opened Common
  import opened Records
  import opened Coercion

  /**
   * `contract[key]` for a column copied without conversion (contractID, type,
   * expiration): the key must be present, and the model takes only JSON text.
   */
  function TextAt(fields: map<string, Json>, key: string): Option<string>
  {
    if key in fields && fields[key].JStr? then Some(fields[key].s) else None
  }

  /** `float(contract[key])`: the key must be present and convertible. */
  function FloatAt(fields: map<string, Json>, key: string): Option<real>
  {
    if key in fields then PyFloat(fields[key]) else None
  }

  /** `int(contract.get(key, 0))`. */
  function IntOrZero(fields: map<string, Json>, key: string): Option<int>
  {
    if key in fields then PyInt(fields[key]) else Some(0)
  }

  /** `float(contract.get(key, 0.0))`. */
  function FloatOrZero(fields: map<string, Json>, key: string): Option<real>
  {
    if key in fields then PyFloat(fields[key]) else Some(0.0)
  }

  /**
   * The `option_data` dict built from one raw contract, or `None` where
   * building it raises KeyError, ValueError or TypeError and the contract is
   * skipped. `type` is copied as it is, without checking it is call or put.
   */
  function NormalizeContract(item: Json): Option<Contract>
  {
    match item
    case JObject(f) =>
      var id := TextAt(f, "contractID");
      var kind := TextAt(f, "type");
      var strike := FloatAt(f, "strike");
      var expiration := TextAt(f, "expiration");
      var volume := IntOrZero(f, "volume");
      var openInterest := IntOrZero(f, "open_interest");
      var iv := FloatOrZero(f, "implied_volatility");
      var bid := FloatOrZero(f, "bid");
      var ask := FloatOrZero(f, "ask");
      if id.Some? && kind.Some? && strike.Some? && expiration.Some? && volume.Some? &&
         openInterest.Some? && iv.Some? && bid.Some? && ask.Some?
      then
        Some(Contract(id.value, kind.value, strike.value, expiration.value, volume.value,
                      openInterest.value, iv.value, bid.value, ask.value))
      else
        None
    case _ => None // subscripting a list, a string, a number or None raises TypeError
  }

  /** The `all_options` list after walking `items`: the contracts that normalise, in order. */
  function Survivors(items: seq<Json>): seq<Contract>
  {
    if items == [] then []
    else
      Survivors(items[..|items| - 1]) +
      match NormalizeContract(items[|items| - 1])
      case Some(c) => [c]
      case None => []
  }

  /** What the adapter returns or raises for a given response. */
  function AlphaVantageChain(response: Option<Json>): Result<seq<Contract>>
  {
    match response
    case None => Failure(RequestFailed)
    case Some(body) =>
      if !body.JObject? then Failure(MalformedResponse)
      else if "Error Message" in body.fields then Failure(ApiError(body.fields["Error Message"]))
      else if body.fields == map[] then Failure(EmptyResponse)
      else
        match DataOf(body.fields)
        case JArray(items) =>
          if Survivors(items) == [] then Failure(NoValidContracts) else Success(Survivors(items))
        // iterating a dict or a string yields strings, and every one of them is skipped
        case JObject(_) => Failure(NoValidContracts)
        case JStr(_) => Failure(NoValidContracts)
        // iterating a number, a boolean or None raises outside the per-contract try
        case _ => Failure(MalformedResponse)
  }

  /** `data.get('data', [])`. */
  function DataOf(fields: map<string, Json>): Json
  {
    if "data" in fields then fields["data"] else JArray([])
  }

  method OptionsChainFromAlphaVantage(response: Option<Json>) returns (r: Result<seq<Contract>>)
    ensures r == AlphaVantageChain(response)
  {
    if response.None? {
      return Failure(RequestFailed);
    }
    var body := response.value;
    if !body.JObject? {
      return Failure(MalformedResponse);
    }
    var data := body.fields;
    if "Error Message" in data {
      return Failure(ApiError(data["Error Message"]));
    }
    if data == map[] {
      return Failure(EmptyResponse);
    }
    var optionsData := DataOf(data);
    if optionsData.JObject? || optionsData.JStr? {
      return Failure(NoValidContracts);
    }
    if !optionsData.JArray? {
      return Failure(MalformedResponse);
    }
    var items := optionsData.items;
    var allOptions: seq<Contract> := [];
    for i := 0 to |items|
      invariant allOptions == Survivors(items[..i])
    {
      assert items[..i + 1][..i] == items[..i];
      var contract := NormalizeContract(items[i]);
      if contract.Some? {
        allOptions := allOptions + [contract.value];
      }
      // otherwise the contract is skipped and the walk goes on
    }
    assert items[..|items|] == items;
    if allOptions == [] {
      return Failure(NoValidContracts);
    }
    r := Success(allOptions);
  }

  /** Each raw contract is kept or dropped on its own: walking two runs is walking each. */
  lemma {:induction false} SurvivorsAppend(a: seq<Json>, b: seq<Json>)
    ensures Survivors(a + b) == Survivors(a) + Survivors(b)
  {
    if b == [] {
      assert a + b == a;
    } else {
      SurvivorsAppend(a, b[..|b| - 1]);
      assert (a + b)[..|a + b| - 1] == a + b[..|b| - 1];
    }
  }

  /** A malformed contract between two runs removes nothing else. */
  lemma DroppedContractIsolated(a: seq<Json>, bad: Json, b: seq<Json>)
    requires NormalizeContract(bad) == None
    ensures Survivors(a + [bad] + b) == Survivors(a) + Survivors(b)
  {
    assert Survivors([bad]) == [] by {
      assert [bad][..0] == [];
    }
    SurvivorsAppend(a, [bad]);
    SurvivorsAppend(a + [bad], b);
  }

  /** The survivors are exactly the normalised contracts, no more than there were raw ones. */
  lemma {:induction false} SurvivorsMembership(items: seq<Json>, c: Contract)
    ensures |Survivors(items)| <= |items|
    ensures c in Survivors(items) <==> exists i | 0 <= i < |items| :: NormalizeContract(items[i]) == Some(c)
  {
    if items != [] {
      var init := items[..|items| - 1];
      var last := NormalizeContract(items[|items| - 1]);
      var tail := if last.Some? then [last.value] else [];
      assert Survivors(items) == Survivors(init) + tail;
      SurvivorsMembership(init, c);
      if exists i | 0 <= i < |init| :: NormalizeContract(init[i]) == Some(c) {
        var i :| 0 <= i < |init| && NormalizeContract(init[i]) == Some(c);
        assert items[i] == init[i];
      }
      if c in Survivors(init) {
        var i :| 0 <= i < |init| && NormalizeContract(init[i]) == Some(c);
        assert items[i] == init[i];
      }
    }
  }

  lemma {:induction false} SurvivorsEmptyIffNoneNormalises(items: seq<Json>)
    ensures Survivors(items) == [] <==> forall i | 0 <= i < |items| :: NormalizeContract(items[i]).None?
  {
    if items != [] {
      var init := items[..|items| - 1];
      SurvivorsEmptyIffNoneNormalises(init);
      if Survivors(items) == [] {
        forall i | 0 <= i < |items| ensures NormalizeContract(items[i]).None? {
          if i < |init| {
            assert items[i] == init[i];
          }
        }
      }
    }
  }

  /**
   * The adapter returns data exactly when the body is an object without an
   * "Error Message", not empty, whose `data` entry is a list holding at least
   * one contract that normalises.
   */
  lemma AlphaVantageSucceedsIff(response: Option<Json>)
    ensures AlphaVantageChain(response).Success? <==>
      response.Some? && response.value.JObject? &&
      "Error Message" !in response.value.fields &&
      response.value.fields != map[] &&
      DataOf(response.value.fields).JArray? &&
      exists i | 0 <= i < |DataOf(response.value.fields).items| ::
        NormalizeContract(DataOf(response.value.fields).items[i]).Some?
  {
    if response.Some? && response.value.JObject? && DataOf(response.value.fields).JArray? {
      SurvivorsEmptyIffNoneNormalises(DataOf(response.value.fields).items);
    }
  }

  /** A contract with text for identifiers and counts and JSON numbers for prices. */
  function ProviderObject(c: Contract): Json
  {
    JObject(map[
      "contractID" := JStr(c.contractId),
      "type" := JStr(c.kind),
      "strike" := JReal(c.strike),
      "expiration" := JStr(c.expiration),
      "volume" := JStr(IntegerText(c.volume)),
      "open_interest" := JStr(IntegerText(c.openInterest)),
      "implied_volatility" := JReal(c.impliedVolatility),
      "bid" := JReal(c.bid),
      "ask" := JReal(c.ask)])
  }

  /** Normalising a contract with every column present gives that contract back, whatever its `type`. */
  lemma NormalizeProviderObject(c: Contract)
    ensures NormalizeContract(ProviderObject(c)) == Some(c)
  {
    ParseIntegerRoundTrip(c.volume);
    ParseIntegerRoundTrip(c.openInterest);
  }

  /** A raw contract whose nine columns each convert gives the contract those conversions build. */
  lemma NormalizeOfConvertedColumns(f: map<string, Json>, c: Contract)
    requires TextAt(f, "contractID") == Some(c.contractId)
    requires TextAt(f, "type") == Some(c.kind)
    requires TextAt(f, "expiration") == Some(c.expiration)
    requires FloatAt(f, "strike") == Some(c.strike)
    requires IntOrZero(f, "volume") == Some(c.volume)
    requires IntOrZero(f, "open_interest") == Some(c.openInterest)
    requires FloatOrZero(f, "implied_volatility") == Some(c.impliedVolatility)
    requires FloatOrZero(f, "bid") == Some(c.bid)
    requires FloatOrZero(f, "ask") == Some(c.ask)
    ensures NormalizeContract(JObject(f)) == Some(c)
  {
  }

  /** A column holding a decimal literal's text converts, required or optional, to that literal's value. */
  lemma FloatOfLiteralColumn(f: map<string, Json>, key: string, d: DecimalLiteral)
    requires AllDigits(d.fraction)
    requires key in f && f[key] == JStr(d.Text())
    ensures FloatAt(f, key) == Some(d.Value()) && FloatOrZero(f, key) == Some(d.Value())
  {
    ParseDecimalOfLiteral(d);
  }

  /** A contract whose every column is text: counts as integers, prices as decimal literals. */
  function TextObject(id: string, kind: string, expiration: string, strike: DecimalLiteral,
                      volume: int, openInterest: int,
                      iv: DecimalLiteral, bid: DecimalLiteral, ask: DecimalLiteral): Json
  {
    JObject(map[
      "contractID" := JStr(id),
      "type" := JStr(kind),
      "strike" := JStr(strike.Text()),
      "expiration" := JStr(expiration),
      "volume" := JStr(IntegerText(volume)),
      "open_interest" := JStr(IntegerText(openInterest)),
      "implied_volatility" := JStr(iv.Text()),
      "bid" := JStr(bid.Text()),
      "ask" := JStr(ask.Text())])
  }

  /** `float` reads each price column of a text-only contract as its literal's value. */
  lemma TextObjectPrices(id: string, kind: string, expiration: string, strike: DecimalLiteral,
                         volume: int, openInterest: int,
                         iv: DecimalLiteral, bid: DecimalLiteral, ask: DecimalLiteral)
    requires AllDigits(strike.fraction) && AllDigits(iv.fraction)
    requires AllDigits(bid.fraction) && AllDigits(ask.fraction)
    ensures var f := TextObject(id, kind, expiration, strike, volume, openInterest, iv, bid, ask).fields;
      FloatAt(f, "strike") == Some(strike.Value()) &&
      FloatOrZero(f, "implied_volatility") == Some(iv.Value()) &&
      FloatOrZero(f, "bid") == Some(bid.Value()) &&
      FloatOrZero(f, "ask") == Some(ask.Value())
  {
    var f := TextObject(id, kind, expiration, strike, volume, openInterest, iv, bid, ask).fields;
    FloatOfLiteralColumn(f, "strike", strike);
    FloatOfLiteralColumn(f, "implied_volatility", iv);
    FloatOfLiteralColumn(f, "bid", bid);
    FloatOfLiteralColumn(f, "ask", ask);
  }

  /** The text columns of a text-only contract are copied and its counts read back by `int`. */
  lemma TextObjectCounts(id: string, kind: string, expiration: string, strike: DecimalLiteral,
                         volume: int, openInterest: int,
                         iv: DecimalLiteral, bid: DecimalLiteral, ask: DecimalLiteral)
    ensures var f := TextObject(id, kind, expiration, strike, volume, openInterest, iv, bid, ask).fields;
      TextAt(f, "contractID") == Some(id) &&
      TextAt(f, "type") == Some(kind) &&
      TextAt(f, "expiration") == Some(expiration) &&
      IntOrZero(f, "volume") == Some(volume) &&
      IntOrZero(f, "open_interest") == Some(openInterest)
  {
    ParseIntegerRoundTrip(volume);
    ParseIntegerRoundTrip(openInterest);
  }

  /** Prices sent as decimal text are read by `float` as the numbers they denote. */
  lemma NormalizeTextObject(id: string, kind: string, expiration: string, strike: DecimalLiteral,
                            volume: int, openInterest: int,
                            iv: DecimalLiteral, bid: DecimalLiteral, ask: DecimalLiteral)
    requires AllDigits(strike.fraction) && AllDigits(iv.fraction)
    requires AllDigits(bid.fraction) && AllDigits(ask.fraction)
    ensures NormalizeContract(TextObject(id, kind, expiration, strike, volume, openInterest, iv, bid, ask))
      == Some(Contract(id, kind, strike.Value(), expiration, volume, openInterest,
                       iv.Value(), bid.Value(), ask.Value()))
  {
    TextObjectPrices(id, kind, expiration, strike, volume, openInterest, iv, bid, ask);
    TextObjectCounts(id, kind, expiration, strike, volume, openInterest, iv, bid, ask);
    NormalizeOfConvertedColumns(TextObject(id, kind, expiration, strike, volume, openInterest, iv, bid, ask).fields,
      Contract(id, kind, strike.Value(), expiration, volume, openInterest, iv.Value(), bid.Value(), ask.Value()));
  }

  /** The five optional columns default to zero when absent. */
  lemma NormalizeDefaultsToZero(id: string, kind: string, strike: real, expiration: string)
    ensures NormalizeContract(JObject(map[
        "contractID" := JStr(id), "type" := JStr(kind),
        "strike" := JReal(strike), "expiration" := JStr(expiration)]))
      == Some(Contract(id, kind, strike, expiration, 0, 0, 0.0, 0.0, 0.0))
  {
  }

  /** A contract lacking one of the four required columns is dropped. */
  lemma NormalizeNeedsRequiredColumns(f: map<string, Json>)
    requires "contractID" !in f || "type" !in f || "strike" !in f || "expiration" !in f
    ensures NormalizeContract(JObject(f)) == None
  {
  }

  /** An optional column that is present but not convertible drops the contract, unlike an absent one. */
  lemma NormalizeDropsUnconvertibleOptional(f: map<string, Json>, key: string)
    requires key in {"volume", "open_interest"} && key in f && PyInt(f[key]) == None
    ensures NormalizeContract(JObject(f)) == None
  {
  }

  /** A price column that is present but rejected by `float`, such as "n/a" or null, drops the contract. */
  lemma NormalizeDropsUnconvertiblePrice(f: map<string, Json>, key: string)
    requires key in {"strike", "implied_volatility", "bid", "ask"} && key in f && PyFloat(f[key]) == None
    ensures NormalizeContract(JObject(f)) == None
  {
  }
}
