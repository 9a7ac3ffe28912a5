/**
 * The unwrapping half of the ticker service: turning the upstream API's
 * response envelopes into tickers. The HTTP exchanges that produce the
 * envelopes are not modelled; each operation takes the already-deserialized
 * body (`None` when the body was null).
 */
module QuidaxService {
  import opened Wrappers
  import opened Dto
  import opened LinkedMap

  /** The one status value that marks a usable upstream response. */
  const SuccessStatus := "success"

  /** `"success".equals(status)`: an exact, case-sensitive match that is false for a null status. */
  predicate IsSuccess(status: Option<string>) {
    status == Some(SuccessStatus)
  }

  /** Every value of the market map is non-null. */
  predicate NoNullValues(d: seq<(string, Option<MarketData>)>) {
    forall i :: 0 <= i < |d| ==> d[i].1.Some?
  }

  /** The body is present and its status is exactly "success". */
  predicate IsSuccessBody(body: Option<QuidaxResponse>) {
    body.Some? && IsSuccess(body.value.status)
  }

  /**
   * The inputs on which the bulk unwrap returns instead of throwing: a success
   * body must carry a non-null map, and every value of it must be non-null,
   * since both are dereferenced without a check.
   */
  predicate BulkDefined(body: Option<QuidaxResponse>) {
    IsSuccessBody(body) ==> body.value.data.Some? && NoNullValues(body.value.data.value)
  }

  /**
   * The entries of `d` whose envelope holds a non-null ticker, in the order of
   * `d`, each paired with that ticker.
   */
  function KeptEntries(d: seq<(string, Option<MarketData>)>): (r: seq<(string, Ticker)>)
    requires NoNullValues(d)
    ensures |r| <= |d|
    ensures forall k :: k in Keys(r) ==> k in Keys(d)
    decreases |d|
  {
    if d == [] then []
    else
      var init, (marketName, marketData) := d[..|d| - 1], d[|d| - 1];
      var prev := KeptEntries(init);
      assert Keys(d) == Keys(init) + [marketName];
      match marketData.value.ticker
      case Some(ticker) =>
        assert Keys(prev + [(marketName, ticker)]) == Keys(prev) + [marketName];
        prev + [(marketName, ticker)]
      case None => prev
  }

  /** What the bulk unwrap returns for `body`. */
  function BulkUnwrap(body: Option<QuidaxResponse>): (r: seq<(string, Ticker)>)
    requires BulkDefined(body)
  {
    if IsSuccessBody(body) then KeptEntries(body.value.data.value) else []
  }

  /**
   * getStringTickerMap: start from an empty LinkedHashMap; on a success body,
   * visit the market map's entries in order and put each non-null ticker
   * under its market name.
   */
  method GetStringTickerMap(body: Option<QuidaxResponse>) returns (unwrapped: seq<(string, Ticker)>)
    requires BulkDefined(body)
    ensures unwrapped == BulkUnwrap(body)
    ensures DistinctKeys(unwrapped)
    ensures !IsSuccessBody(body) ==> unwrapped == []
  {
    unwrapped := [];
    if body.Some? && IsSuccess(body.value.status) {
      var data := body.value.data.value;
      for i := 0 to |data|
        invariant unwrapped == KeptEntries(data[..i])
        invariant DistinctKeys(unwrapped)
      {
        var marketName := data[i].0;
        var ticker := data[i].1.value.ticker;
        assert data[..i + 1][..i] == data[..i];
        if ticker.Some? {
          assert marketName !in Keys(data[..i]) by {
            forall j | 0 <= j < i ensures Keys(data[..i])[j] != marketName {
              assert data[..i][j] == data[j];
            }
          }
          unwrapped := Put(unwrapped, marketName, ticker.value);
        }
      }
      assert data[..|data|] == data;
    }
  }

  /**
   * The unwrap at the end of getTicker: the envelope's ticker, returned as is,
   * when the response is a success and carries an envelope; null otherwise.
   */
  function UnwrapSingle(response: Option<SingleTickerResponse>): (t: Option<Ticker>)
    ensures !(response.Some? && IsSuccess(response.value.status)) ==> t == None
    ensures response.Some? && response.value.data.None? ==> t == None
    ensures response.Some? && IsSuccess(response.value.status) && response.value.data.Some? ==>
              t == response.value.data.value.ticker
  {
    if response.Some? && IsSuccess(response.value.status) then
      match response.value.data
      case Some(marketData) => marketData.ticker
      case None => None
    else None
  }

  // ---------------------------------------------------------------------------
  // Properties of the bulk unwrap

  /** Looking a market name up in the kept entries finds exactly that market's own ticker, or nothing. */
  lemma {:induction false} KeptLookup(d: seq<(string, Option<MarketData>)>)
    requires NoNullValues(d) && DistinctKeys(d)
    ensures forall i :: 0 <= i < |d| ==> Get(KeptEntries(d), d[i].0) == d[i].1.value.ticker
    ensures forall k :: k !in Keys(d) ==> Get(KeptEntries(d), k) == None
  {
    if d != [] {
      var n := |d| - 1;
      var init := d[..n];
      var prev := KeptEntries(init);
      KeptLookup(init);
      forall i | 0 <= i < |d| ensures Get(KeptEntries(d), d[i].0) == d[i].1.value.ticker {
        if i < n {
          assert init[i] == d[i];
          assert d[i].0 != d[n].0;
          match d[n].1.value.ticker {
            case Some(t) =>
              assert (prev + [(d[n].0, t)])[..|prev|] == prev;
            case None =>
          }
        } else {
          assert d[n].0 !in Keys(init) by {
            forall j | 0 <= j < n ensures Keys(init)[j] != d[n].0 {
              assert init[j] == d[j];
            }
          }
        }
      }
    }
  }

  /** The kept market names are exactly the input names whose envelope holds a non-null ticker. */
  lemma {:induction false} KeptKeys(d: seq<(string, Option<MarketData>)>)
    requires NoNullValues(d) && DistinctKeys(d)
    ensures forall k :: k in Keys(KeptEntries(d)) <==>
              exists i :: 0 <= i < |d| && d[i].0 == k && d[i].1.value.ticker.Some?
  {
    KeptLookup(d);
    forall k ensures k in Keys(KeptEntries(d)) ==>
                       exists i :: 0 <= i < |d| && d[i].0 == k && d[i].1.value.ticker.Some? {
      if k in Keys(KeptEntries(d)) {
        assert k in Keys(d);
        var i :| 0 <= i < |d| && Keys(d)[i] == k;
        assert Get(KeptEntries(d), d[i].0).Some?;
      }
    }
  }

  /** No market name is kept twice. */
  lemma {:induction false} KeptDistinct(d: seq<(string, Option<MarketData>)>)
    requires NoNullValues(d) && DistinctKeys(d)
    ensures DistinctKeys(KeptEntries(d))
  {
    if d != [] {
      var n := |d| - 1;
      var init := d[..n];
      var prev := KeptEntries(init);
      KeptDistinct(init);
      assert d[n].0 !in Keys(init) by {
        forall j | 0 <= j < n ensures Keys(init)[j] != d[n].0 {
          assert init[j] == d[j];
        }
      }
      forall j | 0 <= j < |prev| ensures prev[j].0 != d[n].0 {
        assert Keys(prev)[j] == prev[j].0;
      }
    }
  }

  /**
   * The kept entries are a subsequence of the input: `idx` gives, in strictly
   * increasing order, the input position each kept entry came from, with the
   * same market name and that envelope's ticker unchanged.
   */
  lemma {:induction false} KeptIsSubsequence(d: seq<(string, Option<MarketData>)>) returns (idx: seq<nat>)
    requires NoNullValues(d)
    ensures |idx| == |KeptEntries(d)|
    ensures forall j :: 0 <= j < |idx| ==>
              idx[j] < |d| && d[idx[j]].0 == KeptEntries(d)[j].0 &&
              d[idx[j]].1.value.ticker == Some(KeptEntries(d)[j].1)
    ensures forall j1, j2 :: 0 <= j1 < j2 < |idx| ==> idx[j1] < idx[j2]
  {
    if d == [] {
      idx := [];
    } else {
      var n := |d| - 1;
      var init := d[..n];
      var prev := KeptIsSubsequence(init);
      assert forall j :: 0 <= j < |prev| ==> prev[j] < n && d[prev[j]] == init[prev[j]];
      if d[n].1.value.ticker.Some? {
        idx := prev + [n];
      } else {
        idx := prev;
      }
    }
  }

  /**
   * The bulk unwrap in full: a non-success or absent body gives the empty map;
   * a success body gives a map with distinct names, no longer than the input,
   * in which every input market name is bound to exactly its own envelope's
   * ticker (unbound when that ticker is null) and no other name is bound.
   */
  lemma BulkUnwrapSpec(body: Option<QuidaxResponse>)
    requires BulkDefined(body)
    ensures !IsSuccessBody(body) ==> BulkUnwrap(body) == []
    ensures IsSuccessBody(body) ==>
              var d, r := body.value.data.value, BulkUnwrap(body);
              DistinctKeys(r) && |r| <= |d| &&
              (forall i :: 0 <= i < |d| ==> Get(r, d[i].0) == d[i].1.value.ticker) &&
              (forall k :: k !in Keys(d) ==> Get(r, k) == None)
  {
    if IsSuccessBody(body) {
      KeptLookup(body.value.data.value);
      KeptDistinct(body.value.data.value);
    }
  }

  /** A non-success or absent body is always inside the bulk unwrap's domain. */
  lemma NonSuccessNeverThrows(body: Option<QuidaxResponse>)
    requires !IsSuccessBody(body)
    ensures BulkDefined(body) && BulkUnwrap(body) == []
  {
  }

  // ---------------------------------------------------------------------------
  // The two unwraps agree

  /**
   * Looking a market up in the bulk unwrap of a map gives what the single
   * unwrap gives for that market's envelope under the same status.
   */
  lemma BulkAgreesWithSingle(status: Option<string>, data: MarketMap, message: Option<string>, i: nat)
    requires NoNullValues(data) && i < |data|
    ensures Get(BulkUnwrap(Some(QuidaxResponse(status, Some(data)))), data[i].0) ==
            UnwrapSingle(Some(SingleTickerResponse(status, message, data[i].1)))
  {
    if IsSuccess(status) {
      KeptLookup(data);
    }
  }

  // ---------------------------------------------------------------------------
  // Edges of the domain and worked cases

  /**
   * The inputs the bulk unwrap cannot return on: a success body whose map is
   * null, and a success body whose map holds a null envelope at any position.
   */
  lemma NullDereferencesOutsideDomain(d: MarketMap, i: nat)
    requires i < |d| && d[i].1.None?
    ensures !BulkDefined(Some(QuidaxResponse(Some(SuccessStatus), None)))
    ensures !BulkDefined(Some(QuidaxResponse(Some(SuccessStatus), Some(d))))
  {
  }

  /** Worked cases of the status match: "success" is a success; "Success", "success " and a null status are not. */
  lemma StatusMatchIsExact()
    ensures IsSuccess(Some("success"))
    ensures !IsSuccess(Some("Success")) && !IsSuccess(Some("success ")) && !IsSuccess(None)
  {
  }

  /** A success body with one market "btcusd" and a full ticker unwraps to that single binding. */
  lemma BulkScenario()
    ensures var t := Ticker("1", "2", "3", "4", "5", "6");
            BulkUnwrap(Some(QuidaxResponse(Some("success"), Some([("btcusd", Some(MarketData(Some(t))))]))))
            == [("btcusd", t)]
  {
  }

  /** An error response for an unknown market unwraps to null rather than failing. */
  lemma SingleErrorScenario()
    ensures UnwrapSingle(Some(SingleTickerResponse(Some("error"), Some("not found"), None))) == None
  {
  }
}
