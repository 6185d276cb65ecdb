/**
 * Worked examples: the two-quote scan, the sample snapshots' symbol shapes,
 * the strike fallback for short strike tokens, and a partial fill of 7 out
 * of 10 lots.
 */
module Scenarios {
  import opened Optional
  import opened Symbols
  import opened Buckets
  import opened Scanner
  import opened Timeline
  import opened Execution

  // ----- the two-quote scan -----

  /** `C-X-<strike>-310125`. */
  function CallSymbol(strike: nat): string {
    "C-X-" + Decimal(strike) + "-310125"
  }

  lemma CallSymbolParses(strike: nat)
    requires strike >= 100
    ensures ExtractStrike(CallSymbol(strike)) == strike
    ensures Classify(CallSymbol(strike)) == CallSlot
  {
    var d := Decimal(strike);
    assert Join(["310125"]) == "310125";
    assert Join([d, "310125"]) == d + "-310125";
    assert Join(["X", d, "310125"]) == "X-" + d + "-310125";
    assert Join(["C", "X", d, "310125"]) == "C-X-" + d + "-310125";
    StrikeRoundTrip(["C", "X"], strike, ["310125"]);
    assert ["C", "X"] + [d] + ["310125"] == ["C", "X", d, "310125"];
    assert CallSymbol(strike)[0] == 'C' && CallSymbol(strike)[1] == '-';
    ClassifySpec(CallSymbol(strike));
  }

  lemma AddFreshCall(m: map<int, Bucket>, e: Entry, k: int)
    requires ExtractStrike(e.0) == k && k > 0 && k !in m && Classify(e.0) == CallSlot
    ensures AddEntry(m, e) == m[k := Bucket(Some(e.1), None)]
  {
  }

  lemma TwoCallsGroup(k1: nat, k2: nat, q1: Quote, q2: Quote)
    requires 100 <= k1 < k2
    ensures Group([(CallSymbol(k1), q1), (CallSymbol(k2), q2)])
            == map[k1 := Bucket(Some(q1), None), k2 := Bucket(Some(q2), None)]
  {
    var snapshot := [(CallSymbol(k1), q1), (CallSymbol(k2), q2)];
    CallSymbolParses(k1);
    CallSymbolParses(k2);
    assert snapshot[..1] == [(CallSymbol(k1), q1)];
    assert [(CallSymbol(k1), q1)][..0] == [];
    var one := [(CallSymbol(k1), q1)];
    var first := Group(one);
    assert Group(one[..0]) == map[];
    assert first == AddEntry(Group(one[..0]), one[0]);
    AddFreshCall(map[], (CallSymbol(k1), q1), k1);
    AddFreshCall(first, (CallSymbol(k2), q2), k2);
    assert Group(snapshot) == AddEntry(first, (CallSymbol(k2), q2));
  }

  lemma TwoCallsStrikeList(k1: nat, k2: nat, q1: Quote, q2: Quote)
    requires 100 <= k1 < k2
    ensures StrikeList([(CallSymbol(k1), q1), (CallSymbol(k2), q2)]) == [k1, k2]
  {
    var snapshot := [(CallSymbol(k1), q1), (CallSymbol(k2), q2)];
    CallSymbolParses(k1);
    CallSymbolParses(k2);
    assert snapshot[..1] == [(CallSymbol(k1), q1)];
    assert [(CallSymbol(k1), q1)][..0] == [];
    assert StrikeList([(CallSymbol(k1), q1)]) == StrikeList([]) + [k1];
    assert StrikeList(snapshot) == StrikeList(snapshot[..1]) + [k2];
  }

  lemma SortTwo(k1: int, k2: int)
    requires k1 < k2
    ensures SortDistinct([k1, k2]) == [k1, k2]
  {
    assert [k1, k2][..1] == [k1];
    assert [k1][..0] == [];
    assert SortDistinct([k1]) == InsertStrike(k1, []);
    assert SortDistinct([k1, k2]) == InsertStrike(k2, [k1]);
    assert [k1][1..] == [];
  }

  /**
   * Calls at strikes 100 (bid 1.40, ask 1.50) and 105 (bid 2.00, ask 2.10),
   * premium cap 3.00: with a minimum profit of 0.20 the scan finds exactly one
   * CALL spread, buying at 1.50 and selling at 2.00 for 0.50 (quantities
   * default to 100); with 0.60 it finds nothing. The strikes and the minimum
   * profit are parameters pinned by `requires` rather than literals, so that
   * the verifier does not unfold the literal symbol text digit by digit.
   */
  lemma TwoQuoteScan(k1: nat, k2: nat, minProfit: real)
    requires k1 == 100 && k2 == 105
    requires minProfit == 0.20 || minProfit == 0.60
    ensures var q1 := Quote(CallSymbol(k1), Some(1.40), Some(1.50), None);
            var q2 := Quote(CallSymbol(k2), Some(2.00), Some(2.10), None);
            var r := Scan([(CallSymbol(k1), q1), (CallSymbol(k2), q2)], AssetParams(3.00, minProfit, 0.10));
            && (minProfit == 0.20 ==>
                  r == [Opportunity(CallSpread, k1, k2, 1.50, 2.00, 0.50, CallSymbol(k1), CallSymbol(k2), 100, 100)])
            && (minProfit == 0.60 ==> r == [])
  {
    var q1 := Quote(CallSymbol(k1), Some(1.40), Some(1.50), None);
    var q2 := Quote(CallSymbol(k2), Some(2.00), Some(2.10), None);
    var snapshot := [(CallSymbol(k1), q1), (CallSymbol(k2), q2)];
    var p := AssetParams(3.00, minProfit, 0.10);
    TwoQuoteCandidates(k1, k2, minProfit);
    if minProfit == 0.20 {
      var o := Opportunity(CallSpread, k1, k2, 1.50, 2.00, 0.50, CallSymbol(k1), CallSymbol(k2), 100, 100);
      assert [o][1..] == [];
      assert SortByProfit([o]) == InsertByProfit(o, []) == [o];
      assert Scan(snapshot, p) == TopThree([o]);
    }
  }

  lemma TwoQuoteCandidates(k1: nat, k2: nat, minProfit: real)
    requires k1 == 100 && k2 == 105
    requires minProfit == 0.20 || minProfit == 0.60
    ensures var q1 := Quote(CallSymbol(k1), Some(1.40), Some(1.50), None);
            var q2 := Quote(CallSymbol(k2), Some(2.00), Some(2.10), None);
            var cands := ScanCandidates([(CallSymbol(k1), q1), (CallSymbol(k2), q2)], AssetParams(3.00, minProfit, 0.10));
            && (minProfit == 0.20 ==>
                  cands == [Opportunity(CallSpread, k1, k2, 1.50, 2.00, 0.50, CallSymbol(k1), CallSymbol(k2), 100, 100)])
            && (minProfit == 0.60 ==> cands == [])
  {
    var q1 := Quote(CallSymbol(k1), Some(1.40), Some(1.50), None);
    var q2 := Quote(CallSymbol(k2), Some(2.00), Some(2.10), None);
    var snapshot := [(CallSymbol(k1), q1), (CallSymbol(k2), q2)];
    TwoCallsGroup(k1, k2, q1, q2);
    TwoCallsStrikeList(k1, k2, q1, q2);
    SortTwo(k1, k2);
    var b := map[k1 := Bucket(Some(q1), None), k2 := Bucket(Some(q2), None)];
    var p := AssetParams(3.00, minProfit, 0.10);
    assert SortedKeys(snapshot) == [k1, k2];
    TwoCallBucketsCandidates(k1, k2, q1, q2, p);
    if minProfit == 0.20 {
      var o := Opportunity(CallSpread, k1, k2, 1.50, 2.00, 0.50, CallSymbol(k1), CallSymbol(k2), 100, 100);
      assert CheckCall(b, k1, k2, p) == Some(o);
    } else {
      assert CheckCall(b, k1, k2, p) == None;
    }
  }

  /** Two strikes holding only calls: the candidates are the CALL check's result, if any. */
  lemma TwoCallBucketsCandidates(k1: int, k2: int, q1: Quote, q2: Quote, p: AssetParams)
    requires k1 < k2
    ensures var b := map[k1 := Bucket(Some(q1), None), k2 := Bucket(Some(q2), None)];
            Candidates([k1, k2], b, p) == (if CheckCall(b, k1, k2, p).Some? then [CheckCall(b, k1, k2, p).value] else [])
  {
    var b := map[k1 := Bucket(Some(q1), None), k2 := Bucket(Some(q2), None)];
    assert [k1, k2][1..] == [k2];
    assert Candidates([k2], b, p) == [];
    assert CheckPut(b, k1, k2, p) == None;
  }

  // ----- symbol shapes of the sample snapshots -----

  /** `ETH-<digits>-<C|P>`, the shape of the ETH sample symbols. */
  function EthSymbol(digits: string, kind: char): string {
    "ETH-" + digits + "-" + [kind]
  }

  /**
   * A snapshot of `ETH-<digits>-C` / `ETH-<digits>-P` symbols never yields an
   * opportunity: none of its symbols contains "C-" or "P-", so every bucket
   * stays empty.
   */
  lemma EthStyleSnapshotFindsNothing(entries: seq<Entry>, digits: seq<string>, kinds: seq<char>, p: AssetParams)
    requires |digits| == |entries| && |kinds| == |entries|
    requires forall i :: 0 <= i < |entries| ==>
               && AllDigits(digits[i])
               && (kinds[i] == 'C' || kinds[i] == 'P')
               && entries[i].0 == EthSymbol(digits[i], kinds[i])
    ensures Scan(entries, p) == []
  {
    forall i | 0 <= i < |entries| ensures Classify(entries[i].0) == NoSlot {
      assert entries[i].0 == "ETH" + "-" + digits[i] + "-" + [kinds[i]];
      TrailingTypeLetterIsNeverFiled("ETH", digits[i], kinds[i]);
    }
    NothingFiledNoOpportunity(entries, p);
  }

  /**
   * A snapshot of symbols beginning with "BTC-" only ever yields CALL spreads:
   * every such symbol, puts included, is filed in the call slot.
   */
  lemma BtcSnapshotOnlyCallSpreads(entries: seq<Entry>, p: AssetParams)
    requires forall i :: 0 <= i < |entries| ==> |entries[i].0| >= 4 && entries[i].0[..4] == "BTC-"
    ensures forall o :: o in Scan(entries, p) ==> o.kind == CallSpread
  {
    forall i | 0 <= i < |entries| ensures Classify(entries[i].0) == CallSlot {
      var s := entries[i].0;
      assert s == "BTC-" + s[4..];
      BtcIsAlwaysCall(s[4..]);
    }
    AllCallsOnlyCallSpreads(entries, p);
  }

  // ----- strike tokens shorter than three digits -----

  /**
   * In `C-<asset>-<strike>-<expiry>`, a strike below 100 is too short to count,
   * so the expiry token (e.g. 310125) is read as the strike.
   */
  lemma ShortStrikeReadsExpiry(asset: string, strike: nat, expiry: nat)
    requires '-' !in asset && !IsStrikeToken(asset)
    requires strike < 100 && expiry >= 100
    ensures ExtractStrike(Join(["C", asset, Decimal(strike)] + [Decimal(expiry)])) == expiry
  {
    var d := Decimal(strike);
    assert |d| <= 2 by {
      if strike >= 10 { assert Decimal(strike) == Decimal(strike / 10) + [('0' as int + strike % 10) as char]; }
    }
    assert '-' !in d by {
      assert forall i :: 0 <= i < |d| ==> IsDigit(d[i]);
    }
    StrikeRoundTrip(["C", asset, d], expiry, []);
    assert ["C", asset, d] + [Decimal(expiry)] + [] == ["C", asset, d] + [Decimal(expiry)];
  }

  // ----- partial fill propagation -----

  /**
   * Ten lots ordered and the 70% entry drawn: seven lots are sold, and the buy
   * leg is placed and filled for exactly seven.
   */
  lemma SevenOfTenSold(price: real)
    ensures SellWithPartialFill(true, price, 10, SeventyPercent).filled == 7
    ensures SellWithPartialFill(true, price, 10, SeventyPercent).log.steps
            == [SellPlaced(10, price), SellPartlyFilled(7, 10, price), SellCancelled(3)]
  {
    assert SeventyPercentOf(10) == 7;
    SellLog(true, price, 10, SeventyPercent);
  }

  lemma SevenOfTenFilled(cfg: Config, asset: string, o: Opportunity)
    requires cfg.paperTrading && cfg.maxLotsPerTrade == 10
    requires o.buyQty >= 10 && o.sellQty >= 10
    ensures var r := ExecuteTrade(cfg, asset, o, Oracle(SeventyPercent, Instant));
            && r.Executed? && r.ordered == 10 && r.filled == 7 && r.bought
            && r.log.steps == [SellPlaced(10, o.sellPremium), SellPartlyFilled(7, 10, o.sellPremium), SellCancelled(3),
                               BuyPlaced(7, o.buyPremium), BuyFilled(7, o.buyPremium)]
  {
    var inc := ParamsFor(cfg, asset).priceIncrement;
    assert TradeQty(cfg, o) == 10;
    var sell := SellWithPartialFill(true, o.sellPremium, 10, SeventyPercent);
    SevenOfTenSold(o.sellPremium);
    var buy := BuySequence(true, inc, o.buyPremium, o.sellPremium, 7, Instant);
    BuyLogEntries(true, inc, o.buyPremium, o.sellPremium, 7, Instant);
    var r := ExecuteTrade(cfg, asset, o, Oracle(SeventyPercent, Instant));
    assert r == Executed(10, 7, true, o.buyPremium, Combine(sell.log, buy.log));
  }
}
