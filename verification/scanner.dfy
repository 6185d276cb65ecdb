/**
 * `find_arbitrage_opportunities` and its two spread checks: adjacent strikes
 * in ascending order, a CALL and then a PUT test per pair, a stable sort by
 * profit (highest first) and the first three.
 */
module Scanner {
  import opened Optional
  import opened Symbols
  import opened Buckets

  /** The per-asset thresholds (`ETH_PARAMS` / `BTC_PARAMS`). */
  datatype AssetParams = AssetParams(maxPremium: real, minProfit: real, priceIncrement: real)

  datatype SpreadKind = CallSpread | PutSpread

  datatype Opportunity = Opportunity(
    kind: SpreadKind,
    strike1: int,
    strike2: int,
    buyPremium: real,
    sellPremium: real,
    profit: real,
    buySymbol: string,
    sellSymbol: string,
    buyQty: int,
    sellQty: int)

  /** `slot.get('ask', 0)`; an empty slot has no ask. */
  function Ask(slot: Option<Quote>): real {
    match slot
    case None => 0.0
    case Some(q) => q.ask.Get(0.0)
  }

  /** `slot.get('bid', 0)`. */
  function Bid(slot: Option<Quote>): real {
    match slot
    case None => 0.0
    case Some(q) => q.bid.Get(0.0)
  }

  /** `quote.get('qty', 100)`. */
  function Qty(q: Quote): int {
    q.qty.Get(100)
  }

  /** Both premiums positive and within the cap, and the margin at least the minimum. */
  predicate Tradable(buyPremium: real, sellPremium: real, p: AssetParams) {
    && buyPremium > 0.0
    && sellPremium > 0.0
    && buyPremium <= p.maxPremium
    && sellPremium <= p.maxPremium
    && sellPremium - buyPremium >= p.minProfit
  }

  /** The invariant every emitted opportunity carries. */
  predicate Valid(o: Opportunity, p: AssetParams) {
    Tradable(o.buyPremium, o.sellPremium, p) && o.profit == o.sellPremium - o.buyPremium
  }

  /** Buy the `buy` quote at its ask and sell the `sell` quote at its bid, if that clears the thresholds. */
  function Spread(kind: SpreadKind, strike1: int, strike2: int, buy: Option<Quote>, sell: Option<Quote>, p: AssetParams): (r: Option<Opportunity>)
    ensures r.Some? <==> Tradable(Ask(buy), Bid(sell), p)
    ensures r.Some? ==>
              && buy.Some? && sell.Some?
              && r.value.kind == kind && r.value.strike1 == strike1 && r.value.strike2 == strike2
              && r.value.buyPremium == Ask(buy) && r.value.sellPremium == Bid(sell)
              && r.value.buySymbol == buy.value.symbol && r.value.sellSymbol == sell.value.symbol
              && r.value.buyQty == Qty(buy.value) && r.value.sellQty == Qty(sell.value)
              && Valid(r.value, p)
  {
    var buyPremium := Ask(buy);
    var sellPremium := Bid(sell);
    if Tradable(buyPremium, sellPremium, p) then
      Some(Opportunity(kind, strike1, strike2, buyPremium, sellPremium, sellPremium - buyPremium,
                       buy.value.symbol, sell.value.symbol, Qty(buy.value), Qty(sell.value)))
    else None
  }

  /** `check_call_arbitrage`: buy the lower strike's call, sell the upper strike's call. */
  function CheckCall(b: map<int, Bucket>, strike1: int, strike2: int, p: AssetParams): Option<Opportunity>
    requires strike1 in b && strike2 in b
  {
    Spread(CallSpread, strike1, strike2, b[strike1].call, b[strike2].call, p)
  }

  /** `check_put_arbitrage`: buy the upper strike's put, sell the lower strike's put. */
  function CheckPut(b: map<int, Bucket>, strike1: int, strike2: int, p: AssetParams): Option<Opportunity>
    requires strike1 in b && strike2 in b
  {
    Spread(PutSpread, strike1, strike2, b[strike2].put, b[strike1].put, p)
  }

  /** The direction rule: which strike's quote is bought and which is sold, per spread kind. */
  lemma SpreadDirection(b: map<int, Bucket>, strike1: int, strike2: int, p: AssetParams)
    requires strike1 in b && strike2 in b
    ensures var c := CheckCall(b, strike1, strike2, p);
            c.Some? <==> Tradable(Ask(b[strike1].call), Bid(b[strike2].call), p)
    ensures var c := CheckCall(b, strike1, strike2, p);
            c.Some? ==> && c.value.kind == CallSpread
                        && c.value.buyPremium == b[strike1].call.value.ask.Get(0.0)
                        && c.value.sellPremium == b[strike2].call.value.bid.Get(0.0)
                        && c.value.buySymbol == b[strike1].call.value.symbol
                        && c.value.sellSymbol == b[strike2].call.value.symbol
    ensures var t := CheckPut(b, strike1, strike2, p);
            t.Some? <==> Tradable(Ask(b[strike2].put), Bid(b[strike1].put), p)
    ensures var t := CheckPut(b, strike1, strike2, p);
            t.Some? ==> && t.value.kind == PutSpread
                        && t.value.buyPremium == b[strike2].put.value.ask.Get(0.0)
                        && t.value.sellPremium == b[strike1].put.value.bid.Get(0.0)
                        && t.value.buySymbol == b[strike2].put.value.symbol
                        && t.value.sellSymbol == b[strike1].put.value.symbol
  {
  }

  /** A missing slot, or a quote without the needed price, never yields an opportunity. */
  lemma EmptySlotYieldsNothing(b: map<int, Bucket>, strike1: int, strike2: int, p: AssetParams)
    requires strike1 in b && strike2 in b
    ensures b[strike1].call.None? || b[strike2].call.None? ==> CheckCall(b, strike1, strike2, p).None?
    ensures b[strike1].put.None? || b[strike2].put.None? ==> CheckPut(b, strike1, strike2, p).None?
  {
  }

  function AsSeq(o: Option<Opportunity>): seq<Opportunity> {
    match o
    case None => []
    case Some(v) => [v]
  }

  predicate StrictlyIncreasing(ks: seq<int>) {
    forall i, j :: 0 <= i < j < |ks| ==> ks[i] < ks[j]
  }

  /** Strikes `s1`, `s2` are neighbours in `ks`. */
  predicate Adjacent(ks: seq<int>, s1: int, s2: int) {
    exists i :: 0 <= i < |ks| - 1 && ks[i] == s1 && ks[i + 1] == s2
  }

  /**
   * The loop of `find_arbitrage_opportunities` before sorting: for each
   * adjacent pair, the CALL result and then the PUT result.
   */
  function Candidates(ks: seq<int>, b: map<int, Bucket>, p: AssetParams): (r: seq<Opportunity>)
    requires forall i :: 0 <= i < |ks| ==> ks[i] in b
    ensures forall o :: o in r ==> Valid(o, p) && Adjacent(ks, o.strike1, o.strike2)
  {
    if |ks| < 2 then []
    else
      var here := AsSeq(CheckCall(b, ks[0], ks[1], p)) + AsSeq(CheckPut(b, ks[0], ks[1], p));
      assert forall i :: 0 <= i < |ks[1..]| ==> ks[1..][i] == ks[i + 1];
      var rest := Candidates(ks[1..], b, p);
      AdjacentInTail(ks);
      assert Adjacent(ks, ks[0], ks[1]);
      here + rest
  }

  /** Neighbours in the tail of a list are neighbours in the list. */
  lemma AdjacentInTail(ks: seq<int>)
    requires |ks| >= 1
    ensures forall s1, s2 :: Adjacent(ks[1..], s1, s2) ==> Adjacent(ks, s1, s2)
  {
    forall s1, s2 | Adjacent(ks[1..], s1, s2) ensures Adjacent(ks, s1, s2) {
      var i :| 0 <= i < |ks[1..]| - 1 && ks[1..][i] == s1 && ks[1..][i + 1] == s2;
      assert ks[i + 1] == s1 && ks[i + 2] == s2;
    }
  }

  /** Every passing CALL or PUT check on a neighbouring pair is among the candidates. */
  lemma {:induction false} CandidatesComplete(ks: seq<int>, b: map<int, Bucket>, p: AssetParams, i: nat)
    requires forall j :: 0 <= j < |ks| ==> ks[j] in b
    requires i < |ks| - 1
    ensures CheckCall(b, ks[i], ks[i + 1], p).Some? ==> CheckCall(b, ks[i], ks[i + 1], p).value in Candidates(ks, b, p)
    ensures CheckPut(b, ks[i], ks[i + 1], p).Some? ==> CheckPut(b, ks[i], ks[i + 1], p).value in Candidates(ks, b, p)
  {
    var here := AsSeq(CheckCall(b, ks[0], ks[1], p)) + AsSeq(CheckPut(b, ks[0], ks[1], p));
    assert Candidates(ks, b, p) == here + Candidates(ks[1..], b, p);
    if i > 0 {
      assert ks[1..][i - 1] == ks[i] && ks[1..][i] == ks[i + 1];
      CandidatesComplete(ks[1..], b, p, i - 1);
    }
  }

  /** `a` is produced before `b` by the scan loop: an earlier pair, or the same pair with CALL before PUT. */
  predicate LoopBefore(a: Opportunity, b: Opportunity) {
    a.strike1 < b.strike1 || (a.strike1 == b.strike1 && a.kind == CallSpread && b.kind == PutSpread)
  }

  predicate InLoopOrder(s: seq<Opportunity>) {
    forall i, j :: 0 <= i < j < |s| ==> LoopBefore(s[i], s[j])
  }

  lemma ConcatInLoopOrder(a: seq<Opportunity>, c: seq<Opportunity>)
    requires InLoopOrder(a) && InLoopOrder(c)
    requires forall x, y :: x in a && y in c ==> LoopBefore(x, y)
    ensures InLoopOrder(a + c)
  {
    var s := a + c;
    forall i, j | 0 <= i < j < |s| ensures LoopBefore(s[i], s[j]) {
      if j < |a| {
        assert s[i] == a[i] && s[j] == a[j];
      } else if i >= |a| {
        assert s[i] == c[i - |a|] && s[j] == c[j - |a|];
      } else {
        assert s[i] in a && s[j] in c;
      }
    }
  }

  /**
   * Over ascending strikes the candidates come out in loop order: pair by
   * pair, and within a pair the CALL result before the PUT result.
   */
  lemma {:induction false} CandidatesInLoopOrder(ks: seq<int>, b: map<int, Bucket>, p: AssetParams)
    requires forall i :: 0 <= i < |ks| ==> ks[i] in b
    requires StrictlyIncreasing(ks)
    ensures InLoopOrder(Candidates(ks, b, p))
  {
    if |ks| >= 2 {
      var call := AsSeq(CheckCall(b, ks[0], ks[1], p));
      var put := AsSeq(CheckPut(b, ks[0], ks[1], p));
      var tail := ks[1..];
      assert forall i :: 0 <= i < |tail| ==> tail[i] == ks[i + 1];
      var rest := Candidates(tail, b, p);
      CandidatesInLoopOrder(tail, b, p);
      assert forall x :: x in call ==> x.strike1 == ks[0] && x.kind == CallSpread;
      assert forall x :: x in put ==> x.strike1 == ks[0] && x.kind == PutSpread;
      ConcatInLoopOrder(call, put);
      forall x, y | x in call + put && y in rest ensures LoopBefore(x, y) {
        assert Adjacent(tail, y.strike1, y.strike2);
        var i :| 0 <= i < |tail| - 1 && tail[i] == y.strike1 && tail[i + 1] == y.strike2;
        assert y.strike1 == ks[i + 1] > ks[0];
      }
      ConcatInLoopOrder(call + put, rest);
      assert Candidates(ks, b, p) == call + put + rest;
    }
  }

  // ----- sorting: Python's stable `sorted(..., key=profit, reverse=True)` -----

  predicate SortedByProfit(s: seq<Opportunity>) {
    forall i, j :: 0 <= i < j < |s| ==> s[i].profit >= s[j].profit
  }

  /** The opportunities of `s` with profit exactly `v`, in their order in `s`. */
  function Ties(s: seq<Opportunity>, v: real): seq<Opportunity> {
    if |s| == 0 then []
    else (if s[0].profit == v then [s[0]] else []) + Ties(s[1..], v)
  }

  /** Puts `x` in front of the first element whose profit does not exceed its own. */
  function InsertByProfit(x: Opportunity, t: seq<Opportunity>): (r: seq<Opportunity>)
    ensures |r| > 0 && (r[0] == x || (|t| > 0 && r[0] == t[0]))
  {
    if |t| == 0 || x.profit >= t[0].profit then [x] + t
    else [t[0]] + InsertByProfit(x, t[1..])
  }

  /** Inserting adds exactly the one element. */
  lemma {:induction false} InsertAddsOne(x: Opportunity, t: seq<Opportunity>)
    ensures multiset(InsertByProfit(x, t)) == multiset(t) + multiset{x}
  {
    if |t| > 0 && x.profit < t[0].profit {
      InsertAddsOne(x, t[1..]);
      assert t == [t[0]] + t[1..];
    }
  }

  lemma {:induction false} InsertKeepsSorted(x: Opportunity, t: seq<Opportunity>)
    requires SortedByProfit(t)
    ensures SortedByProfit(InsertByProfit(x, t))
  {
    if |t| > 0 && x.profit < t[0].profit {
      InsertKeepsSorted(x, t[1..]);
      var tail := InsertByProfit(x, t[1..]);
      assert tail[0].profit <= t[0].profit by {
        if tail[0] != x {
          assert tail[0] == t[1..][0] == t[1];
        }
      }
      var r := [t[0]] + tail;
      assert InsertByProfit(x, t) == r;
      forall i, j | 0 <= i < j < |r| ensures r[i].profit >= r[j].profit {
        assert r[j] == tail[j - 1];
        if i == 0 {
          assert tail[0].profit >= tail[j - 1].profit;
        } else {
          assert r[i] == tail[i - 1];
        }
      }
    }
  }

  function SortByProfit(s: seq<Opportunity>): (r: seq<Opportunity>)
    ensures multiset(r) == multiset(s)
    ensures SortedByProfit(r)
  {
    if |s| == 0 then []
    else
      assert s == [s[0]] + s[1..];
      InsertAddsOne(s[0], SortByProfit(s[1..]));
      InsertKeepsSorted(s[0], SortByProfit(s[1..]));
      InsertByProfit(s[0], SortByProfit(s[1..]))
  }

  lemma TiesCons(a: Opportunity, s: seq<Opportunity>, v: real)
    ensures Ties([a] + s, v) == (if a.profit == v then [a] else []) + Ties(s, v)
  {
    assert ([a] + s)[1..] == s;
  }

  lemma {:induction false} InsertKeepsTies(x: Opportunity, t: seq<Opportunity>, v: real)
    ensures Ties(InsertByProfit(x, t), v) == Ties([x], v) + Ties(t, v)
  {
    var own := if x.profit == v then [x] else [];
    TiesCons(x, [], v);
    assert [x] + [] == [x];
    assert Ties([x], v) == own;
    if |t| == 0 || x.profit >= t[0].profit {
      TiesCons(x, t, v);
    } else {
      var rest := InsertByProfit(x, t[1..]);
      InsertKeepsTies(x, t[1..], v);
      assert InsertByProfit(x, t) == [t[0]] + rest;
      TiesCons(t[0], rest, v);
      assert t == [t[0]] + t[1..];
      TiesCons(t[0], t[1..], v);
      var head := if t[0].profit == v then [t[0]] else [];
      if t[0].profit == v {
        assert own == [];
      } else {
        assert head == [];
      }
    }
  }

  /**
   * Stability: among opportunities of equal profit the sorted list keeps their
   * order in the input.
   */
  lemma {:induction false} SortKeepsTies(s: seq<Opportunity>, v: real)
    ensures Ties(SortByProfit(s), v) == Ties(s, v)
  {
    if |s| > 0 {
      SortKeepsTies(s[1..], v);
      InsertKeepsTies(s[0], SortByProfit(s[1..]), v);
    }
  }

  /** The tie list holds exactly the elements of profit `v`. */
  lemma {:induction false} TiesMembers(s: seq<Opportunity>, v: real)
    ensures forall x :: x in Ties(s, v) <==> x in s && x.profit == v
  {
    if |s| > 0 {
      TiesMembers(s[1..], v);
      assert s == [s[0]] + s[1..];
    }
  }

  /** Keeping only one profit level preserves loop order. */
  lemma {:induction false} TiesKeepLoopOrder(s: seq<Opportunity>, v: real)
    requires InLoopOrder(s)
    ensures InLoopOrder(Ties(s, v))
  {
    if |s| > 0 {
      var tail := s[1..];
      assert forall i :: 0 <= i < |tail| ==> tail[i] == s[i + 1];
      TiesKeepLoopOrder(tail, v);
      TiesMembers(tail, v);
      var head := if s[0].profit == v then [s[0]] else [];
      forall x, y | x in head && y in Ties(tail, v) ensures LoopBefore(x, y) {
        var j :| 0 <= j < |tail| && tail[j] == y;
        assert y == s[j + 1];
      }
      ConcatInLoopOrder(head, Ties(tail, v));
    }
  }

  /** Opportunities of equal profit stand in loop order. */
  predicate TiesInLoopOrder(s: seq<Opportunity>) {
    forall i, j :: 0 <= i < j < |s| && s[i].profit == s[j].profit ==> LoopBefore(s[i], s[j])
  }

  /** If every profit level is in loop order, so is every pair of equal profit. */
  lemma {:induction false} TiesOrderedPairwise(s: seq<Opportunity>)
    requires forall v :: InLoopOrder(Ties(s, v))
    ensures TiesInLoopOrder(s)
  {
    if |s| > 0 {
      var tail := s[1..];
      forall v ensures InLoopOrder(Ties(tail, v)) {
        var whole := Ties(s, v);
        var k := if s[0].profit == v then 1 else 0;
        assert whole == (if s[0].profit == v then [s[0]] else []) + Ties(tail, v);
        forall i, j | 0 <= i < j < |Ties(tail, v)| ensures LoopBefore(Ties(tail, v)[i], Ties(tail, v)[j]) {
          assert whole[i + k] == Ties(tail, v)[i] && whole[j + k] == Ties(tail, v)[j];
        }
      }
      TiesOrderedPairwise(tail);
      forall i, j | 0 <= i < j < |s| && s[i].profit == s[j].profit ensures LoopBefore(s[i], s[j]) {
        assert s[j] == tail[j - 1];
        if i == 0 {
          var v := s[0].profit;
          TiesMembers(tail, v);
          var t := Ties(tail, v);
          assert s[j] in t;
          var m :| 0 <= m < |t| && t[m] == s[j];
          assert Ties(s, v) == [s[0]] + t;
          assert Ties(s, v)[0] == s[0] && Ties(s, v)[m + 1] == s[j];
        } else {
          assert s[i] == tail[i - 1];
        }
      }
    }
  }

  // ----- the scan -----

  /** Adds strike `k` to an ascending list of distinct strikes, unless it is there already. */
  function InsertStrike(k: int, ks: seq<int>): (r: seq<int>)
    requires StrictlyIncreasing(ks)
    ensures StrictlyIncreasing(r)
    ensures forall x :: x in r <==> x == k || x in ks
    ensures |r| > 0 && (|ks| > 0 ==> r[0] == if k < ks[0] then k else ks[0])
  {
    if |ks| == 0 || k < ks[0] then [k] + ks
    else if k == ks[0] then ks
    else [ks[0]] + InsertStrike(k, ks[1..])
  }

  /** The positive strikes of a snapshot, in entry order (repeats included). */
  function StrikeList(entries: seq<Entry>): seq<int> {
    if |entries| == 0 then []
    else
      var k := ExtractStrike(entries[|entries| - 1].0);
      StrikeList(entries[..|entries| - 1]) + (if k > 0 then [k] else [])
  }

  function SortDistinct(xs: seq<int>): (ks: seq<int>)
    ensures StrictlyIncreasing(ks)
    ensures forall x :: x in ks <==> x in xs
  {
    if |xs| == 0 then [] else InsertStrike(xs[|xs| - 1], SortDistinct(xs[..|xs| - 1]))
  }

  /** `sorted(strikes.keys())` for `strikes = group_options_by_strike(entries)`. */
  function SortedKeys(entries: seq<Entry>): seq<int> {
    SortDistinct(StrikeList(entries))
  }

  lemma {:induction false} StrikeListIsKeys(entries: seq<Entry>)
    ensures forall k :: k in StrikeList(entries) <==> k in Group(entries)
  {
    if |entries| > 0 {
      var prefix := entries[..|entries| - 1];
      StrikeListIsKeys(prefix);
      assert forall i :: 0 <= i < |prefix| ==> prefix[i] == entries[i];
    }
  }

  /** The strikes the scan walks are exactly the bucket keys, ascending and without repeats. */
  lemma SortedKeysAreBucketKeys(entries: seq<Entry>)
    ensures StrictlyIncreasing(SortedKeys(entries))
    ensures forall k :: k in SortedKeys(entries) <==> k in Group(entries)
  {
    StrikeListIsKeys(entries);
  }

  function Min(a: int, b: int): int {
    if a <= b then a else b
  }

  /** The candidate list the scan sorts. */
  function ScanCandidates(entries: seq<Entry>, p: AssetParams): seq<Opportunity> {
    var b := Group(entries);
    var ks := SortedKeys(entries);
    SortedKeysAreBucketKeys(entries);
    Candidates(ks, b, p)
  }

  /** Cutting a list sorted by profit keeps a sub-multiset, and nothing cut off beats anything kept. */
  lemma PrefixKeepsBest(s: seq<Opportunity>, k: nat)
    requires SortedByProfit(s) && k <= |s|
    ensures multiset(s[..k]) <= multiset(s)
    ensures forall x, i :: x in multiset(s) - multiset(s[..k]) && 0 <= i < k ==> x.profit <= s[i].profit
  {
    assert s == s[..k] + s[k..];
    assert multiset(s) - multiset(s[..k]) == multiset(s[k..]);
    forall x, i | x in multiset(s) - multiset(s[..k]) && 0 <= i < k ensures x.profit <= s[i].profit {
      assert x in s[k..];
      var j :| 0 <= j < |s[k..]| && s[k..][j] == x;
      assert x == s[k + j];
    }
  }

  /**
   * `[:3]` of a list sorted by profit: min(3, n) of its elements, still sorted,
   * and no element left out has more profit than any element kept.
   */
  function TopThree(s: seq<Opportunity>): (r: seq<Opportunity>)
    requires SortedByProfit(s)
    ensures |r| == Min(3, |s|)
    ensures SortedByProfit(r)
    ensures multiset(r) <= multiset(s)
    ensures forall x, i :: x in multiset(s) - multiset(r) && 0 <= i < |r| ==> x.profit <= r[i].profit
    ensures forall o :: o in s ==> |r| > 0 && o.profit <= r[0].profit
  {
    PrefixKeepsBest(s, Min(3, |s|));
    s[..Min(3, |s|)]
  }

  lemma SubMultisetMembers(r: seq<Opportunity>, s: seq<Opportunity>)
    requires multiset(r) <= multiset(s)
    ensures forall o :: o in r ==> o in s
  {
    forall o | o in r ensures o in s {
      assert o in multiset(r);
    }
  }

  /**
   * `find_arbitrage_opportunities`: the three most profitable candidates (or
   * all, when there are fewer), highest profit first, each one valid and built
   * from two neighbouring strikes of the snapshot. Every candidate left out
   * has no more profit than any opportunity returned.
   */
  function Scan(entries: seq<Entry>, p: AssetParams): (r: seq<Opportunity>)
    ensures |r| == Min(3, |ScanCandidates(entries, p)|)
    ensures SortedByProfit(r)
    ensures forall o :: o in r ==> Valid(o, p) && Adjacent(SortedKeys(entries), o.strike1, o.strike2)
    ensures multiset(r) <= multiset(ScanCandidates(entries, p))
    ensures forall o :: o in r ==> o in ScanCandidates(entries, p)
    ensures forall x, i :: x in multiset(ScanCandidates(entries, p)) - multiset(r) && 0 <= i < |r| ==> x.profit <= r[i].profit
    ensures forall c :: c in ScanCandidates(entries, p) ==> |r| > 0 && c.profit <= r[0].profit
  {
    var cands := ScanCandidates(entries, p);
    var sorted := SortByProfit(cands);
    var r := TopThree(sorted);
    SubMultisetMembers(sorted, cands);
    SubMultisetMembers(cands, sorted);
    SubMultisetMembers(r, cands);
    r
  }

  /**
   * The cut-off at three is stable: a candidate left out with the same profit
   * as a returned opportunity comes after it in loop order.
   */
  lemma ScanDropsLaterTies(entries: seq<Entry>, p: AssetParams)
    ensures var r := Scan(entries, p);
            forall x, i :: x in multiset(ScanCandidates(entries, p)) - multiset(r) && 0 <= i < |r| && x.profit == r[i].profit ==>
              LoopBefore(r[i], x)
  {
    var cands := ScanCandidates(entries, p);
    var sorted := SortByProfit(cands);
    SortedCandidatesTiesInLoopOrder(entries, p);
    var k := Min(3, |sorted|);
    DroppedTiesComeLater(sorted, k);
    assert Scan(entries, p) == sorted[..k];
    assert multiset(cands) == multiset(sorted);
  }

  /** Cutting a list whose equal-profit elements are in loop order leaves off only later ties. */
  lemma DroppedTiesComeLater(s: seq<Opportunity>, k: nat)
    requires TiesInLoopOrder(s) && k <= |s|
    ensures forall x, i :: x in multiset(s) - multiset(s[..k]) && 0 <= i < k && x.profit == s[i].profit ==> LoopBefore(s[i], x)
  {
    assert s == s[..k] + s[k..];
    assert multiset(s) - multiset(s[..k]) == multiset(s[k..]);
    forall x, i | x in multiset(s) - multiset(s[..k]) && 0 <= i < k && x.profit == s[i].profit
      ensures LoopBefore(s[i], x)
    {
      assert x in s[k..];
      var j :| 0 <= j < |s[k..]| && s[k..][j] == x;
      assert x == s[k + j];
    }
  }


  /** Every candidate is the result of the CALL or the PUT check on its own strike pair. */
  lemma {:induction false} CandidatesComeFromChecks(ks: seq<int>, b: map<int, Bucket>, p: AssetParams)
    requires forall i :: 0 <= i < |ks| ==> ks[i] in b
    ensures forall o :: o in Candidates(ks, b, p) ==>
              && o.strike1 in b && o.strike2 in b
              && ((o.kind == CallSpread && CheckCall(b, o.strike1, o.strike2, p) == Some(o))
                  || (o.kind == PutSpread && CheckPut(b, o.strike1, o.strike2, p) == Some(o)))
  {
    if |ks| >= 2 {
      assert forall i :: 0 <= i < |ks[1..]| ==> ks[1..][i] in b;
      CandidatesComeFromChecks(ks[1..], b, p);
    }
  }

  /** A snapshot in which no symbol names a slot has only empty buckets, hence no opportunity. */
  lemma NothingFiledNoOpportunity(entries: seq<Entry>, p: AssetParams)
    requires forall i :: 0 <= i < |entries| ==> Classify(entries[i].0) == NoSlot
    ensures forall k :: k in Group(entries) ==> Group(entries)[k] == EmptyBucket
    ensures Scan(entries, p) == []
  {
    var b := Group(entries);
    forall k | k in b
      ensures b[k] == EmptyBucket
    {
      GroupSlotEmpty(entries, k, CallSlot);
      GroupSlotEmpty(entries, k, PutSlot);
    }
    var ks := SortedKeys(entries);
    SortedKeysAreBucketKeys(entries);
    CandidatesComeFromChecks(ks, b, p);
    var cands := ScanCandidates(entries, p);
    if |cands| > 0 {
      var o := cands[0];
      assert o in cands;
      if o.kind == CallSpread {
        GroupSlotEmpty(entries, o.strike1, CallSlot);
      } else {
        GroupSlotEmpty(entries, o.strike1, PutSlot);
      }
      assert false;
    }
  }

  /** A snapshot in which every symbol is filed as a call never yields a PUT spread. */
  lemma AllCallsOnlyCallSpreads(entries: seq<Entry>, p: AssetParams)
    requires forall i :: 0 <= i < |entries| ==> Classify(entries[i].0) == CallSlot
    ensures forall o :: o in Scan(entries, p) ==> o.kind == CallSpread
  {
    var b := Group(entries);
    var ks := SortedKeys(entries);
    SortedKeysAreBucketKeys(entries);
    CandidatesComeFromChecks(ks, b, p);
    forall o | o in ScanCandidates(entries, p) ensures o.kind == CallSpread {
      if o.kind == PutSpread {
        GroupSlotEmpty(entries, o.strike1, PutSlot);
      }
    }
  }

  /**
   * Results of equal profit keep the loop's order: the earlier strike pair
   * first, and on the same pair the CALL spread before the PUT spread.
   */
  lemma ScanTiesInLoopOrder(entries: seq<Entry>, p: AssetParams)
    ensures TiesInLoopOrder(Scan(entries, p))
  {
    var sorted := SortByProfit(ScanCandidates(entries, p));
    SortedCandidatesTiesInLoopOrder(entries, p);
    var r := Scan(entries, p);
    assert r == sorted[..Min(3, |sorted|)];
    forall i, j | 0 <= i < j < |r| && r[i].profit == r[j].profit ensures LoopBefore(r[i], r[j]) {
      assert r[i] == sorted[i] && r[j] == sorted[j];
    }
  }

  /** In the sorted candidate list, opportunities of equal profit stand in loop order. */
  lemma SortedCandidatesTiesInLoopOrder(entries: seq<Entry>, p: AssetParams)
    ensures TiesInLoopOrder(SortByProfit(ScanCandidates(entries, p)))
  {
    var b := Group(entries);
    var ks := SortedKeys(entries);
    SortedKeysAreBucketKeys(entries);
    var cands := ScanCandidates(entries, p);
    CandidatesInLoopOrder(ks, b, p);
    var sorted := SortByProfit(cands);
    forall v ensures InLoopOrder(Ties(sorted, v)) {
      TiesKeepLoopOrder(cands, v);
      SortKeepsTies(cands, v);
    }
    TiesOrderedPairwise(sorted);
  }
}
