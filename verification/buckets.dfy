/**
 * Quotes and the strike buckets `group_options_by_strike` builds from a quote
 * snapshot. A snapshot is the Python dictionary in iteration order: a sequence
 * of (symbol, quote) entries.
 */
module Buckets {
  import opened Optional
  import opened Symbols

  /**
   * One quote dictionary. `bid`, `ask` and `qty` may be absent; `symbol` is the
   * quote's own symbol field, read when an opportunity is built.
   */
  datatype Quote = Quote(symbol: string, bid: Option<real>, ask: Option<real>, qty: Option<int>)

  /** The `{'call': …, 'put': …}` pair of one strike; `None` is the empty dictionary. */
  datatype Bucket = Bucket(call: Option<Quote>, put: Option<Quote>)

  type Entry = (string, Quote)

  const EmptyBucket := Bucket(None, None)

  /** The slot of a bucket that a classification names. */
  function SlotOf(b: Bucket, slot: Slot): Option<Quote> {
    match slot
    case CallSlot => b.call
    case PutSlot => b.put
    case NoSlot => None
  }

  /** Entry `e` is filed under strike `k` in slot `slot`. */
  predicate Files(e: Entry, k: int, slot: Slot) {
    ExtractStrike(e.0) == k && Classify(e.0) == slot
  }

  /** Files `q` in the slot its symbol selects, overwriting what was there. */
  function Place(b: Bucket, symbol: string, q: Quote): Bucket {
    match Classify(symbol)
    case CallSlot => b.(call := Some(q))
    case PutSlot => b.(put := Some(q))
    case NoSlot => b
  }

  /** One iteration of the loop in `group_options_by_strike`. */
  function AddEntry(m: map<int, Bucket>, e: Entry): map<int, Bucket> {
    var k := ExtractStrike(e.0);
    if k > 0 then
      var b := if k in m then m[k] else EmptyBucket;
      m[k := Place(b, e.0, e.1)]
    else m
  }

  /** `group_options_by_strike`: the entries folded into buckets in snapshot order. */
  function Group(entries: seq<Entry>): map<int, Bucket> {
    if |entries| == 0 then map[]
    else AddEntry(Group(entries[..|entries| - 1]), entries[|entries| - 1])
  }

  /**
   * The keys are exactly the positive strikes of the snapshot's symbols (a
   * bucket is created even when the symbol names neither slot).
   */
  lemma {:induction false} GroupKeys(entries: seq<Entry>)
    ensures forall k :: k in Group(entries) <==> k > 0 && exists i :: 0 <= i < |entries| && ExtractStrike(entries[i].0) == k
  {
    if |entries| > 0 {
      var prefix := entries[..|entries| - 1];
      GroupKeys(prefix);
      assert forall i :: 0 <= i < |prefix| ==> prefix[i] == entries[i];
    }
  }

  lemma GroupStep(entries: seq<Entry>, k: int, slot: Slot)
    requires |entries| > 0 && slot != NoSlot
    requires k in Group(entries)
    ensures var prefix := entries[..|entries| - 1];
            var last := entries[|entries| - 1];
            if Files(last, k, slot) then SlotOf(Group(entries)[k], slot) == Some(last.1)
            else if k in Group(prefix) then SlotOf(Group(entries)[k], slot) == SlotOf(Group(prefix)[k], slot)
            else SlotOf(Group(entries)[k], slot) == None
  {
    GroupKeys(entries);
  }

  /** A strike missing from the grouped prefix has no entry in that prefix. */
  lemma AbsentStrikeHasNoEntry(entries: seq<Entry>, k: int, slot: Slot)
    requires k > 0 && k !in Group(entries)
    ensures forall i :: 0 <= i < |entries| ==> !Files(entries[i], k, slot)
  {
    GroupKeys(entries);
  }

  /** The slot of a strike is empty exactly when no entry is filed there. */
  lemma {:induction false} GroupSlotEmpty(entries: seq<Entry>, k: int, slot: Slot)
    requires slot != NoSlot
    requires k in Group(entries)
    ensures SlotOf(Group(entries)[k], slot) == None <==> forall i :: 0 <= i < |entries| ==> !Files(entries[i], k, slot)
  {
    var n := |entries|;
    var prefix := entries[..n - 1];
    var last := entries[n - 1];
    GroupStep(entries, k, slot);
    assert forall i :: 0 <= i < n - 1 ==> prefix[i] == entries[i];
    if !Files(last, k, slot) {
      if k in Group(prefix) {
        GroupSlotEmpty(prefix, k, slot);
      } else {
        AbsentStrikeHasNoEntry(prefix, k, slot);
      }
    }
  }

  /** The slot of a strike holds the quote of the LAST entry filed there. */
  lemma {:induction false} GroupSlotIsLastFiled(entries: seq<Entry>, k: int, slot: Slot, i: nat)
    requires slot != NoSlot
    requires k in Group(entries)
    requires i < |entries| && Files(entries[i], k, slot)
    requires forall j :: i < j < |entries| ==> !Files(entries[j], k, slot)
    ensures SlotOf(Group(entries)[k], slot) == Some(entries[i].1)
  {
    var n := |entries|;
    var prefix := entries[..n - 1];
    GroupStep(entries, k, slot);
    if i < n - 1 {
      assert !Files(entries[n - 1], k, slot);
      assert prefix[i] == entries[i];
      GroupKeys(prefix);
      assert k in Group(prefix);
      assert forall j :: i < j < |prefix| ==> prefix[j] == entries[j];
      GroupSlotIsLastFiled(prefix, k, slot, i);
    }
  }
}
