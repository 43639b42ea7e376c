/**
 * The simulated broker's trade records and its table of open trades.
 *
 * The open-trade table is a Python dict keyed by trade id; dicts keep
 * insertion order and `tick` walks the keys in that order, so the table is a
 * sequence of trades with distinct ids, with the dict operations written out.
 */
module SimLedger {
  import opened Wrappers

  /** One open simulated trade (the dict built in `open_order`). */
  datatype Trade = Trade(
    id: string,
    instrument: string,
    direction: string,
    volume: real,
    entryPrice: real,
    rawEntryPrice: real,
    tp: Option<real>,
    sl: Option<real>,
    openTime: real,
    commission: real)

  /** A trade after `close_order`, with the fields it adds on closing. */
  datatype ClosedTrade = ClosedTrade(
    trade: Trade,
    closePrice: real,
    closeTime: real,
    reason: string,
    pnlPips: real,
    pnlUsd: real,
    swap: real,
    netPnl: real)

  ghost predicate DistinctIds(open: seq<Trade>) {
    forall i, j :: 0 <= i < j < |open| ==> open[i].id != open[j].id
  }

  /** Position of the trade with key `id`, if any. */
  function IndexOf(open: seq<Trade>, id: string): (r: Option<nat>)
    ensures r.Some? ==> r.value < |open| && open[r.value].id == id
    ensures r.Some? ==> forall i :: 0 <= i < r.value ==> open[i].id != id
    ensures r.None? <==> forall i :: 0 <= i < |open| ==> open[i].id != id
    decreases |open|
  {
    if |open| == 0 then None
    else if open[0].id == id then Some(0)
    else match IndexOf(open[1..], id)
      case None => None
      case Some(k) => Some(k + 1)
  }

  /** `open.get(id)`. */
  function Find(open: seq<Trade>, id: string): (r: Option<Trade>)
    ensures r.Some? <==> exists i :: 0 <= i < |open| && open[i].id == id
    ensures r.Some? ==> r.value in open && r.value.id == id
  {
    match IndexOf(open, id)
    case None => None
    case Some(k) => Some(open[k])
  }

  /** `list(open.keys())`. */
  function Keys(open: seq<Trade>): (ks: seq<string>)
    ensures |ks| == |open|
    ensures forall i :: 0 <= i < |open| ==> ks[i] == open[i].id
  {
    seq(|open|, i requires 0 <= i < |open| => open[i].id)
  }

  /** `open.pop(id, None)`: the entry with key `id` leaves, every other entry stays in order. */
  function Remove(open: seq<Trade>, id: string): (r: seq<Trade>)
    requires DistinctIds(open)
    ensures DistinctIds(r)
    ensures Find(r, id).None?
    ensures forall k :: k != id ==> Find(r, k) == Find(open, k)
    ensures Find(open, id).Some? ==> |r| == |open| - 1
    ensures Find(open, id).None? ==> r == open
    ensures forall t :: t in r ==> t in open
  {
    match IndexOf(open, id)
    case None => open
    case Some(k) =>
      var r := open[..k] + open[k + 1..];
      assert forall i :: 0 <= i < |r| ==> r[i] == (if i < k then open[i] else open[i + 1]);
      FindRemoved(open, k, r);
      r
  }

  lemma FindRemoved(open: seq<Trade>, k: nat, r: seq<Trade>)
    requires DistinctIds(open) && k < |open|
    requires r == open[..k] + open[k + 1..]
    ensures DistinctIds(r)
    ensures Find(r, open[k].id).None?
    ensures forall key :: key != open[k].id ==> Find(r, key) == Find(open, key)
  {
    assert forall i :: 0 <= i < k ==> r[i] == open[i];
    assert forall i :: k <= i < |r| ==> r[i] == open[i + 1];
    forall key | key != open[k].id
      ensures Find(r, key) == Find(open, key)
    {
      FindRemovedOther(open, k, r, key);
    }
  }

  /** A key other than the removed one is found at the same trade before and after the removal. */
  lemma FindRemovedOther(open: seq<Trade>, k: nat, r: seq<Trade>, key: string)
    requires DistinctIds(open) && k < |open|
    requires |r| == |open| - 1
    requires forall i :: 0 <= i < k ==> r[i] == open[i]
    requires forall i :: k <= i < |r| ==> r[i] == open[i + 1]
    requires key != open[k].id
    ensures Find(r, key) == Find(open, key)
  {
    match IndexOf(open, key)
    case None =>
      forall i | 0 <= i < |r| ensures r[i].id != key {
        if i < k { assert r[i] == open[i]; } else { assert r[i] == open[i + 1]; }
      }
    case Some(j) =>
      assert j != k;
      var j' := if j < k then j else j - 1;
      assert r[j'] == open[j];
      match IndexOf(r, key)
      case None =>
      case Some(m) =>
        var m' := if m < k then m else m + 1;
        assert open[m'] == r[m];
  }

  /** `open[t.id] = t`: replaces the entry in place when the key exists, appends otherwise. */
  function Put(open: seq<Trade>, t: Trade): (r: seq<Trade>)
    requires DistinctIds(open)
    ensures DistinctIds(r)
    ensures Find(r, t.id) == Some(t)
    ensures forall k :: k != t.id ==> Find(r, k) == Find(open, k)
    ensures Find(open, t.id).None? ==> r == open + [t]
    ensures Find(open, t.id).Some? ==> |r| == |open| && Keys(r) == Keys(open)
  {
    match IndexOf(open, t.id)
    case None =>
      var r := open + [t];
      FindAppended(open, t);
      r
    case Some(k) =>
      var r := open[k := t];
      FindReplaced(open, k, t);
      r
  }

  lemma FindAppended(open: seq<Trade>, t: Trade)
    requires DistinctIds(open) && IndexOf(open, t.id).None?
    ensures DistinctIds(open + [t])
    ensures Find(open + [t], t.id) == Some(t)
    ensures forall k :: k != t.id ==> Find(open + [t], k) == Find(open, k)
  {
    var r := open + [t];
    forall k | k != t.id
      ensures Find(r, k) == Find(open, k)
    {
      match IndexOf(open, k)
      case None =>
      case Some(j) =>
        assert r[j] == open[j];
        match IndexOf(r, k)
        case None =>
        case Some(m) =>
          assert m < |open|;
          assert open[m] == r[m];
    }
    assert r[|open|].id == t.id;
    assert forall i :: 0 <= i < |open| ==> r[i] == open[i];
    assert IndexOf(r, t.id).value == |open|;
  }

  lemma FindReplaced(open: seq<Trade>, k: nat, t: Trade)
    requires DistinctIds(open) && k < |open| && open[k].id == t.id
    ensures DistinctIds(open[k := t])
    ensures Find(open[k := t], t.id) == Some(t)
    ensures forall key :: key != t.id ==> Find(open[k := t], key) == Find(open, key)
    ensures Keys(open[k := t]) == Keys(open)
  {
    var r := open[k := t];
    assert r[k].id == t.id;
    assert forall i :: 0 <= i < |r| && i != k ==> r[i] == open[i];
    assert IndexOf(r, t.id).value == k;
    forall key | key != t.id
      ensures Find(r, key) == Find(open, key)
    {
      FindReplacedOther(open, k, t, key);
    }
  }

  /** A key other than the replaced one is found at the same trade before and after the replacement. */
  lemma FindReplacedOther(open: seq<Trade>, k: nat, t: Trade, key: string)
    requires DistinctIds(open) && k < |open| && open[k].id == t.id && key != t.id
    ensures Find(open[k := t], key) == Find(open, key)
  {
    var r := open[k := t];
    match IndexOf(open, key)
    case None =>
      forall i | 0 <= i < |r| ensures r[i].id != key {
        if i != k { assert r[i] == open[i]; }
      }
    case Some(j) =>
      assert r[j] == open[j];
      match IndexOf(r, key)
      case None =>
      case Some(m) =>
        assert open[m] == r[m];
  }

  /** A key is listed exactly when a trade is filed under it. */
  lemma KeysListed(open: seq<Trade>, k: string)
    ensures k in Keys(open) <==> Find(open, k).Some?
  {
    if k in Keys(open) {
      var i :| 0 <= i < |Keys(open)| && Keys(open)[i] == k;
      assert open[i].id == k;
    }
  }

  /** A ledger in which no key finds a trade is empty. */
  lemma NothingFiled(open: seq<Trade>)
    ensures (forall k :: Find(open, k).None?) ==> open == []
  {
    if open != [] {
      assert Find(open, open[0].id).Some?;
    }
  }
}
