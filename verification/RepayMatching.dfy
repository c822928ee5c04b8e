/** Matching interest rows to the terminal repayment that settles them, and their USDT value.
    Amounts and prices are exact rationals; `None` stands for missing or unparseable. */
module RepayMatching {
  import opened Options

  datatype RepayRecord = RepayRecord(
    requestId: string, asset: string, amount: string, status: string,
    updateTimeMs: Option<int>, updatedAtUs: Option<int>, repayPrice: Option<real>)

  /** `update_time` when it parses, else the row's own update time in whole milliseconds. */
  function SettlementMs(r: RepayRecord): Option<int> {
    if r.updateTimeMs.Some? then r.updateTimeMs
    else if r.updatedAtUs.Some? then Some(r.updatedAtUs.value / 1000)
    else None
  }

  predicate IsTerminal(r: RepayRecord) {
    r.amount == "0" && r.status == "succeeded"
  }

  predicate Indexed(r: RepayRecord) {
    IsTerminal(r) && SettlementMs(r).Some?
  }

  // -------------------------------------------------------------------- ordering

  /** Text order by code point. */
  predicate TextLe(a: string, b: string) {
    a == "" || (b != "" && (a[0] < b[0] || (a[0] == b[0] && TextLe(a[1..], b[1..]))))
  }

  lemma TextTotal(a: string, b: string)
    ensures TextLe(a, b) || TextLe(b, a)
    ensures TextLe(a, b) && TextLe(b, a) ==> a == b
  {
    if a != "" && b != "" {
      TextTotal(a[1..], b[1..]);
      assert a == [a[0]] + a[1..] && b == [b[0]] + b[1..];
    }
  }

  lemma TextTransitive(a: string, b: string, c: string)
    requires TextLe(a, b) && TextLe(b, c)
    ensures TextLe(a, c)
  {
    if a != "" && a[0] == b[0] && b[0] == c[0] {
      TextTransitive(a[1..], b[1..], c[1..]);
    }
  }

  /** Settlement time first, request id on a tie. */
  predicate KeyLe(a: RepayRecord, b: RepayRecord)
    requires SettlementMs(a).Some? && SettlementMs(b).Some?
  {
    SettlementMs(a).value < SettlementMs(b).value
    || (SettlementMs(a).value == SettlementMs(b).value && TextLe(a.requestId, b.requestId))
  }

  lemma KeyTotal(a: RepayRecord, b: RepayRecord)
    requires SettlementMs(a).Some? && SettlementMs(b).Some?
    ensures KeyLe(a, b) || KeyLe(b, a)
    ensures KeyLe(a, b) && KeyLe(b, a) ==> a.requestId == b.requestId
  {
    TextTotal(a.requestId, b.requestId);
  }

  lemma KeyTransitive(a: RepayRecord, b: RepayRecord, c: RepayRecord)
    requires SettlementMs(a).Some? && SettlementMs(b).Some? && SettlementMs(c).Some?
    requires KeyLe(a, b) && KeyLe(b, c)
    ensures KeyLe(a, c)
  {
    if SettlementMs(a) == SettlementMs(b) && SettlementMs(b) == SettlementMs(c) {
      TextTransitive(a.requestId, b.requestId, c.requestId);
    }
  }

  // ----------------------------------------------------------------------- index

  function Insert(r: RepayRecord, s: seq<RepayRecord>): seq<RepayRecord>
    requires SettlementMs(r).Some? && forall x | x in s :: SettlementMs(x).Some?
  {
    if s == [] || KeyLe(r, s[0]) then [r] + s else [s[0]] + Insert(r, s[1..])
  }

  /** The stable ascending sort of one asset's entries. */
  function Sorted(s: seq<RepayRecord>): (r: seq<RepayRecord>)
    requires forall x | x in s :: SettlementMs(x).Some?
    ensures forall x | x in r :: SettlementMs(x).Some?
  {
    if s == [] then []
    else
      InsertIn(s[0], Sorted(s[1..]));
      Insert(s[0], Sorted(s[1..]))
  }

  lemma {:induction false} InsertIn(r: RepayRecord, s: seq<RepayRecord>)
    requires SettlementMs(r).Some? && forall x | x in s :: SettlementMs(x).Some?
    ensures forall x :: x in Insert(r, s) <==> x == r || x in s
  {
    if s != [] && !KeyLe(r, s[0]) {
      InsertIn(r, s[1..]);
      assert s == [s[0]] + s[1..];
    }
  }

  ghost predicate Ascending(s: seq<RepayRecord>)
    requires forall x | x in s :: SettlementMs(x).Some?
  {
    forall i, j | 0 <= i < j < |s| :: KeyLe(s[i], s[j])
  }

  lemma {:induction false} InsertAscends(r: RepayRecord, s: seq<RepayRecord>)
    requires SettlementMs(r).Some? && forall x | x in s :: SettlementMs(x).Some?
    requires Ascending(s)
    ensures (forall x | x in Insert(r, s) :: SettlementMs(x).Some?) && Ascending(Insert(r, s))
  {
    InsertIn(r, s);
    if s != [] && KeyLe(r, s[0]) {
      forall j | 0 < j < |s| ensures KeyLe(r, s[j]) {
        KeyTransitive(r, s[0], s[j]);
      }
    } else if s != [] {
      InsertAscends(r, s[1..]);
      InsertIn(r, s[1..]);
      KeyTotal(r, s[0]);
      var t := Insert(r, s[1..]);
      forall j | 0 <= j < |t| ensures KeyLe(s[0], t[j]) {
        assert t[j] in t;
      }
    }
  }

  lemma {:induction false} SortedAscends(s: seq<RepayRecord>)
    requires forall x | x in s :: SettlementMs(x).Some?
    ensures Ascending(Sorted(s)) && forall x :: x in Sorted(s) <==> x in s
  {
    if s != [] {
      SortedAscends(s[1..]);
      InsertAscends(s[0], Sorted(s[1..]));
      InsertIn(s[0], Sorted(s[1..]));
      assert s == [s[0]] + s[1..];
    }
  }

  /** The indexed records of one asset, in input order. */
  function Group(records: seq<RepayRecord>, asset: string): (r: seq<RepayRecord>)
    ensures forall x | x in r :: SettlementMs(x).Some?
  {
    if records == [] then []
    else
      var n := |records| - 1;
      var before := Group(records[..n], asset);
      if Indexed(records[n]) && records[n].asset == asset then before + [records[n]] else before
  }

  lemma {:induction false} GroupIn(records: seq<RepayRecord>, asset: string, x: RepayRecord)
    ensures x in Group(records, asset) <==> x in records && Indexed(x) && x.asset == asset
  {
    if records != [] {
      var n := |records| - 1;
      GroupIn(records[..n], asset, x);
      assert records == records[..n] + [records[n]];
    }
  }

  type Index = map<string, seq<RepayRecord>>

  ghost predicate IndexFor(index: Index, records: seq<RepayRecord>) {
    && (forall a | a in index :: index[a] == Sorted(Group(records, a)))
    && (forall a | a !in index :: Group(records, a) == [])
  }

  lemma GroupSnoc(records: seq<RepayRecord>, i: nat, asset: string)
    requires i < |records|
    ensures Group(records[..i + 1], asset) ==
      if Indexed(records[i]) && records[i].asset == asset then Group(records[..i], asset) + [records[i]]
      else Group(records[..i], asset)
  {
    assert records[..i + 1][..i] == records[..i];
  }

  /** `setdefault`: a missing group is empty. */
  function Get(grouped: map<string, seq<RepayRecord>>, asset: string): seq<RepayRecord> {
    if asset in grouped then grouped[asset] else []
  }

  /** Groups the terminal records by asset and sorts every group. */
  method BuildRepayMatchIndex(records: seq<RepayRecord>) returns (index: Index)
    ensures IndexFor(index, records)
  {
    var grouped: map<string, seq<RepayRecord>> := map[];
    for i := 0 to |records|
      invariant forall a :: Get(grouped, a) == Group(records[..i], a)
    {
      var r := records[i];
      ghost var before := grouped;
      if Indexed(r) {
        grouped := grouped[r.asset := Get(grouped, r.asset) + [r]];
      }
      forall a ensures Get(grouped, a) == Group(records[..i + 1], a) {
        GroupSnoc(records, i, a);
        assert Get(before, a) == Group(records[..i], a);
      }
    }
    assert records[..|records|] == records;
    forall a | a in grouped ensures grouped[a] == Group(records, a) {
      assert Get(grouped, a) == Group(records, a);
    }
    forall a | a !in grouped ensures Group(records, a) == [] {
      assert Get(grouped, a) == Group(records, a);
    }
    index := map a | a in grouped :: Sorted(grouped[a]);
  }

  // -------------------------------------------------------------------- matching

  predicate SettlesAtOrAfter(r: RepayRecord, accruedMs: int) {
    SettlementMs(r).Some? && SettlementMs(r).value >= accruedMs
  }

  function FirstSettled(entries: seq<RepayRecord>, accruedMs: int): Option<RepayRecord> {
    if entries == [] then None
    else if SettlesAtOrAfter(entries[0], accruedMs) then Some(entries[0])
    else FirstSettled(entries[1..], accruedMs)
  }

  /** The match of an interest row against the record list: `None` is the open bucket. */
  function MatchOf(records: seq<RepayRecord>, asset: Option<string>, accruedMs: Option<int>): Option<RepayRecord> {
    if asset.None? || accruedMs.None? then None
    else FirstSettled(Sorted(Group(records, asset.value)), accruedMs.value)
  }

  method MatchInterestRepay(asset: Option<string>, accruedMs: Option<int>, index: Index, ghost records: seq<RepayRecord>)
    returns (r: Option<RepayRecord>)
    requires IndexFor(index, records)
    ensures r == MatchOf(records, asset, accruedMs)
  {
    if asset.None? || asset.value !in index || accruedMs.None? {
      return None;
    }
    var entries := index[asset.value];
    for i := 0 to |entries|
      invariant FirstSettled(entries, accruedMs.value) == FirstSettled(entries[i..], accruedMs.value)
    {
      if SettlesAtOrAfter(entries[i], accruedMs.value) {
        return Some(entries[i]);
      }
    }
    return None;
  }

  /** A record that could settle the row. */
  predicate Candidate(r: RepayRecord, asset: string, accruedMs: int) {
    Indexed(r) && r.asset == asset && SettlesAtOrAfter(r, accruedMs)
  }

  lemma {:induction false} FirstSettledIsLeast(entries: seq<RepayRecord>, accruedMs: int)
    requires (forall x | x in entries :: SettlementMs(x).Some?) && Ascending(entries)
    ensures
      var m := FirstSettled(entries, accruedMs);
      && (m.None? ==> forall x | x in entries :: !SettlesAtOrAfter(x, accruedMs))
      && (m.Some? ==> m.value in entries && SettlesAtOrAfter(m.value, accruedMs)
                      && forall x | x in entries && SettlesAtOrAfter(x, accruedMs) :: KeyLe(m.value, x))
  {
    if entries != [] {
      KeyTotal(entries[0], entries[0]);
      if !SettlesAtOrAfter(entries[0], accruedMs) {
        FirstSettledIsLeast(entries[1..], accruedMs);
      }
      assert entries == [entries[0]] + entries[1..];
    }
  }

  /** The match is the candidate with the least (settlement time, request id); there is none
      exactly when there is no candidate. */
  lemma MatchIsLeast(records: seq<RepayRecord>, asset: string, accruedMs: int)
    ensures
      var m := MatchOf(records, Some(asset), Some(accruedMs));
      && (m.None? <==> forall x | x in records :: !Candidate(x, asset, accruedMs))
      && (m.Some? ==> m.value in records && Candidate(m.value, asset, accruedMs)
                      && forall x | x in records && Candidate(x, asset, accruedMs) :: KeyLe(m.value, x))
  {
    var group := Group(records, asset);
    SortedAscends(group);
    FirstSettledIsLeast(Sorted(group), accruedMs);
    forall x ensures x in Sorted(group) <==> x in records && Indexed(x) && x.asset == asset {
      GroupIn(records, asset, x);
    }
  }

  /** Request ids are primary keys. */
  ghost predicate DistinctIds(records: seq<RepayRecord>) {
    forall x, y | x in records && y in records && x.requestId == y.requestId :: x == y
  }

  /** The match does not depend on the order the records are read in. */
  lemma MatchIgnoresOrder(a: seq<RepayRecord>, b: seq<RepayRecord>, asset: string, accruedMs: int)
    requires DistinctIds(a) && forall x :: x in a <==> x in b
    ensures MatchOf(a, Some(asset), Some(accruedMs)) == MatchOf(b, Some(asset), Some(accruedMs))
  {
    MatchIsLeast(a, asset, accruedMs);
    MatchIsLeast(b, asset, accruedMs);
    var ma, mb := MatchOf(a, Some(asset), Some(accruedMs)), MatchOf(b, Some(asset), Some(accruedMs));
    if ma.Some? && mb.Some? {
      KeyTotal(ma.value, mb.value);
    }
  }

  /** A further repayment changes a row's match exactly when it is a candidate that comes before
      the match there was, or there was none. */
  lemma MatchChangesExactly(records: seq<RepayRecord>, extra: RepayRecord, asset: string, accruedMs: int)
    requires DistinctIds(records + [extra]) && extra !in records
    ensures
      var m := MatchOf(records, Some(asset), Some(accruedMs));
      var m' := MatchOf(records + [extra], Some(asset), Some(accruedMs));
      m' != m <==> Candidate(extra, asset, accruedMs) && (m.None? || (SettlementMs(m.value).Some? && !KeyLe(m.value, extra)))
  {
    MatchIsLeast(records, asset, accruedMs);
    MatchIsLeast(records + [extra], asset, accruedMs);
    var m := MatchOf(records, Some(asset), Some(accruedMs));
    var m' := MatchOf(records + [extra], Some(asset), Some(accruedMs));
    assert extra in records + [extra];
    assert forall x :: x in records + [extra] <==> x in records || x == extra;
    if m.Some? && m'.Some? {
      assert m.value in records + [extra] && m'.value in records + [extra];
      KeyTotal(m.value, m'.value);
    }
  }

  // ------------------------------------------------------------------- valuation

  function Times(a: real, b: real): real {
    a * b
  }

  /** Interest in USDT: an open row at the current price, a matched row at the stored repayment
      price; USDT amounts and true zeros need no price. */
  function InterestUsdtValue(interest: Option<real>, asset: Option<string>, matched: Option<RepayRecord>,
                             prices: map<string, real>): Option<real>
  {
    if interest.None? || asset.None? || asset.value == "" then None
    else if asset.value == "USDT" || interest.value == 0.0 then interest
    else
      var price := if matched.Some? then matched.value.repayPrice
                   else if asset.value + "USDT" in prices then Some(prices[asset.value + "USDT"])
                   else None;
      if price.None? then None else Some(Times(interest.value, price.value))
  }

  lemma MatchedIgnoresPrices(interest: Option<real>, asset: Option<string>, m: RepayRecord,
                             prices: map<string, real>, prices': map<string, real>)
    ensures InterestUsdtValue(interest, asset, Some(m), prices') == InterestUsdtValue(interest, asset, Some(m), prices)
  {
  }

  /** A row's value is frozen: with a match in place, neither a repayment settling later than the
      match or before the accrual, nor any price move, changes it. */
  lemma MatchedValueIsFrozen(records: seq<RepayRecord>, extra: RepayRecord, asset: string, accruedMs: int,
                             interest: Option<real>, prices: map<string, real>, prices': map<string, real>)
    requires DistinctIds(records + [extra]) && extra !in records
    requires MatchOf(records, Some(asset), Some(accruedMs)).Some?
    requires
      var m := MatchOf(records, Some(asset), Some(accruedMs)).value;
      SettlementMs(extra).Some? ==>
        SettlementMs(extra).value < accruedMs
        || (SettlementMs(m).Some? && SettlementMs(extra).value > SettlementMs(m).value)
    ensures
      var m := MatchOf(records, Some(asset), Some(accruedMs));
      var m' := MatchOf(records + [extra], Some(asset), Some(accruedMs));
      m' == m && InterestUsdtValue(interest, Some(asset), m', prices') == InterestUsdtValue(interest, Some(asset), m, prices)
  {
    MatchIsLeast(records, asset, accruedMs);
    MatchChangesExactly(records, extra, asset, accruedMs);
    var m := MatchOf(records, Some(asset), Some(accruedMs));
    assert Candidate(m.value, asset, accruedMs);
    if Candidate(extra, asset, accruedMs) {
      assert KeyLe(m.value, extra);
    }
    MatchedIgnoresPrices(interest, Some(asset), m.value, prices, prices');
  }

  /** A repayment that ends an asset's interest at or after the accrual, by its own fields. */
  predicate Settles(r: RepayRecord, asset: string, accruedMs: int) {
    && r.asset == asset && r.amount == "0" && r.status == "succeeded"
    && (r.updateTimeMs.Some? || r.updatedAtUs.Some?)
    && SettledAt(r) >= accruedMs
  }

  /** Its settlement time: the exchange's time in milliseconds, else its own in whole milliseconds. */
  function SettledAt(r: RepayRecord): int {
    if r.updateTimeMs.Some? then r.updateTimeMs.value
    else if r.updatedAtUs.Some? then (r.updatedAtUs.value - r.updatedAtUs.value % 1000) / 1000
    else 0
  }

  /** The first repayment that settles the row: earliest, the lower request id on a tie. */
  ghost predicate SettlesFirst(m: RepayRecord, records: seq<RepayRecord>, asset: string, accruedMs: int) {
    && m in records && Settles(m, asset, accruedMs)
    && forall x | x in records && Settles(x, asset, accruedMs) ::
         SettledAt(m) < SettledAt(x) || (SettledAt(m) == SettledAt(x) && TextLe(m.requestId, x.requestId))
  }

  lemma CandidateSettles(r: RepayRecord, asset: string, accruedMs: int)
    ensures Candidate(r, asset, accruedMs) <==> Settles(r, asset, accruedMs)
    ensures Candidate(r, asset, accruedMs) ==> SettlementMs(r) == Some(SettledAt(r))
  {
  }

  /** `a` ends at `k`, or is lower there, and agrees with `b` before. */
  ghost predicate FirstDifference(a: string, b: string, k: int) {
    0 <= k <= |a| && k <= |b| && a[..k] == b[..k] && (k == |a| || (k < |b| && a[k] < b[k]))
  }

  /** Text order: a prefix, or lower at the first difference. */
  lemma {:induction false} TextOrder(a: string, b: string)
    ensures TextLe(a, b) <==> exists k :: FirstDifference(a, b, k)
  {
    if a == "" {
      assert FirstDifference(a, b, 0);
    } else if b != "" {
      TextOrder(a[1..], b[1..]);
      if a[0] < b[0] {
        assert FirstDifference(a, b, 0);
      } else if a[0] == b[0] {
        TextTails(a, b);
      } else {
        forall k | 0 < k <= |a| && k <= |b| ensures a[..k] != b[..k] {
          assert a[..k][0] != b[..k][0];
        }
      }
    }
  }

  lemma TextTails(a: string, b: string)
    requires a != "" && b != "" && a[0] == b[0]
    ensures (exists k :: FirstDifference(a, b, k)) <==> exists k :: FirstDifference(a[1..], b[1..], k)
  {
    forall k | FirstDifference(a, b, k) ensures FirstDifference(a[1..], b[1..], k - 1) {
      assert k > 0;
      assert a[1..][..k - 1] == a[..k][1..] && b[1..][..k - 1] == b[..k][1..];
    }
    forall k | FirstDifference(a[1..], b[1..], k) ensures FirstDifference(a, b, k + 1) {
      assert a[..k + 1] == [a[0]] + a[1..][..k] && b[..k + 1] == [b[0]] + b[1..][..k];
    }
  }

  /** An interest row that a repayment settles is worth its interest at the price stored with the
      first such repayment, and nothing can be said of it when none was stored; a row that none
      settles is worth its interest at the current price. */
  lemma SettledRowAtStoredPrice(records: seq<RepayRecord>, asset: string, accruedMs: int, interest: real,
                                prices: map<string, real>, m: RepayRecord)
    requires DistinctIds(records) && asset != "" && asset != "USDT" && interest != 0.0
    ensures
      var v := InterestUsdtValue(Some(interest), Some(asset), MatchOf(records, Some(asset), Some(accruedMs)), prices);
      && (SettlesFirst(m, records, asset, accruedMs) ==>
            v.Some? == m.repayPrice.Some? && (v.Some? && m.repayPrice.Some? ==> v.value == interest * m.repayPrice.value))
      && ((forall x | x in records :: !Settles(x, asset, accruedMs)) ==>
            v.Some? == (asset + "USDT" in prices) && (v.Some? && asset + "USDT" in prices ==> v.value == interest * prices[asset + "USDT"]))
  {
    MatchIsLeast(records, asset, accruedMs);
    forall x | x in records
      ensures Candidate(x, asset, accruedMs) <==> Settles(x, asset, accruedMs)
      ensures Candidate(x, asset, accruedMs) ==> SettlementMs(x) == Some(SettledAt(x))
    {
      CandidateSettles(x, asset, accruedMs);
    }
    if SettlesFirst(m, records, asset, accruedMs) {
      var found := MatchOf(records, Some(asset), Some(accruedMs)).value;
      KeyTotal(m, found);
    }
  }
}
