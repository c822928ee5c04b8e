/** What the drift marker of a reverse row means, over the buckets and the account's own fields. */
module PositionsDrift {
  import opened Options
  import opened HedgeLegs
  import opened PositionsMerge

  /** The bucket records an open reverse cycle of `base`. */
  predicate OpenReverse(b: Bucket, base: string, assets: map<string, string>) {
    && b.direction == Reverse && b.closedAt.None?
    && base != "" && BaseAsset(Some(b.coin), Some(b), assets) == base
  }

  predicate Known(n: Num) {
    n.Some? && n.value >= 0.0
  }

  /** Quantity sold over all open reverse cycles of `base`. */
  function Sold(buckets: seq<Bucket>, base: string, assets: map<string, string>): real {
    if buckets == [] then 0.0
    else
      var b := buckets[|buckets| - 1];
      Sold(buckets[..|buckets| - 1], base, assets)
        + (if OpenReverse(b, base, assets) && Known(b.spotQty) then b.spotQty.value else 0.0)
  }

  ghost predicate AllKnown(buckets: seq<Bucket>, base: string, assets: map<string, string>) {
    forall b | b in buckets && OpenReverse(b, base, assets) :: Known(b.spotQty)
  }

  /** Every input can be read, and what was sold exceeds what the account owes, net of what it
      holds, by more than a hundredth of what was sold. */
  ghost predicate Drifts(buckets: seq<Bucket>, base: string, account: Account, assets: map<string, string>) {
    && account.verified && AllKnown(buckets, base, assets) && base in account.unified
    && var u := account.unified[base];
    && Known(u.borrowed) && Known(u.free) && Known(u.locked)
    && var owed := u.borrowed.value - u.free.value - u.locked.value;
       100.0 * (Sold(buckets, base, assets) - (if owed > 0.0 then owed else 0.0)) > Sold(buckets, base, assets)
  }

  // ------------------------------------------------------------ rows and their buckets

  /** A row is about its bucket: same symbol, same direction; a row without one is about a position. */
  ghost predicate RowFits(r: Row) {
    && (r.bucket.Some? ==> r.coin == Some(r.bucket.value.coin) && r.direction == Some(r.bucket.value.direction))
    && (r.bucket.None? ==> r.um.Some?)
  }

  lemma AssembledFit(positions: seq<Bucket>, a: Account, assets: map<string, string>, r: Row)
    requires r in Assembled(positions, a, assets)
    ensures RowFits(r)
  {
    if r in Leftover(positions, Matched(positions, a.um), a, assets) {
      LeftoverRows(positions, Matched(positions, a.um), a, assets, r);
    } else {
      SkeletonRows(positions, a.um, a, assets, r);
      var u :| u in a.um && r == SkeletonRow(positions, u, a, assets);
      ChooseIsLatest(positions, u);
    }
  }

  ghost predicate AllFit(rows: seq<Row>) {
    forall i | 0 <= i < |rows| :: RowFits(rows[i])
  }

  lemma GroupIsOpenReverse(r: Row, base: string, assets: map<string, string>)
    requires RowFits(r)
    ensures InGroupOf(r, base, assets) <==> r.bucket.Some? && OpenReverse(r.bucket.value, base, assets)
  {
  }

  lemma SoldSnoc(buckets: seq<Bucket>, b: Bucket, base: string, assets: map<string, string>)
    ensures Sold(buckets + [b], base, assets) ==
            Sold(buckets, base, assets) + if OpenReverse(b, base, assets) && Known(b.spotQty) then b.spotQty.value else 0.0
  {
    assert (buckets + [b])[..|buckets|] == buckets;
  }

  lemma {:induction false} RecordedIsSold(rows: seq<Row>, base: string, assets: map<string, string>)
    requires AllFit(rows)
    ensures Recorded(rows, base, assets) == Sold(BucketsOf(rows), base, assets)
    ensures AllReadable(rows, base, assets) <==> AllKnown(BucketsOf(rows), base, assets)
  {
    if rows != [] {
      var init, r := rows[..|rows| - 1], rows[|rows| - 1];
      assert rows == init + [r];
      RecordedIsSold(init, base, assets);
      GroupIsOpenReverse(r, base, assets);
      RecordedSnoc(init, r, base, assets);
      BucketsSnoc(init, r);
      if r.bucket.Some? {
        SoldSnoc(BucketsOf(init), r.bucket.value, base, assets);
      } else {
        assert BucketsOf(init) + [] == BucketsOf(init);
      }
    }
  }

  // ------------------------------------------------------------------- reordering

  lemma {:induction false} SoldConcat(x: seq<Bucket>, y: seq<Bucket>, base: string, assets: map<string, string>)
    ensures Sold(x + y, base, assets) == Sold(x, base, assets) + Sold(y, base, assets)
  {
    if y == [] {
      assert x + y == x;
    } else {
      var n := |y| - 1;
      SoldConcat(x, y[..n], base, assets);
      assert x + y == (x + y[..n]) + [y[n]] && y == y[..n] + [y[n]];
      SoldSnoc(x + y[..n], y[n], base, assets);
    }
  }

  lemma DropsOne(y: seq<Bucket>, i: nat)
    requires i < |y|
    ensures multiset(y[..i] + y[i + 1..]) == multiset(y) - multiset{y[i]}
  {
    assert y == y[..i] + [y[i]] + y[i + 1..];
  }

  lemma {:induction false} SoldDrops(y: seq<Bucket>, i: nat, base: string, assets: map<string, string>)
    requires i < |y|
    ensures Sold(y, base, assets) == Sold(y[..i] + y[i + 1..], base, assets) + Sold([y[i]], base, assets)
  {
    assert y == y[..i] + [y[i]] + y[i + 1..];
    SoldConcat(y[..i], y[i + 1..], base, assets);
    SoldConcat(y[..i], [y[i]], base, assets);
    SoldConcat(y[..i] + [y[i]], y[i + 1..], base, assets);
  }

  /** The sum does not depend on the order of the buckets. */
  lemma {:induction false} SoldPermutes(x: seq<Bucket>, y: seq<Bucket>, base: string, assets: map<string, string>)
    requires multiset(x) == multiset(y)
    ensures Sold(x, base, assets) == Sold(y, base, assets)
    decreases |x|
  {
    if x == [] {
      assert |multiset(y)| == 0;
    } else {
      assert x[0] in multiset(y);
      var i :| 0 <= i < |y| && y[i] == x[0];
      DropsOne(x, 0);
      DropsOne(y, i);
      SoldDrops(x, 0, base, assets);
      SoldDrops(y, i, base, assets);
      SoldPermutes(x[..0] + x[1..], y[..i] + y[i + 1..], base, assets);
    }
  }

  lemma SameBuckets(x: seq<Bucket>, y: seq<Bucket>, base: string, assets: map<string, string>)
    requires multiset(x) == multiset(y)
    ensures Sold(x, base, assets) == Sold(y, base, assets)
    ensures AllKnown(x, base, assets) <==> AllKnown(y, base, assets)
  {
    SoldPermutes(x, y, base, assets);
    forall b ensures b in x <==> b in y {
      assert b in multiset(x) <==> b in multiset(y);
    }
  }

  // --------------------------------------------------------------------- the law

  lemma VerdictIsDrift(rows: seq<Row>, base: string, account: Account, assets: map<string, string>)
    requires AllFit(rows)
    ensures AssetVerdict(rows, base, Usable(account), assets) == Some(true) <==> Drifts(BucketsOf(rows), base, account, assets)
  {
    RecordedIsSold(rows, base, assets);
  }

  lemma MergedFit(positions: seq<Bucket>, account: Account, assets: map<string, string>)
    ensures AllFit(MergedRows(positions, account, assets))
  {
    var a := Usable(account);
    var rows := Assembled(positions, a, assets);
    forall i | 0 <= i < |Judged(rows, a, assets)| ensures RowFits(Judged(rows, a, assets)[i]) {
      AssembledFit(positions, a, assets, rows[i]);
    }
  }

  /** A reverse row outside every group never drifts. */
  lemma UngroupedNeverDrifts(positions: seq<Bucket>, account: Account, assets: map<string, string>, r: Row)
    requires r in MergedRows(positions, account, assets) && r.direction == Some(Reverse) && !InGroup(r, assets)
    ensures !r.drift
  {
    var a := Usable(account);
    var rows := Assembled(positions, a, assets);
    var i :| 0 <= i < |Judged(rows, a, assets)| && Judged(rows, a, assets)[i] == r;
    assert r == WithVerdict(rows[i], rows, a, assets);
    assert rows[i] == r;
    if r in Leftover(positions, Matched(positions, a.um), a, assets) {
      LeftoverRows(positions, Matched(positions, a.um), a, assets, r);
    } else {
      SkeletonRows(positions, a.um, a, assets, r);
    }
  }

  lemma DriftOverRows(positions: seq<Bucket>, account: Account, assets: map<string, string>, r: Row, base: string)
    requires r in MergedRows(positions, account, assets) && r.direction == Some(Reverse)
    requires r.bucket.Some? ==> base == BaseAsset(Some(r.bucket.value.coin), r.bucket, assets)
    ensures r.drift <==>
      && r.bucket.Some? && OpenReverse(r.bucket.value, base, assets)
      && Drifts(BucketsOf(MergedRows(positions, account, assets)), base, account, assets)
  {
    var rows := MergedRows(positions, account, assets);
    MergedFit(positions, account, assets);
    var i :| 0 <= i < |rows| && rows[i] == r;
    assert RowFits(r);
    if InGroup(r, assets) {
      GroupIsOpenReverse(r, BaseOf(r, assets), assets);
      OneVerdictPerAsset(positions, account, assets, r);
      VerdictIsDrift(rows, base, account, assets);
    } else {
      UngroupedNeverDrifts(positions, account, assets, r);
      GroupIsOpenReverse(r, base, assets);
    }
  }

  /** The drift marker of a reverse row: it is set exactly when the row is an open cycle on record,
      the account and every quantity of its asset's open reverse cycles can be read, and the sum of
      those quantities exceeds what the account owes, net of what it holds, by more than one percent
      of the sum. */
  lemma ReverseDriftExactly(positions: seq<Bucket>, account: Account, assets: map<string, string>, r: Row, base: string)
    requires DistinctKeys(positions) && DistinctSides(account.um)
    requires r in MergedRows(positions, account, assets) && r.direction == Some(Reverse)
    requires r.bucket.Some? ==> base == BaseAsset(Some(r.bucket.value.coin), r.bucket, assets)
    ensures r.drift <==>
      && r.bucket.Some? && OpenReverse(r.bucket.value, base, assets)
      && Drifts(positions, base, account, assets)
  {
    DriftOverRows(positions, account, assets, r, base);
    MergeConserves(positions, account, assets);
    SameBuckets(BucketsOf(MergedRows(positions, account, assets)), positions, base, assets);
  }

  // ------------------------------------------------------------- the other columns

  /** Where a row's base asset comes from: the record, else the snapshot, else the symbol without
      its quote. */
  lemma BaseAssetSources(coin: string, bucket: Option<Bucket>, assets: map<string, string>)
    ensures bucket.Some? && bucket.value.spotBase != "" ==> BaseAsset(Some(coin), bucket, assets) == bucket.value.spotBase
    ensures !(bucket.Some? && bucket.value.spotBase != "") && coin in assets && assets[coin] != "" ==>
      BaseAsset(Some(coin), bucket, assets) == assets[coin]
    ensures coin != "" && !(coin + "USDT" in assets && assets[coin + "USDT"] != "") ==>
      BaseAsset(Some(coin + "USDT"), None, assets) == coin
  {
    assert (coin + "USDT")[|coin|..] == "USDT" && (coin + "USDT")[..|coin|] == coin;
  }

  /** The position side an opening of a hedge account names is read back as its direction. */
  lemma SideReadsBack(direction: Direction)
    ensures DirectionForSide(DirectionToLegActions(direction, HedgeMode, OpenTask).perpPositionSide) == Some(direction)
    ensures DirectionForSide(DirectionToLegActions(direction, OneWay, OpenTask).perpPositionSide) == None
  {
  }

  /** A merged row's balances are the account's for its base asset, absent where the account has none. */
  ghost predicate BalancesOk(r: Row, account: Account, assets: map<string, string>) {
    var base := BaseAsset(r.coin, r.bucket, assets);
    && (r.spotBalance.Some? <==> account.verified && base in account.spot)
    && (r.spotBalance.Some? && base in account.spot ==>
          r.spotBalance.value == OrZero(account.spot[base].free) + OrZero(account.spot[base].locked))
    && r.unifiedBalance == (if account.verified && base in account.unified then account.unified[base].total else None)
  }

  lemma BalancesAreTheAccounts(positions: seq<Bucket>, account: Account, assets: map<string, string>, r: Row)
    requires r in MergedRows(positions, account, assets)
    ensures BalancesOk(r, account, assets)
  {
    var a := Usable(account);
    var rows := Assembled(positions, a, assets);
    var i :| 0 <= i < |Judged(rows, a, assets)| && Judged(rows, a, assets)[i] == r;
    var q := rows[i];
    assert r == WithVerdict(q, rows, a, assets);
    if q in Leftover(positions, Matched(positions, a.um), a, assets) {
      LeftoverRows(positions, Matched(positions, a.um), a, assets, q);
    } else {
      SkeletonRows(positions, a.um, a, assets, q);
    }
  }

  // ------------------------------------------------------------------------ order

  /** `a` and `b` agree before `k`; there `a` ends, or is lower. */
  ghost predicate LowerAt(a: string, b: string, k: int) {
    0 <= k <= |a| && k < |b| && a[..k] == b[..k] && (k == |a| || a[k] < b[k])
  }

  lemma LowerTails(a: string, b: string)
    requires a != "" && b != "" && a[0] == b[0]
    ensures (exists k :: LowerAt(a, b, k)) <==> exists k :: LowerAt(a[1..], b[1..], k)
  {
    forall k | LowerAt(a, b, k) ensures LowerAt(a[1..], b[1..], k - 1) {
      assert k > 0;
      assert a[1..][..k - 1] == a[..k][1..] && b[1..][..k - 1] == b[..k][1..];
    }
    forall k | LowerAt(a[1..], b[1..], k) ensures LowerAt(a, b, k + 1) {
      assert a[..k + 1] == [a[0]] + a[1..][..k] && b[..k + 1] == [b[0]] + b[1..][..k];
    }
  }

  lemma {:induction false} StringBelowExactly(a: string, b: string)
    ensures StringBelow(a, b) <==> exists k :: LowerAt(a, b, k)
  {
    if b != "" {
      if a == "" || a[0] < b[0] {
        assert LowerAt(a, b, 0);
      } else if a[0] == b[0] {
        StringBelowExactly(a[1..], b[1..]);
        LowerTails(a, b);
      } else {
        forall k | 0 < k <= |a| && k < |b| ensures a[..k] != b[..k] {
          assert a[..k][0] != b[..k][0];
        }
      }
    }
  }

  /** Rows come by symbol, then direction (none, forward, reverse), then opening time (none first). */
  ghost predicate InOrder(x: Row, y: Row) {
    var a, b := if x.coin.Some? then x.coin.value else "", if y.coin.Some? then y.coin.value else "";
    && (forall k :: !LowerAt(b, a, k))
    && (a == b ==>
          && (y.direction.None? ==> x.direction.None?)
          && (y.direction == Some(Forward) ==> x.direction != Some(Reverse))
          && (x.direction == y.direction && x.bucket.Some? && x.bucket.value.openedAt.Some? ==>
                y.bucket.Some? && y.bucket.value.openedAt.Some?
                && x.bucket.value.openedAt.value <= y.bucket.value.openedAt.value))
  }

  lemma MergedOrder(positions: seq<Bucket>, account: Account, assets: map<string, string>, i: nat, j: nat)
    requires i < j < |SortRows(MergedRows(positions, account, assets))|
    ensures
      var merged := SortRows(MergedRows(positions, account, assets));
      InOrder(merged[i], merged[j])
  {
    var merged := SortRows(MergedRows(positions, account, assets));
    SortRowsSorts(MergedRows(positions, account, assets));
    assert !RowBelow(merged[j], merged[i]);
    StringBelowExactly(CoinKey(merged[j]), CoinKey(merged[i]));
  }
}
