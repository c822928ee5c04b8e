/** Merging task buckets with the account's exchange positions. Opening and closing times are
    microseconds (their fixed-width text sorts alike); amounts are exact. */
module PositionsMerge {
  import opened Options
  import opened HedgeLegs

  /** A decimal text field, or `None` when it is missing or unreadable. */
  type Num = Option<real>

  datatype Bucket = Bucket(coin: string, direction: Direction, cycleId: Option<int>, openedAt: Option<nat>,
                           closedAt: Option<nat>, spotBase: string, spotQty: Num, perpQty: Num)

  datatype UmPosition = UmPosition(symbol: Option<string>, side: string, amount: string, upnl: Num)

  datatype SpotRow = SpotRow(free: Num, locked: Num)

  datatype UnifiedRow = UnifiedRow(total: Num, borrowed: Num, free: Num, locked: Num)

  datatype Account = Account(verified: bool, um: seq<UmPosition>, spot: map<string, SpotRow>,
                             unified: map<string, UnifiedRow>)

  datatype Row = Row(coin: Option<string>, direction: Option<Direction>, bucket: Option<Bucket>,
                     um: Option<UmPosition>, spotBalance: Num, unifiedBalance: Num,
                     singleLeg: bool, drift: bool)

  datatype Status = Normal | NoTask | NoUm

  function MatchStatus(r: Row): Status {
    if r.um.Some? && r.bucket.None? then NoTask else if r.um.None? && r.bucket.Some? then NoUm else Normal
  }

  /** An unverified account contributes nothing. */
  function Usable(a: Account): Account {
    if a.verified then a else Account(false, [], map[], map[])
  }

  function DirectionForSide(side: string): Option<Direction> {
    if side == "SHORT" then Some(Forward) else if side == "LONG" then Some(Reverse) else None
  }

  // ------------------------------------------------------------------ one row

  predicate EndsWithUsdt(s: string) {
    |s| > 4 && s[|s| - 4..] == "USDT"
  }

  function StripQuote(symbol: string): string {
    if EndsWithUsdt(symbol) then symbol[..|symbol| - 4] else symbol
  }

  /** Recorded base asset, else the snapshot's, else the symbol without its quote; "" when none. */
  function BaseAsset(coin: Option<string>, bucket: Option<Bucket>, assets: map<string, string>): string {
    if bucket.Some? && bucket.value.spotBase != "" then bucket.value.spotBase
    else if coin.None? then ""
    else if coin.value in assets && assets[coin.value] != "" then assets[coin.value]
    else StripQuote(coin.value)
  }

  function OrZero(n: Num): real {
    if n.Some? then n.value else 0.0
  }

  function Larger(a: real, b: real): real {
    if a >= b then a else b
  }

  function Abs(a: real): real {
    if a >= 0.0 then a else -a
  }

  const TOLERANCE: real := 0.01

  function BuildRow(coin: Option<string>, direction: Option<Direction>, bucket: Option<Bucket>,
                    um: Option<UmPosition>, a: Account, assets: map<string, string>): Row
  {
    var base := BaseAsset(coin, bucket, assets);
    var spot := if base in a.spot then Some(OrZero(a.spot[base].free) + OrZero(a.spot[base].locked)) else None;
    var unified := if base in a.unified then a.unified[base].total else None;
    var spotQty := if bucket.Some? then bucket.value.spotQty else None;
    var perpQty := if bucket.Some? then bucket.value.perpQty else None;
    var larger := Larger(OrZero(spotQty), OrZero(perpQty));
    Row(coin, direction, bucket, um, spot, unified,
        bucket.Some? && larger > 0.0 && Abs(OrZero(spotQty) - OrZero(perpQty)) > larger * TOLERANCE,
        direction != Some(Reverse) && a.verified && OrZero(spotQty) > 0.0
          && OrZero(spot) + OrZero(unified) < OrZero(spotQty))
  }

  // ----------------------------------------------------------------- matching

  type Key = (string, Direction, Option<int>)

  function KeyOf(b: Bucket): Key {
    (b.coin, b.direction, b.cycleId)
  }

  function OpenedRank(b: Bucket): nat {
    if b.openedAt.Some? then b.openedAt.value + 1 else 0
  }

  /** An active cycle of the position's symbol and direction. */
  predicate Candidate(b: Bucket, u: UmPosition) {
    u.symbol == Some(b.coin) && DirectionForSide(u.side) == Some(b.direction) && b.closedAt.None?
  }

  /** The candidate opened last; the first of them on a tie. */
  function Choose(positions: seq<Bucket>, u: UmPosition): Option<Bucket> {
    if positions == [] then None
    else
      var before := Choose(positions[..|positions| - 1], u);
      var b := positions[|positions| - 1];
      if !Candidate(b, u) then before
      else if before.Some? && OpenedRank(before.value) >= OpenedRank(b) then before
      else Some(b)
  }

  lemma {:induction false} ChooseIsLatest(positions: seq<Bucket>, u: UmPosition)
    ensures
      var c := Choose(positions, u);
      && (c.None? <==> forall b | b in positions :: !Candidate(b, u))
      && (c.Some? ==> c.value in positions && Candidate(c.value, u))
      && (c.Some? ==> forall b | b in positions && Candidate(b, u) :: OpenedRank(b) <= OpenedRank(c.value))
  {
    if positions != [] {
      var init, last := positions[..|positions| - 1], positions[|positions| - 1];
      assert positions == init + [last];
      ChooseIsLatest(init, u);
    }
  }

  function SkeletonRow(positions: seq<Bucket>, u: UmPosition, a: Account, assets: map<string, string>): Row {
    BuildRow(u.symbol, DirectionForSide(u.side), Choose(positions, u), Some(u), a, assets)
  }

  /** One row for every exchange position. */
  function Skeleton(positions: seq<Bucket>, um: seq<UmPosition>, a: Account, assets: map<string, string>): seq<Row> {
    if um == [] then []
    else Skeleton(positions, um[..|um| - 1], a, assets) + [SkeletonRow(positions, um[|um| - 1], a, assets)]
  }

  /** Keys of the buckets the exchange positions took. */
  function Matched(positions: seq<Bucket>, um: seq<UmPosition>): set<Key> {
    if um == [] then {}
    else
      var c := Choose(positions, um[|um| - 1]);
      Matched(positions, um[..|um| - 1]) + (if c.Some? then {KeyOf(c.value)} else {})
  }

  function LeftoverRow(p: Bucket, a: Account, assets: map<string, string>): Row {
    BuildRow(Some(p.coin), Some(p.direction), Some(p), None, a, assets)
  }

  /** One row for every bucket no exchange position took. */
  function Leftover(positions: seq<Bucket>, matched: set<Key>, a: Account, assets: map<string, string>): seq<Row> {
    if positions == [] then []
    else
      var p := positions[|positions| - 1];
      Leftover(positions[..|positions| - 1], matched, a, assets)
        + (if KeyOf(p) in matched then [] else [LeftoverRow(p, a, assets)])
  }

  function Assembled(positions: seq<Bucket>, a: Account, assets: map<string, string>): seq<Row> {
    Skeleton(positions, a.um, a, assets) + Leftover(positions, Matched(positions, a.um), a, assets)
  }

  // -------------------------------------------------------- reverse-asset drift

  function BaseOf(r: Row, assets: map<string, string>): string {
    BaseAsset(r.coin, r.bucket, assets)
  }

  /** An open reverse cycle on record: one that shares its asset's verdict. */
  predicate InGroup(r: Row, assets: map<string, string>) {
    && r.direction == Some(Reverse) && MatchStatus(r) != NoTask
    && (r.bucket.Some? ==> r.bucket.value.closedAt.None?)
    && BaseOf(r, assets) != ""
  }

  predicate InGroupOf(r: Row, base: string, assets: map<string, string>) {
    InGroup(r, assets) && BaseOf(r, assets) == base
  }

  function RowQty(r: Row): Num {
    if r.bucket.Some? then r.bucket.value.spotQty else None
  }

  predicate ReadableQty(r: Row) {
    RowQty(r).Some? && RowQty(r).value >= 0.0
  }

  /** Quantity sold, over all the asset's open reverse rows. */
  function Recorded(rows: seq<Row>, base: string, assets: map<string, string>): real {
    if rows == [] then 0.0
    else
      var r := rows[|rows| - 1];
      Recorded(rows[..|rows| - 1], base, assets)
        + (if InGroupOf(r, base, assets) && ReadableQty(r) then RowQty(r).value else 0.0)
  }

  predicate AllReadable(rows: seq<Row>, base: string, assets: map<string, string>) {
    forall i | 0 <= i < |rows| && InGroupOf(rows[i], base, assets) :: ReadableQty(rows[i])
  }

  predicate NonNegative(n: Num) {
    n.Some? && n.value >= 0.0
  }

  /** The asset's drift: the account owes too little against what was sold; `None` when any of the
      inputs cannot be read. */
  function Verdict(recorded: real, readable: bool, base: string, a: Account): Option<bool> {
    if !a.verified || !readable || base !in a.unified then None
    else
      var u := a.unified[base];
      if !NonNegative(u.borrowed) || !NonNegative(u.free) || !NonNegative(u.locked) then None
      else
        var actual := Larger(u.borrowed.value - u.free.value - u.locked.value, 0.0);
        Some(recorded - actual > recorded * TOLERANCE)
  }

  function AssetVerdict(rows: seq<Row>, base: string, a: Account, assets: map<string, string>): Option<bool> {
    Verdict(Recorded(rows, base, assets), AllReadable(rows, base, assets), base, a)
  }

  function WithVerdict(r: Row, rows: seq<Row>, a: Account, assets: map<string, string>): Row {
    if InGroup(r, assets) && AssetVerdict(rows, BaseOf(r, assets), a, assets).Some? then
      r.(drift := AssetVerdict(rows, BaseOf(r, assets), a, assets).value)
    else r
  }

  function Judged(rows: seq<Row>, a: Account, assets: map<string, string>): seq<Row> {
    seq(|rows|, i requires 0 <= i < |rows| => WithVerdict(rows[i], rows, a, assets))
  }

  // -------------------------------------------------------------------- sorting

  /** Lexicographic order of strings. */
  predicate StringBelow(a: string, b: string) {
    if b == "" then false
    else if a == "" then true
    else if a[0] != b[0] then a[0] < b[0]
    else StringBelow(a[1..], b[1..])
  }

  lemma {:induction false} StringOrder(a: string, b: string, c: string)
    ensures a == b || StringBelow(a, b) || StringBelow(b, a)
    ensures !(StringBelow(a, b) && StringBelow(b, a)) && !StringBelow(a, a)
    ensures StringBelow(a, b) && StringBelow(b, c) ==> StringBelow(a, c)
  {
    if a != "" {
      StringOrder(a[1..], if b == "" then "" else b[1..], if c == "" then "" else c[1..]);
      if b != "" && a[0] == b[0] && a[1..] == b[1..] {
        assert a == [a[0]] + a[1..] && b == [b[0]] + b[1..];
      }
    }
  }

  function CoinKey(r: Row): string {
    if r.coin.Some? then r.coin.value else ""
  }

  /** "", "forward" and "reverse" sort in this order. */
  function DirectionRank(r: Row): nat {
    if r.direction.None? then 0 else if r.direction == Some(Forward) then 1 else 2
  }

  function OpenedKey(r: Row): nat {
    if r.bucket.Some? then OpenedRank(r.bucket.value) else 0
  }

  predicate RowBelow(x: Row, y: Row) {
    if CoinKey(x) != CoinKey(y) then StringBelow(CoinKey(x), CoinKey(y))
    else if DirectionRank(x) != DirectionRank(y) then DirectionRank(x) < DirectionRank(y)
    else OpenedKey(x) < OpenedKey(y)
  }

  /** Insert after every row that does not sort above it. */
  function InsertRow(sorted: seq<Row>, r: Row): seq<Row> {
    if sorted == [] then [r]
    else if RowBelow(r, sorted[|sorted| - 1]) then InsertRow(sorted[..|sorted| - 1], r) + [sorted[|sorted| - 1]]
    else sorted + [r]
  }

  /** A stable sort. */
  function SortRows(rows: seq<Row>): seq<Row> {
    if rows == [] then [] else InsertRow(SortRows(rows[..|rows| - 1]), rows[|rows| - 1])
  }

  ghost predicate SortedRows(rows: seq<Row>) {
    forall i, j | 0 <= i < j < |rows| :: !RowBelow(rows[j], rows[i])
  }

  lemma RowOrder(x: Row, y: Row, z: Row)
    ensures !RowBelow(y, x) && !RowBelow(z, y) ==> !RowBelow(z, x)
    ensures RowBelow(x, y) ==> !RowBelow(y, x)
  {
    StringOrder(CoinKey(x), CoinKey(y), CoinKey(z));
    StringOrder(CoinKey(z), CoinKey(y), CoinKey(x));
    StringOrder(CoinKey(y), CoinKey(x), CoinKey(z));
    StringOrder(CoinKey(x), CoinKey(z), CoinKey(y));
    StringOrder(CoinKey(y), CoinKey(z), CoinKey(x));
    StringOrder(CoinKey(z), CoinKey(x), CoinKey(y));
  }

  lemma {:induction false} InsertKeepsRows(sorted: seq<Row>, r: Row)
    ensures multiset(InsertRow(sorted, r)) == multiset(sorted) + multiset{r}
  {
    if sorted != [] {
      assert sorted == sorted[..|sorted| - 1] + [sorted[|sorted| - 1]];
      InsertKeepsRows(sorted[..|sorted| - 1], r);
    }
  }

  lemma SnocSorted(front: seq<Row>, last: Row)
    requires SortedRows(front) && forall x | x in front :: !RowBelow(last, x)
    ensures SortedRows(front + [last])
  {
    assert forall i | 0 <= i < |front| :: front[i] in front;
  }

  lemma {:induction false} InsertKeepsOrder(sorted: seq<Row>, r: Row)
    requires SortedRows(sorted)
    ensures SortedRows(InsertRow(sorted, r))
  {
    if sorted != [] {
      var init, last := sorted[..|sorted| - 1], sorted[|sorted| - 1];
      assert SortedRows(init);
      if RowBelow(r, last) {
        InsertKeepsOrder(init, r);
        InsertKeepsRows(init, r);
        var front := InsertRow(init, r);
        forall x | x in front ensures !RowBelow(last, x) {
          assert x in multiset(front);
          RowOrder(r, last, x);
        }
        SnocSorted(front, last);
      } else {
        forall x | x in sorted ensures !RowBelow(r, x) {
          var i :| 0 <= i < |sorted| && sorted[i] == x;
          RowOrder(x, last, r);
          RowOrder(last, last, r);
        }
        SnocSorted(sorted, r);
      }
    }
  }

  lemma {:induction false} SortRowsSorts(rows: seq<Row>)
    ensures SortedRows(SortRows(rows)) && multiset(SortRows(rows)) == multiset(rows)
  {
    if rows != [] {
      var init, last := rows[..|rows| - 1], rows[|rows| - 1];
      assert rows == init + [last];
      SortRowsSorts(init);
      InsertKeepsOrder(SortRows(init), last);
      InsertKeepsRows(SortRows(init), last);
    }
  }

  // ------------------------------------------------------------------- merging

  /** Loop of the first part: the active bucket opened last. */
  method FindActive(positions: seq<Bucket>, u: UmPosition) returns (chosen: Option<Bucket>)
    ensures chosen == Choose(positions, u)
  {
    chosen := None;
    var i := 0;
    while i < |positions|
      invariant 0 <= i <= |positions|
      invariant chosen == Choose(positions[..i], u)
    {
      var b := positions[i];
      assert positions[..i + 1][..i] == positions[..i];
      if Candidate(b, u) && (chosen.None? || OpenedRank(chosen.value) < OpenedRank(b)) {
        chosen := Some(b);
      }
      i := i + 1;
    }
    assert positions[..i] == positions;
  }

  /** Rows for the exchange positions, then rows for the buckets none of them took. */
  method AssembleRows(positions: seq<Bucket>, a: Account, assets: map<string, string>) returns (merged: seq<Row>)
    ensures merged == Assembled(positions, a, assets)
  {
    merged := [];
    var matched: set<Key> := {};
    var i := 0;
    while i < |a.um|
      invariant 0 <= i <= |a.um|
      invariant merged == Skeleton(positions, a.um[..i], a, assets)
      invariant matched == Matched(positions, a.um[..i])
    {
      var u := a.um[i];
      assert a.um[..i + 1][..i] == a.um[..i];
      var bucket := FindActive(positions, u);
      if bucket.Some? {
        matched := matched + {KeyOf(bucket.value)};
      }
      merged := merged + [BuildRow(u.symbol, DirectionForSide(u.side), bucket, Some(u), a, assets)];
      i := i + 1;
    }
    assert a.um[..i] == a.um;
    var skeleton := merged;
    i := 0;
    while i < |positions|
      invariant 0 <= i <= |positions|
      invariant merged == skeleton + Leftover(positions[..i], matched, a, assets)
    {
      var p := positions[i];
      assert positions[..i + 1][..i] == positions[..i];
      if KeyOf(p) !in matched {
        merged := merged + [BuildRow(Some(p.coin), Some(p.direction), Some(p), None, a, assets)];
      }
      i := i + 1;
    }
    assert positions[..i] == positions;
  }

  datatype Group = Group(rows: set<nat>, recorded: real, valid: bool)

  /** A group holds exactly its asset's rows, their total, and whether all were readable. */
  ghost predicate GroupOk(g: Group, rows: seq<Row>, base: string, assets: map<string, string>) {
    && (forall i: nat :: i in g.rows <==> i < |rows| && InGroupOf(rows[i], base, assets))
    && g.recorded == Recorded(rows, base, assets)
    && g.valid == AllReadable(rows, base, assets)
  }

  ghost predicate GroupsOk(groups: map<string, Group>, rows: seq<Row>, assets: map<string, string>) {
    && (forall base | base in groups :: GroupOk(groups[base], rows, base, assets))
    && forall i: nat | i < |rows| && InGroup(rows[i], assets) :: BaseOf(rows[i], assets) in groups
  }

  lemma {:induction false} NoRowsNoRecord(rows: seq<Row>, base: string, assets: map<string, string>)
    requires forall i: nat | i < |rows| :: !InGroupOf(rows[i], base, assets)
    ensures Recorded(rows, base, assets) == 0.0 && AllReadable(rows, base, assets)
  {
    if rows != [] {
      NoRowsNoRecord(rows[..|rows| - 1], base, assets);
    }
  }

  lemma RecordedSnoc(rows: seq<Row>, r: Row, base: string, assets: map<string, string>)
    ensures Recorded(rows + [r], base, assets) ==
            Recorded(rows, base, assets)
              + (if InGroupOf(r, base, assets) && ReadableQty(r) then RowQty(r).value else 0.0)
    ensures AllReadable(rows + [r], base, assets) <==>
            AllReadable(rows, base, assets) && (InGroupOf(r, base, assets) ==> ReadableQty(r))
  {
    var more := rows + [r];
    assert more[..|more| - 1] == rows;
    if AllReadable(more, base, assets) {
      forall i | 0 <= i < |rows| && InGroupOf(rows[i], base, assets) ensures ReadableQty(rows[i]) {
        assert more[i] == rows[i];
      }
      assert more[|rows|] == r;
    }
  }

  function AddToGroup(g: Group, i: nat, r: Row): Group {
    if ReadableQty(r) then Group(g.rows + {i}, g.recorded + RowQty(r).value, g.valid)
    else Group(g.rows + {i}, g.recorded, false)
  }

  lemma AddKeepsGroup(g: Group, rows: seq<Row>, r: Row, base: string, assets: map<string, string>)
    requires GroupOk(g, rows, base, assets) && InGroupOf(r, base, assets)
    ensures GroupOk(AddToGroup(g, |rows|, r), rows + [r], base, assets)
  {
    RecordedSnoc(rows, r, base, assets);
  }

  lemma OtherKeepsGroup(g: Group, rows: seq<Row>, r: Row, base: string, assets: map<string, string>)
    requires GroupOk(g, rows, base, assets) && !InGroupOf(r, base, assets)
    ensures GroupOk(g, rows + [r], base, assets)
  {
    RecordedSnoc(rows, r, base, assets);
  }

  lemma EmptyGroup(rows: seq<Row>, base: string, groups: map<string, Group>, assets: map<string, string>)
    requires GroupsOk(groups, rows, assets) && base !in groups
    ensures GroupOk(Group({}, 0.0, true), rows, base, assets)
  {
    NoRowsNoRecord(rows, base, assets);
  }

  method GroupReverseRows(rows: seq<Row>, assets: map<string, string>) returns (groups: map<string, Group>)
    ensures GroupsOk(groups, rows, assets)
  {
    groups := map[];
    var i := 0;
    while i < |rows|
      invariant 0 <= i <= |rows|
      invariant GroupsOk(groups, rows[..i], assets)
    {
      var r := rows[i];
      assert rows[..i + 1] == rows[..i] + [r];
      ghost var before := groups;
      if InGroup(r, assets) {
        var base := BaseOf(r, assets);
        if base !in groups {
          EmptyGroup(rows[..i], base, groups, assets);
          groups := groups[base := Group({}, 0.0, true)];
        }
        AddKeepsGroup(groups[base], rows[..i], r, base, assets);
        groups := groups[base := AddToGroup(groups[base], i, r)];
      }
      GroupsGrow(before, groups, rows[..i], r, assets);
      i := i + 1;
    }
    assert rows[..i] == rows;
  }

  lemma GroupsGrow(before: map<string, Group>, after: map<string, Group>, rows: seq<Row>, r: Row, assets: map<string, string>)
    requires GroupsOk(before, rows, assets)
    requires forall base | base in after && !InGroupOf(r, base, assets) :: base in before && after[base] == before[base]
    requires forall base | base in before :: base in after
    requires InGroup(r, assets) ==> BaseOf(r, assets) in after
    requires InGroup(r, assets) ==> GroupOk(after[BaseOf(r, assets)], rows + [r], BaseOf(r, assets), assets)
    ensures GroupsOk(after, rows + [r], assets)
  {
    forall base | base in after
      ensures GroupOk(after[base], rows + [r], base, assets)
    {
      if !InGroupOf(r, base, assets) {
        OtherKeepsGroup(before[base], rows, r, base, assets);
      }
    }
  }

  /** Give every row of a group the group's verdict. */
  method ApplyVerdicts(rows: seq<Row>, a: Account, assets: map<string, string>) returns (judged: seq<Row>)
    ensures judged == Judged(rows, a, assets)
  {
    var groups := GroupReverseRows(rows, assets);
    judged := rows;
    var todo := groups.Keys;
    while todo != {}
      invariant todo <= groups.Keys
      invariant |judged| == |rows|
      invariant forall i: nat | i < |rows| ::
          judged[i] == if InGroup(rows[i], assets) && BaseOf(rows[i], assets) !in todo
                       then WithVerdict(rows[i], rows, a, assets) else rows[i]
      decreases |todo|
    {
      var base :| base in todo;
      var g := groups[base];
      var drift := Verdict(g.recorded, g.valid, base, a);
      assert drift == AssetVerdict(rows, base, a, assets);
      if drift.Some? {
        judged := seq(|judged|, i requires 0 <= i < |judged| =>
          if i in g.rows then judged[i].(drift := drift.value) else judged[i]);
      }
      todo := todo - {base};
    }
  }

  /** The merged rows: assembled, given their verdicts, and sorted. */
  method MergePositions(positions: seq<Bucket>, account: Account, assets: map<string, string>)
    returns (merged: seq<Row>)
    ensures merged == SortRows(MergedRows(positions, account, assets))
    ensures multiset(merged) == multiset(MergedRows(positions, account, assets)) && SortedRows(merged)
    ensures DistinctKeys(positions) && DistinctSides(account.um) ==>
      multiset(BucketsOf(merged)) == multiset(positions) && multiset(UmsOf(merged)) == multiset(Usable(account).um)
  {
    var a := Usable(account);
    var rows := AssembleRows(positions, a, assets);
    rows := ApplyVerdicts(rows, a, assets);
    SortRowsSorts(rows);
    SortKeepsParts(rows);
    if DistinctKeys(positions) && DistinctSides(account.um) {
      MergeConserves(positions, account, assets);
    }
    merged := SortRows(rows);
  }

  // ------------------------------------------------------------------- results

  function BucketsOf(rows: seq<Row>): seq<Bucket> {
    if rows == [] then []
    else
      var r := rows[|rows| - 1];
      BucketsOf(rows[..|rows| - 1]) + (if r.bucket.Some? then [r.bucket.value] else [])
  }

  function UmsOf(rows: seq<Row>): seq<UmPosition> {
    if rows == [] then []
    else
      var r := rows[|rows| - 1];
      UmsOf(rows[..|rows| - 1]) + (if r.um.Some? then [r.um.value] else [])
  }

  ghost predicate DistinctKeys(positions: seq<Bucket>) {
    forall i, j | 0 <= i < j < |positions| :: KeyOf(positions[i]) != KeyOf(positions[j])
  }

  ghost predicate DistinctSides(um: seq<UmPosition>) {
    forall i, j | 0 <= i < j < |um| :: !(um[i].symbol == um[j].symbol && um[i].side == um[j].side)
  }

  lemma {:induction false} BucketsConcat(x: seq<Row>, y: seq<Row>)
    ensures BucketsOf(x + y) == BucketsOf(x) + BucketsOf(y) && UmsOf(x + y) == UmsOf(x) + UmsOf(y)
  {
    if y == [] {
      assert x + y == x;
    } else {
      BucketsConcat(x, y[..|y| - 1]);
      assert (x + y)[..|x + y| - 1] == x + y[..|y| - 1];
    }
  }

  lemma {:induction false} SkeletonUms(positions: seq<Bucket>, um: seq<UmPosition>, a: Account, assets: map<string, string>)
    ensures UmsOf(Skeleton(positions, um, a, assets)) == um
  {
    if um != [] {
      var n := |um| - 1;
      SkeletonUms(positions, um[..n], a, assets);
      var s := Skeleton(positions, um, a, assets);
      assert s[..|s| - 1] == Skeleton(positions, um[..n], a, assets);
    }
  }

  lemma {:induction false} LeftoverUms(positions: seq<Bucket>, matched: set<Key>, a: Account, assets: map<string, string>)
    ensures UmsOf(Leftover(positions, matched, a, assets)) == []
  {
    if positions != [] {
      var n := |positions| - 1;
      LeftoverUms(positions[..n], matched, a, assets);
      BucketsConcat(Leftover(positions[..n], matched, a, assets),
        if KeyOf(positions[n]) in matched then [] else [LeftoverRow(positions[n], a, assets)]);
      assert UmsOf([]) == [];
      assert [LeftoverRow(positions[n], a, assets)][..0] == [];
    }
  }

  lemma BucketsSnoc(rows: seq<Row>, r: Row)
    ensures BucketsOf(rows + [r]) == BucketsOf(rows) + (if r.bucket.Some? then [r.bucket.value] else [])
  {
    assert (rows + [r])[..|rows|] == rows;
  }

  lemma {:induction false} LeftoverBuckets(positions: seq<Bucket>, matched: set<Key>, a: Account, assets: map<string, string>, b: Bucket)
    ensures multiset(BucketsOf(Leftover(positions, matched, a, assets)))[b] ==
            if KeyOf(b) in matched then 0 else multiset(positions)[b]
  {
    if positions != [] {
      var n := |positions| - 1;
      LeftoverBuckets(positions[..n], matched, a, assets, b);
      assert positions == positions[..n] + [positions[n]];
      LeftoverSnoc(positions, matched, a, assets);
    }
  }

  lemma LeftoverSnoc(positions: seq<Bucket>, matched: set<Key>, a: Account, assets: map<string, string>)
    requires positions != []
    ensures
      var n := |positions| - 1;
      BucketsOf(Leftover(positions, matched, a, assets)) ==
        BucketsOf(Leftover(positions[..n], matched, a, assets))
          + (if KeyOf(positions[n]) in matched then [] else [positions[n]])
  {
    var n := |positions| - 1;
    BucketsSnoc(Leftover(positions[..n], matched, a, assets), LeftoverRow(positions[n], a, assets));
    assert Leftover(positions[..n], matched, a, assets) + [] == Leftover(positions[..n], matched, a, assets);
  }

  /** A matched key is that of an active bucket one of the positions is about. */
  lemma {:induction false} MatchedKeys(positions: seq<Bucket>, um: seq<UmPosition>, k: Key)
    requires k in Matched(positions, um)
    ensures exists i :: 0 <= i < |um| && um[i].symbol == Some(k.0) && DirectionForSide(um[i].side) == Some(k.1)
  {
    var n := |um| - 1;
    ChooseIsLatest(positions, um[n]);
    if k in Matched(positions, um[..n]) {
      MatchedKeys(positions, um[..n], k);
      var i :| 0 <= i < n && um[..n][i].symbol == Some(k.0) && DirectionForSide(um[..n][i].side) == Some(k.1);
      assert um[i] == um[..n][i];
    } else {
      assert um[n].symbol == Some(k.0) && DirectionForSide(um[n].side) == Some(k.1);
    }
  }

  lemma FreshKey(positions: seq<Bucket>, um: seq<UmPosition>, b: Bucket)
    requires um != [] && DistinctSides(um) && Choose(positions, um[|um| - 1]) == Some(b)
    ensures KeyOf(b) !in Matched(positions, um[..|um| - 1])
  {
    var n := |um| - 1;
    ChooseIsLatest(positions, um[n]);
    if KeyOf(b) in Matched(positions, um[..n]) {
      MatchedKeys(positions, um[..n], KeyOf(b));
      assert false;
    }
  }

  lemma SameKeySameBucket(positions: seq<Bucket>, x: Bucket, y: Bucket)
    requires DistinctKeys(positions) && x in positions && y in positions && KeyOf(x) == KeyOf(y)
    ensures x == y
  {
    var i :| 0 <= i < |positions| && positions[i] == x;
    var j :| 0 <= j < |positions| && positions[j] == y;
  }

  lemma {:induction false} SkeletonBuckets(positions: seq<Bucket>, um: seq<UmPosition>, a: Account, assets: map<string, string>, b: Bucket)
    requires DistinctKeys(positions) && DistinctSides(um)
    ensures multiset(BucketsOf(Skeleton(positions, um, a, assets)))[b] ==
            if b in positions && KeyOf(b) in Matched(positions, um) then 1 else 0
  {
    if um != [] {
      var n := |um| - 1;
      var init := um[..n];
      assert DistinctSides(init);
      SkeletonBuckets(positions, init, a, assets, b);
      var s := Skeleton(positions, um, a, assets);
      assert s[..|s| - 1] == Skeleton(positions, init, a, assets);
      var c := Choose(positions, um[n]);
      ChooseIsLatest(positions, um[n]);
      if c.Some? {
        FreshKey(positions, um, c.value);
        if b in positions && KeyOf(b) == KeyOf(c.value) {
          SameKeySameBucket(positions, b, c.value);
        }
      }
    }
  }

  lemma {:induction false} DistinctOnce(positions: seq<Bucket>, b: Bucket)
    requires DistinctKeys(positions)
    ensures multiset(positions)[b] == if b in positions then 1 else 0
  {
    if positions != [] {
      var n := |positions| - 1;
      assert positions == positions[..n] + [positions[n]];
      assert DistinctKeys(positions[..n]);
      DistinctOnce(positions[..n], b);
    }
  }

  lemma JudgedKeeps(rows: seq<Row>, a: Account, assets: map<string, string>, k: nat)
    requires k <= |rows|
    ensures |Judged(rows, a, assets)| == |rows|
    ensures BucketsOf(Judged(rows, a, assets)[..k]) == BucketsOf(rows[..k])
    ensures UmsOf(Judged(rows, a, assets)[..k]) == UmsOf(rows[..k])
  {
    if k > 0 {
      JudgedKeeps(rows, a, assets, k - 1);
      assert rows[..k][..k - 1] == rows[..k - 1];
      assert Judged(rows, a, assets)[..k][..k - 1] == Judged(rows, a, assets)[..k - 1];
    }
  }

  function MergedRows(positions: seq<Bucket>, account: Account, assets: map<string, string>): seq<Row> {
    Judged(Assembled(positions, Usable(account), assets), Usable(account), assets)
  }

  lemma AssembledBuckets(positions: seq<Bucket>, a: Account, assets: map<string, string>)
    requires DistinctKeys(positions) && DistinctSides(a.um)
    ensures multiset(BucketsOf(Assembled(positions, a, assets))) == multiset(positions)
  {
    var skeleton, matched := Skeleton(positions, a.um, a, assets), Matched(positions, a.um);
    var leftover := Leftover(positions, matched, a, assets);
    BucketsConcat(skeleton, leftover);
    forall b: Bucket
      ensures multiset(BucketsOf(skeleton))[b] + multiset(BucketsOf(leftover))[b] == multiset(positions)[b]
    {
      SkeletonBuckets(positions, a.um, a, assets, b);
      LeftoverBuckets(positions, matched, a, assets, b);
      DistinctOnce(positions, b);
    }
  }

  lemma AssembledUms(positions: seq<Bucket>, a: Account, assets: map<string, string>)
    ensures UmsOf(Assembled(positions, a, assets)) == a.um
  {
    var skeleton, matched := Skeleton(positions, a.um, a, assets), Matched(positions, a.um);
    BucketsConcat(skeleton, Leftover(positions, matched, a, assets));
    SkeletonUms(positions, a.um, a, assets);
    LeftoverUms(positions, matched, a, assets);
  }

  /** Rows are conserved: every exchange position and every bucket is in exactly one row. */
  lemma MergeConserves(positions: seq<Bucket>, account: Account, assets: map<string, string>)
    requires DistinctKeys(positions) && DistinctSides(account.um)
    ensures UmsOf(MergedRows(positions, account, assets)) == Usable(account).um
    ensures multiset(BucketsOf(MergedRows(positions, account, assets))) == multiset(positions)
  {
    var a := Usable(account);
    AssembledBuckets(positions, a, assets);
    AssembledUms(positions, a, assets);
    JudgedKeepsAll(Assembled(positions, a, assets), a, assets);
  }

  lemma JudgedKeepsAll(rows: seq<Row>, a: Account, assets: map<string, string>)
    ensures BucketsOf(Judged(rows, a, assets)) == BucketsOf(rows) && UmsOf(Judged(rows, a, assets)) == UmsOf(rows)
  {
    JudgedKeeps(rows, a, assets, |rows|);
    assert rows[..|rows|] == rows && Judged(rows, a, assets)[..|rows|] == Judged(rows, a, assets);
  }

  lemma {:induction false} SkeletonRows(positions: seq<Bucket>, um: seq<UmPosition>, a: Account, assets: map<string, string>, r: Row)
    requires r in Skeleton(positions, um, a, assets)
    ensures exists u :: u in um && r == SkeletonRow(positions, u, a, assets)
  {
    var n := |um| - 1;
    if r in Skeleton(positions, um[..n], a, assets) {
      SkeletonRows(positions, um[..n], a, assets, r);
    } else {
      assert um[n] in um;
    }
  }

  lemma {:induction false} LeftoverRows(positions: seq<Bucket>, matched: set<Key>, a: Account, assets: map<string, string>, r: Row)
    requires r in Leftover(positions, matched, a, assets)
    ensures exists p :: p in positions && r == LeftoverRow(p, a, assets)
  {
    var n := |positions| - 1;
    if r in Leftover(positions[..n], matched, a, assets) {
      LeftoverRows(positions[..n], matched, a, assets, r);
    } else {
      assert positions[n] in positions;
    }
  }

  /** A row that pairs a bucket with an exchange position pairs it with an open cycle of the same
      symbol and direction, the one opened last; and a position without a bucket had none to take. */
  lemma MatchesAreOpenCycles(positions: seq<Bucket>, account: Account, assets: map<string, string>, r: Row)
    requires r in MergedRows(positions, account, assets) && r.um.Some?
    ensures r.um.value in account.um
    ensures r.bucket.None? <==> forall b | b in positions :: !Candidate(b, r.um.value)
    ensures r.bucket.Some? ==>
      && r.bucket.value in positions && Candidate(r.bucket.value, r.um.value)
      && forall b | b in positions && Candidate(b, r.um.value) :: OpenedRank(b) <= OpenedRank(r.bucket.value)
  {
    var a := Usable(account);
    var rows := Assembled(positions, a, assets);
    var i :| 0 <= i < |Judged(rows, a, assets)| && Judged(rows, a, assets)[i] == r;
    var q := rows[i];
    assert q.um == r.um && q.bucket == r.bucket;
    if q in Leftover(positions, Matched(positions, a.um), a, assets) {
      LeftoverRows(positions, Matched(positions, a.um), a, assets, q);
    } else {
      SkeletonRows(positions, a.um, a, assets, q);
      ChooseIsLatest(positions, q.um.value);
    }
  }

  /** All open reverse rows of one asset carry one verdict, and it is the asset's: what was sold
      exceeds what the account owes by more than one percent. */
  lemma OneVerdictPerAsset(positions: seq<Bucket>, account: Account, assets: map<string, string>, r: Row)
    requires r in MergedRows(positions, account, assets) && InGroup(r, assets)
    ensures
      var verdict := AssetVerdict(MergedRows(positions, account, assets), BaseOf(r, assets), Usable(account), assets);
      r.drift == (verdict == Some(true))
  {
    var a := Usable(account);
    var rows := Assembled(positions, a, assets);
    var judged := Judged(rows, a, assets);
    var i :| 0 <= i < |judged| && judged[i] == r;
    assert r == WithVerdict(rows[i], rows, a, assets);
    SameVerdict(rows, a, assets, BaseOf(r, assets));
    if rows[i] in Leftover(positions, Matched(positions, a.um), a, assets) {
      LeftoverRows(positions, Matched(positions, a.um), a, assets, rows[i]);
    } else {
      SkeletonRows(positions, a.um, a, assets, rows[i]);
    }
    assert !rows[i].drift;
  }

  lemma {:induction false} RecordedUpTo(rows: seq<Row>, a: Account, assets: map<string, string>, base: string, k: nat)
    requires k <= |rows|
    ensures |Judged(rows, a, assets)| == |rows|
    ensures Recorded(Judged(rows, a, assets)[..k], base, assets) == Recorded(rows[..k], base, assets)
  {
    if k > 0 {
      RecordedUpTo(rows, a, assets, base, k - 1);
      assert rows[..k][..k - 1] == rows[..k - 1];
      assert Judged(rows, a, assets)[..k][..k - 1] == Judged(rows, a, assets)[..k - 1];
    }
  }

  /** Verdicts do not feed back into themselves. */
  lemma SameVerdict(rows: seq<Row>, a: Account, assets: map<string, string>, base: string)
    ensures AssetVerdict(Judged(rows, a, assets), base, a, assets) == AssetVerdict(rows, base, a, assets)
  {
    var judged := Judged(rows, a, assets);
    RecordedUpTo(rows, a, assets, base, |rows|);
    assert rows[..|rows|] == rows && judged[..|rows|] == judged;
    assert forall i | 0 <= i < |rows| ::
        InGroupOf(judged[i], base, assets) == InGroupOf(rows[i], base, assets) && ReadableQty(judged[i]) == ReadableQty(rows[i]);
  }

  /** Swapping the last two of three stretches keeps the parts. */
  lemma PartsSwap(x: seq<Row>, y: seq<Row>, z: seq<Row>)
    ensures multiset(BucketsOf(x + y + z)) == multiset(BucketsOf(x + z + y))
    ensures multiset(UmsOf(x + y + z)) == multiset(UmsOf(x + z + y))
  {
    BucketsConcat(x, y);
    BucketsConcat(x + y, z);
    BucketsConcat(x, z);
    BucketsConcat(x + z, y);
  }

  lemma {:induction false} InsertKeepsParts(sorted: seq<Row>, r: Row)
    ensures multiset(BucketsOf(InsertRow(sorted, r))) == multiset(BucketsOf(sorted + [r]))
    ensures multiset(UmsOf(InsertRow(sorted, r))) == multiset(UmsOf(sorted + [r]))
  {
    if sorted != [] && RowBelow(r, sorted[|sorted| - 1]) {
      var init, last := sorted[..|sorted| - 1], sorted[|sorted| - 1];
      assert sorted == init + [last];
      InsertKeepsParts(init, r);
      BucketsConcat(InsertRow(init, r), [last]);
      BucketsConcat(init + [r], [last]);
      PartsSwap(init, [last], [r]);
    }
  }

  /** Sorting moves rows and nothing else. */
  lemma {:induction false} SortKeepsParts(rows: seq<Row>)
    ensures multiset(BucketsOf(SortRows(rows))) == multiset(BucketsOf(rows))
    ensures multiset(UmsOf(SortRows(rows))) == multiset(UmsOf(rows))
  {
    if rows != [] {
      var init, last := rows[..|rows| - 1], rows[|rows| - 1];
      assert rows == init + [last];
      SortKeepsParts(init);
      InsertKeepsParts(SortRows(init), last);
      BucketsConcat(SortRows(init), [last]);
      BucketsConcat(init, [last]);
    }
  }

  predicate LegsApart(b: Bucket) {
    var spot, perp := OrZero(b.spotQty), OrZero(b.perpQty);
    Larger(spot, perp) > 0.0 && (spot - perp > Larger(spot, perp) * TOLERANCE || perp - spot > Larger(spot, perp) * TOLERANCE)
  }

  /** What a row's markers mean, from the row's own fields: the single-leg marker that its two legs
      differ by more than a hundredth of the larger one; the drift marker of a row that is not
      reverse that the account, readable, holds less than the record. */
  ghost predicate MarkersOk(r: Row, verified: bool) {
    && (r.singleLeg <==> r.bucket.Some? && LegsApart(r.bucket.value))
    && (r.direction != Some(Reverse) ==>
          (r.drift <==>
             verified && OrZero(RowQty(r)) > 0.0 && OrZero(r.spotBalance) + OrZero(r.unifiedBalance) < OrZero(RowQty(r))))
    && (!verified ==> !r.drift && r.spotBalance.None? && r.unifiedBalance.None?)
  }

  lemma BuiltRowMarkers(coin: Option<string>, direction: Option<Direction>, bucket: Option<Bucket>,
                        um: Option<UmPosition>, account: Account, assets: map<string, string>)
    ensures MarkersOk(BuildRow(coin, direction, bucket, um, Usable(account), assets), account.verified)
  {
  }

  lemma VerdictKeepsMarkers(r: Row, rows: seq<Row>, a: Account, assets: map<string, string>)
    requires MarkersOk(r, a.verified)
    ensures MarkersOk(WithVerdict(r, rows, a, assets), a.verified)
  {
  }

  lemma MarkersAreTrue(positions: seq<Bucket>, account: Account, assets: map<string, string>, r: Row)
    requires r in MergedRows(positions, account, assets)
    ensures MarkersOk(r, account.verified)
  {
    var a := Usable(account);
    var rows := Assembled(positions, a, assets);
    var i :| 0 <= i < |Judged(rows, a, assets)| && Judged(rows, a, assets)[i] == r;
    AssembledMarkers(positions, account, assets, rows[i]);
    VerdictKeepsMarkers(rows[i], rows, a, assets);
  }

  lemma AssembledMarkers(positions: seq<Bucket>, account: Account, assets: map<string, string>, r: Row)
    requires r in Assembled(positions, Usable(account), assets)
    ensures MarkersOk(r, account.verified)
  {
    var a := Usable(account);
    if r in Leftover(positions, Matched(positions, a.um), a, assets) {
      LeftoverRows(positions, Matched(positions, a.um), a, assets, r);
      var p :| p in positions && r == LeftoverRow(p, a, assets);
      BuiltRowMarkers(Some(p.coin), Some(p.direction), Some(p), None, account, assets);
    } else {
      SkeletonRows(positions, a.um, a, assets, r);
      var u :| u in a.um && r == SkeletonRow(positions, u, a, assets);
      BuiltRowMarkers(u.symbol, DirectionForSide(u.side), Choose(positions, u), Some(u), account, assets);
    }
  }
}
