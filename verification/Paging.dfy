/** Keyset paging: newest first, each page read strictly below the last key of the page before. */
module Paging {
  import opened Options
  import opened BorrowStore
  import opened Cursor

  /** The stable sort key: time, then source rank, then row id. */
  datatype Key = Key(ts: int, rank: int, id: int)

  predicate Less(a: Key, b: Key) {
    a.ts < b.ts || (a.ts == b.ts && (a.rank < b.rank || (a.rank == b.rank && a.id < b.id)))
  }

  datatype Entry<T> = Entry(key: Key, item: T)

  ghost predicate Descending<T>(s: seq<Entry<T>>) {
    forall i, j | 0 <= i < j < |s| :: Less(s[j].key, s[i].key)
  }

  ghost predicate DistinctKeys<T>(s: seq<Entry<T>>) {
    forall i, j | 0 <= i < j < |s| :: s[i].key != s[j].key
  }

  function Insert<T>(e: Entry<T>, s: seq<Entry<T>>): seq<Entry<T>> {
    if s == [] || Less(s[0].key, e.key) then [e] + s else [s[0]] + Insert(e, s[1..])
  }

  /** Newest first: `ORDER BY ... DESC`. */
  function SortDesc<T>(s: seq<Entry<T>>): seq<Entry<T>> {
    if s == [] then [] else Insert(s[0], SortDesc(s[1..]))
  }

  lemma {:induction false} InsertSorts<T>(e: Entry<T>, s: seq<Entry<T>>)
    requires Descending(s) && forall i | 0 <= i < |s| :: s[i].key != e.key
    ensures Descending(Insert(e, s))
  {
    if s != [] && !Less(s[0].key, e.key) {
      var r := Insert(e, s[1..]);
      InsertSorts(e, s[1..]);
      InsertContents(e, s[1..]);
      forall j | 0 <= j < |r| ensures Less(r[j].key, s[0].key) {
        assert r[j] in multiset(r);
        assert r[j] == e || r[j] in s[1..];
      }
    }
  }

  lemma {:induction false} InsertContents<T>(e: Entry<T>, s: seq<Entry<T>>)
    ensures multiset(Insert(e, s)) == multiset(s) + multiset{e}
  {
    if s != [] && !Less(s[0].key, e.key) {
      InsertContents(e, s[1..]);
      assert s == [s[0]] + s[1..];
    }
  }

  /** Sorting loses and repeats nothing, and leaves strictly descending keys. */
  lemma {:induction false} SortDescSorts<T>(s: seq<Entry<T>>)
    requires DistinctKeys(s)
    ensures multiset(SortDesc(s)) == multiset(s) && Descending(SortDesc(s))
  {
    if s != [] {
      SortDescSorts(s[1..]);
      var r := SortDesc(s[1..]);
      forall i | 0 <= i < |r| ensures r[i].key != s[0].key {
        assert r[i] in multiset(s[1..]);
      }
      InsertSorts(s[0], r);
      InsertContents(s[0], r);
      assert s == [s[0]] + s[1..];
    }
  }

  /** A descending list is determined by its contents. */
  lemma {:induction false} SortedUnique<T>(a: seq<Entry<T>>, b: seq<Entry<T>>)
    requires Descending(a) && Descending(b) && multiset(a) == multiset(b)
    ensures a == b
  {
    if a == [] {
      assert |multiset(b)| == 0;
    } else {
      assert a[0] in multiset(b) && |multiset(b)| == |a|;
      assert b[0] in multiset(a);
      assert a[0] == b[0];
      assert a == [a[0]] + a[1..] && b == [b[0]] + b[1..];
      assert multiset(a[1..]) == multiset(a) - multiset{a[0]};
      assert multiset(b[1..]) == multiset(b) - multiset{b[0]};
      SortedUnique(a[1..], b[1..]);
    }
  }

  /** The rows strictly below a cursor; all rows when there is none. */
  function Below<T>(s: seq<Entry<T>>, cursor: Option<Key>): seq<Entry<T>> {
    if s == [] then []
    else
      var rest := Below(s[1..], cursor);
      if cursor.None? || Less(s[0].key, cursor.value) then [s[0]] + rest else rest
  }

  function Take<T>(s: seq<T>, n: nat): seq<T> {
    if |s| <= n then s else s[..n]
  }

  lemma {:induction false} BelowAll<T>(s: seq<Entry<T>>, cursor: Option<Key>)
    requires cursor.None? || forall i | 0 <= i < |s| :: Less(s[i].key, cursor.value)
    ensures Below(s, cursor) == s
  {
    if s != [] {
      BelowAll(s[1..], cursor);
    }
  }

  /** In a descending list, what lies below the key at `k` is exactly what follows it. */
  lemma {:induction false} BelowAt<T>(s: seq<Entry<T>>, k: nat)
    requires Descending(s) && k < |s|
    ensures Below(s, Some(s[k].key)) == s[k + 1..]
  {
    if k == 0 {
      BelowAll(s[1..], Some(s[0].key));
    } else {
      BelowAt(s[1..], k - 1);
      assert s[1..][k..] == s[k + 1..];
    }
  }

  // ------------------------------------------------------------ following pages

  datatype Page<T> = Page(entries: seq<Entry<T>>, hasMore: bool)

  /** One row more than asked is read, to see whether another page follows. */
  function PageOf<T>(window: seq<Entry<T>>, limit: nat): Page<T> {
    Page(Take(window, limit), |window| > limit)
  }

  /** How keys travel as opaque cursor text. */
  datatype Codec = Codec(encode: Key -> string, decode: string -> Option<Key>)

  ghost predicate Faithful(codec: Codec, ranks: set<int>) {
    forall k: Key | k.rank in ranks :: codec.encode(k) != "" && codec.decode(codec.encode(k)) == Some(k)
  }

  /** Every entry met when the cursor of each page is followed, for up to `pages` pages. Absent
      or empty text asks for the first page; undecodable text is rejected. */
  function Follow<T>(page: Option<Key> -> Page<T>, codec: Codec, cursor: Option<string>, pages: nat): seq<Entry<T>>
    decreases pages
  {
    if pages == 0 then []
    else if cursor.Some? && cursor.value != "" && codec.decode(cursor.value).None? then []
    else
      var p := page(if cursor.None? || cursor.value == "" then None else codec.decode(cursor.value));
      if p.hasMore && p.entries != []
      then p.entries + Follow(page, codec, Some(codec.encode(p.entries[|p.entries| - 1].key)), pages - 1)
      else p.entries
  }

  /** A page read below position `from`, and the key it hands on. */
  lemma PageAt<T>(s: seq<Entry<T>>, from: nat, limit: nat)
    requires Descending(s) && from <= |s| && limit > 0
    ensures
      var page := PageOf(Take(s[from..], limit + 1), limit);
      && page.hasMore == (from + limit < |s|)
      && page.entries == (if page.hasMore then s[from..from + limit] else s[from..])
  {
  }

  function KeyBefore<T>(s: seq<Entry<T>>, from: nat): Option<Key>
    requires from <= |s|
  {
    if from == 0 then None else Some(s[from - 1].key)
  }

  lemma BelowFrom<T>(s: seq<Entry<T>>, from: nat)
    requires Descending(s) && from <= |s|
    ensures Below(s, KeyBefore(s, from)) == s[from..]
  {
    if from == 0 {
      BelowAll(s, None);
      assert s[0..] == s;
    } else {
      BelowAt(s, from - 1);
    }
  }

  function TextBefore<T>(s: seq<Entry<T>>, codec: Codec, from: nat): Option<string>
    requires from <= |s|
  {
    if from == 0 then None else Some(codec.encode(s[from - 1].key))
  }

  lemma FollowStep<T>(s: seq<Entry<T>>, page: Option<Key> -> Page<T>, codec: Codec, ranks: set<int>, from: nat, pages: nat)
    requires Faithful(codec, ranks) && from <= |s| && pages > 0
    requires from > 0 ==> s[from - 1].key.rank in ranks
    ensures
      var p := page(KeyBefore(s, from));
      Follow(page, codec, TextBefore(s, codec, from), pages) ==
        if p.hasMore && p.entries != []
        then p.entries + Follow(page, codec, Some(codec.encode(p.entries[|p.entries| - 1].key)), pages - 1)
        else p.entries
  {
  }

  lemma PageBefore<T>(s: seq<Entry<T>>, page: Option<Key> -> Page<T>, limit: nat, from: nat)
    requires Descending(s) && limit > 0 && from <= |s|
    requires forall k :: page(k) == PageOf(Take(Below(s, k), limit + 1), limit)
    ensures page(KeyBefore(s, from)) == Page(if from + limit < |s| then s[from..from + limit] else s[from..], from + limit < |s|)
  {
    BelowFrom(s, from);
    PageAt(s, from, limit);
  }

  lemma FollowNext<T>(s: seq<Entry<T>>, page: Option<Key> -> Page<T>, codec: Codec, ranks: set<int>, limit: nat, from: nat, pages: nat)
    requires Faithful(codec, ranks) && limit > 0 && from <= |s| && pages > 0
    requires from > 0 ==> s[from - 1].key.rank in ranks
    requires page(KeyBefore(s, from)) == Page(if from + limit < |s| then s[from..from + limit] else s[from..], from + limit < |s|)
    ensures Follow(page, codec, TextBefore(s, codec, from), pages) ==
            if from + limit < |s| then s[from..from + limit] + Follow(page, codec, TextBefore(s, codec, from + limit), pages - 1)
            else s[from..]
  {
    FollowStep(s, page, codec, ranks, from, pages);
    if from + limit < |s| {
      assert s[from..from + limit][limit - 1] == s[from + limit - 1];
    }
  }

  /** Pages that are windows of one descending list, followed from position `from`, give the rest
      of that list. */
  lemma {:induction false} FollowFrom<T>(
    s: seq<Entry<T>>, page: Option<Key> -> Page<T>, codec: Codec, ranks: set<int>, limit: nat, from: nat, pages: nat)
    requires Descending(s) && Faithful(codec, ranks) && limit > 0
    requires forall i | 0 <= i < |s| :: s[i].key.rank in ranks
    requires forall k :: page(k) == PageOf(Take(Below(s, k), limit + 1), limit)
    requires from <= |s| && pages > |s| - from
    ensures Follow(page, codec, TextBefore(s, codec, from), pages) == s[from..]
    decreases pages
  {
    PageBefore(s, page, limit, from);
    FollowNext(s, page, codec, ranks, limit, from, pages);
    if from + limit < |s| {
      FollowFrom(s, page, codec, ranks, limit, from + limit, pages - 1);
      Rejoin(s, from, from + limit);
    }
  }

  lemma Rejoin<T>(s: seq<T>, from: nat, to: nat)
    requires from <= to <= |s|
    ensures s[from..to] + s[to..] == s[from..]
  {
  }

  // ------------------------------------------------------- the borrow log pages

  /** Newest-completion-first sort time. */
  function EffectiveTs(finished: Option<int>, dispatched: Option<int>, scheduled: Option<int>): int {
    if finished.Some? then finished.value
    else if dispatched.Some? then dispatched.value
    else if scheduled.Some? then scheduled.value
    else 0
  }

  function AttemptEntry(a: Attempt): Entry<Attempt> {
    Entry(Key(EffectiveTs(a.finishedAt, a.dispatchedAt, Some(a.scheduledAt)), 0, a.id), a)
  }

  function AttemptEntries(rows: seq<Attempt>): (r: seq<Entry<Attempt>>)
    ensures |r| == |rows| && forall i | 0 <= i < |rows| :: r[i] == AttemptEntry(rows[i])
  {
    seq(|rows|, i requires 0 <= i < |rows| => AttemptEntry(rows[i]))
  }

  function ListAttemptsPage(rows: seq<Attempt>, limit: nat, cursor: Option<Key>): Page<Attempt> {
    PageOf(Take(Below(SortDesc(AttemptEntries(rows)), cursor), limit + 1), limit)
  }

  const LOG_CODEC := Codec((k: Key) => EncodeCursor(k.ts, k.id), text => KeyOfPair(DecodeCursor(text)))

  function KeyOfPair(d: Option<(int, int)>): Option<Key> {
    if d.None? then None else Some(Key(d.value.0, 0, d.value.1))
  }

  lemma LogCodecFaithful()
    ensures Faithful(LOG_CODEC, {0})
  {
    forall k: Key | k.rank in {0} ensures LOG_CODEC.encode(k) != "" && LOG_CODEC.decode(LOG_CODEC.encode(k)) == Some(k) {
      CursorRoundTrip(k.ts, k.id);
    }
  }

  /** All log entries met from the first page on. */
  function FollowLogs(rows: seq<Attempt>, limit: nat): seq<Entry<Attempt>> {
    Follow(k => ListAttemptsPage(rows, limit, k), LOG_CODEC, None, |rows| + 1)
  }

  /** Following `next_cursor` from the first page yields every row of the table exactly once, in
      descending (effective time, id) order, for every page size. */
  lemma {:induction false} PagesEnumerateTheLog(rows: seq<Attempt>, limit: nat)
    requires forall i, j | 0 <= i < j < |rows| :: rows[i].id != rows[j].id
    requires limit > 0
    ensures multiset(FollowLogs(rows, limit)) == multiset(AttemptEntries(rows))
    ensures Descending(FollowLogs(rows, limit))
  {
    var s := SortDesc(AttemptEntries(rows));
    SortDescSorts(AttemptEntries(rows));
    forall i | 0 <= i < |s| ensures s[i].key.rank in {0} {
      assert s[i] in multiset(AttemptEntries(rows));
    }
    assert |multiset(s)| == |rows|;
    LogCodecFaithful();
    FollowFrom(s, k => ListAttemptsPage(rows, limit, k), LOG_CODEC, {0}, limit, 0, |rows| + 1);
    assert s[0..] == s;
  }

  /** When an attempt counts as having happened: finished, else dispatched, else scheduled. */
  ghost predicate HappenedAt(a: Attempt, at: int) {
    a.finishedAt == Some(at)
    || (a.finishedAt.None? && (a.dispatchedAt == Some(at) || (a.dispatchedAt.None? && a.scheduledAt == at)))
  }

  /** Newest first: of two entries met, the earlier shown happened later, or at the same time with
      the higher row number. */
  lemma {:induction false} LogIsNewestFirst(rows: seq<Attempt>, limit: nat, i: nat, j: nat, at: int, before: int)
    requires forall i, j | 0 <= i < j < |rows| :: rows[i].id != rows[j].id
    requires limit > 0 && i < j < |FollowLogs(rows, limit)|
    requires HappenedAt(FollowLogs(rows, limit)[i].item, at) && HappenedAt(FollowLogs(rows, limit)[j].item, before)
    ensures at > before || (at == before && FollowLogs(rows, limit)[i].item.id > FollowLogs(rows, limit)[j].item.id)
  {
    PagesEnumerateTheLog(rows, limit);
    var s := FollowLogs(rows, limit);
    assert s[i] in multiset(AttemptEntries(rows)) && s[j] in multiset(AttemptEntries(rows));
    assert Less(s[j].key, s[i].key);
  }

  // ------------------------------------------------------- the merged entries

  /** A source's own page: its rows below the cursor, in descending order. */
  function Window<T>(source: seq<Entry<T>>, cursor: Option<Key>, n: nat): seq<Entry<T>> {
    Take(Below(source, cursor), n)
  }

  /** One page of the unified stream, from two windows read after the same cursor. */
  function EntriesPage<T>(attempts: seq<Entry<T>>, events: seq<Entry<T>>, limit: nat, cursor: Option<Key>): Page<T> {
    PageOf(SortDesc(Window(attempts, cursor, limit + 1) + Window(events, cursor, limit + 1)), limit)
  }

  function Merge<T>(a: seq<Entry<T>>, b: seq<Entry<T>>): (r: seq<Entry<T>>)
    ensures |r| == |a| + |b|
  {
    if a == [] then b
    else if b == [] then a
    else if Less(a[0].key, b[0].key) then [b[0]] + Merge(a, b[1..])
    else [a[0]] + Merge(a[1..], b)
  }

  lemma {:induction false} MergeContents<T>(a: seq<Entry<T>>, b: seq<Entry<T>>)
    ensures multiset(Merge(a, b)) == multiset(a) + multiset(b)
  {
    if a != [] && b != [] {
      if Less(a[0].key, b[0].key) {
        MergeContents(a, b[1..]);
        assert b == [b[0]] + b[1..];
      } else {
        MergeContents(a[1..], b);
        assert a == [a[0]] + a[1..];
      }
    }
  }

  ghost predicate Apart<T>(a: seq<Entry<T>>, b: seq<Entry<T>>) {
    forall i, j | 0 <= i < |a| && 0 <= j < |b| :: a[i].key != b[j].key
  }

  lemma {:induction false} MergeDescends<T>(a: seq<Entry<T>>, b: seq<Entry<T>>)
    requires Descending(a) && Descending(b) && Apart(a, b)
    ensures Descending(Merge(a, b))
  {
    if a != [] && b != [] {
      if Less(a[0].key, b[0].key) {
        MergeDescends(a, b[1..]);
        HeadAbove(b[0], a, b[1..]);
      } else {
        MergeDescends(a[1..], b);
        HeadAbove(a[0], a[1..], b);
      }
    }
  }

  lemma HeadAbove<T>(e: Entry<T>, a: seq<Entry<T>>, b: seq<Entry<T>>)
    requires forall i | 0 <= i < |a| :: Less(a[i].key, e.key)
    requires forall i | 0 <= i < |b| :: Less(b[i].key, e.key)
    ensures forall i | 0 <= i < |Merge(a, b)| :: Less(Merge(a, b)[i].key, e.key)
  {
    MergeContents(a, b);
    forall i | 0 <= i < |Merge(a, b)| ensures Less(Merge(a, b)[i].key, e.key) {
      assert Merge(a, b)[i] in multiset(a) + multiset(b);
    }
  }

  /** Merging two descending lists is sorting their union. */
  lemma MergeIsSort<T>(a: seq<Entry<T>>, b: seq<Entry<T>>)
    requires Descending(a) && Descending(b) && Apart(a, b)
    ensures SortDesc(a + b) == Merge(a, b)
  {
    SortDescSorts(a + b);
    MergeContents(a, b);
    MergeDescends(a, b);
    SortedUnique(SortDesc(a + b), Merge(a, b));
  }

  /** What is left of a prefix after its first element. */
  lemma TakeTail<T>(s: seq<T>, n: nat)
    requires n > 0 && s != []
    ensures Take(s, n) != [] && Take(s, n)[0] == s[0] && Take(s, n)[1..] == Take(s[1..], n - 1)
    ensures Take(Take(s, n), n - 1) == Take(s, n - 1)
    ensures Take(Take(s[1..], n - 1), n - 1) == Take(s[1..], n - 1)
  {
  }

  /** The first `n` of a merge only need the first `n` of each side. */
  lemma {:induction false} MergePrefix<T>(a: seq<Entry<T>>, b: seq<Entry<T>>, n: nat)
    ensures Take(Merge(Take(a, n), Take(b, n)), n) == Take(Merge(a, b), n)
    decreases n, 1
  {
    if n > 0 && a != [] && b != [] {
      TakeTail(a, n);
      TakeTail(b, n);
      if Less(a[0].key, b[0].key) {
        PrefixStep(b[0], a, b[1..], Take(a, n), Take(b[1..], n - 1), n);
      } else {
        PrefixStep(a[0], a[1..], b, Take(a[1..], n - 1), Take(b, n), n);
      }
    }
  }

  /** One element of the merge, and the rest by fewer. */
  lemma {:induction false} PrefixStep<T>(e: Entry<T>, a: seq<Entry<T>>, b: seq<Entry<T>>, a': seq<Entry<T>>, b': seq<Entry<T>>, n: nat)
    requires n > 0 && Take(a', n - 1) == Take(a, n - 1) && Take(b', n - 1) == Take(b, n - 1)
    ensures Take([e] + Merge(a', b'), n) == Take([e] + Merge(a, b), n)
    decreases n, 0
  {
    MergePrefix(a, b, n - 1);
    MergePrefix(a', b', n - 1);
    TakeCons(e, Merge(a, b), n);
    TakeCons(e, Merge(a', b'), n);
  }

  lemma TakeCons<T>(e: T, s: seq<T>, n: nat)
    requires n > 0
    ensures Take([e] + s, n) == [e] + Take(s, n - 1)
  {
  }

  lemma {:induction false} BelowKeeps<T>(s: seq<Entry<T>>, cursor: Option<Key>)
    requires Descending(s)
    ensures Descending(Below(s, cursor)) && forall e | e in Below(s, cursor) :: e in s
  {
    if s != [] {
      BelowKeeps(s[1..], cursor);
      forall i | 0 <= i < |Below(s[1..], cursor)| ensures Less(Below(s[1..], cursor)[i].key, s[0].key) {
        assert Below(s[1..], cursor)[i] in s[1..];
      }
    }
  }

  lemma {:induction false} BelowMerge<T>(a: seq<Entry<T>>, b: seq<Entry<T>>, cursor: Option<Key>)
    requires Descending(a) && Descending(b) && Apart(a, b)
    ensures Below(Merge(a, b), cursor) == Merge(Below(a, cursor), Below(b, cursor))
  {
    if a != [] && b != [] {
      if Less(a[0].key, b[0].key) {
        BelowMerge(a, b[1..], cursor);
        if cursor.Some? && !Less(b[0].key, cursor.value) {
        } else {
          BelowAll(a, cursor);
          BelowAll(b[1..], cursor);
        }
      } else {
        BelowMerge(a[1..], b, cursor);
        if cursor.Some? && !Less(a[0].key, cursor.value) {
        } else {
          BelowAll(a[1..], cursor);
          BelowAll(b, cursor);
        }
      }
    }
  }

  lemma TakeKeeps<T>(s: seq<Entry<T>>, n: nat)
    requires Descending(s)
    ensures Descending(Take(s, n))
  {
  }

  lemma WindowsApart<T>(a: seq<Entry<T>>, b: seq<Entry<T>>, cursor: Option<Key>, n: nat)
    requires Descending(a) && Descending(b) && Apart(a, b)
    ensures Descending(Window(a, cursor, n)) && Descending(Window(b, cursor, n))
    ensures Apart(Window(a, cursor, n), Window(b, cursor, n))
  {
    var a', b' := Below(a, cursor), Below(b, cursor);
    var wa, wb := Window(a, cursor, n), Window(b, cursor, n);
    BelowKeeps(a, cursor);
    BelowKeeps(b, cursor);
    TakeKeeps(a', n);
    TakeKeeps(b', n);
    forall i, j | 0 <= i < |wa| && 0 <= j < |wb| ensures wa[i].key != wb[j].key {
      assert wa[i] == a'[i] && wb[j] == b'[j];
      assert a'[i] in a && b'[j] in b;
    }
  }

  lemma PageOfTake<T>(s: seq<Entry<T>>, limit: nat)
    ensures PageOf(s, limit) == PageOf(Take(s, limit + 1), limit)
  {
  }

  /** One page of the merged windows is one page of the merged sources. */
  lemma EntriesPageIsUnionPage<T>(a: seq<Entry<T>>, b: seq<Entry<T>>, limit: nat, cursor: Option<Key>)
    requires Descending(a) && Descending(b) && Apart(a, b)
    ensures EntriesPage(a, b, limit, cursor) == PageOf(Take(Below(Merge(a, b), cursor), limit + 1), limit)
  {
    var n := limit + 1;
    WindowsApart(a, b, cursor, n);
    MergeIsSort(Window(a, cursor, n), Window(b, cursor, n));
    MergePrefix(Below(a, cursor), Below(b, cursor), n);
    BelowMerge(a, b, cursor);
    PageOfTake(Merge(Window(a, cursor, n), Window(b, cursor, n)), limit);
  }

  const ENTRIES_CODEC := Codec((k: Key) => EncodeEntriesCursor(k.ts, k.rank, k.id), text => KeyOfTriple(DecodeEntriesCursor(text)))

  function KeyOfTriple(d: Option<(int, int, int)>): Option<Key> {
    if d.None? then None else Some(Key(d.value.0, d.value.1, d.value.2))
  }

  lemma EntriesCodecFaithful()
    ensures Faithful(ENTRIES_CODEC, {0, 1})
  {
    forall k: Key | k.rank in {0, 1}
      ensures ENTRIES_CODEC.encode(k) != "" && ENTRIES_CODEC.decode(ENTRIES_CODEC.encode(k)) == Some(k)
    {
      EntriesCursorRoundTrip(k.ts, k.rank, k.id);
    }
  }

  ghost predicate Ranked<T>(s: seq<Entry<T>>, rank: int) {
    forall i | 0 <= i < |s| :: s[i].key.rank == rank
  }

  /** All unified entries met from the first page on. */
  function FollowEntries<T>(attempts: seq<Entry<T>>, events: seq<Entry<T>>, limit: nat): seq<Entry<T>> {
    Follow(k => EntriesPage(attempts, events, limit, k), ENTRIES_CODEC, None, |attempts| + |events| + 1)
  }

  /** The unified stream enumerates attempts (rank 0) and task events (rank 1) exactly once, in
      descending (time, rank, id) order, for every page size. */
  lemma {:induction false} EntriesEnumerateTheUnion<T>(a: seq<Entry<T>>, b: seq<Entry<T>>, limit: nat)
    requires Descending(a) && Descending(b) && Ranked(a, 0) && Ranked(b, 1)
    requires limit > 0
    ensures multiset(FollowEntries(a, b, limit)) == multiset(a) + multiset(b)
    ensures Descending(FollowEntries(a, b, limit))
  {
    var s := Merge(a, b);
    MergeContents(a, b);
    MergeDescends(a, b);
    forall i | 0 <= i < |s| ensures s[i].key.rank in {0, 1} {
      assert s[i] in multiset(a) + multiset(b);
    }
    forall k ensures EntriesPage(a, b, limit, k) == PageOf(Take(Below(s, k), limit + 1), limit) {
      EntriesPageIsUnionPage(a, b, limit, k);
    }
    EntriesCodecFaithful();
    FollowFrom(s, k => EntriesPage(a, b, limit, k), ENTRIES_CODEC, {0, 1}, limit, 0, |a| + |b| + 1);
    assert s[0..] == s;
  }

  /** Newest first over both sources: by time, task events before attempts at the same time, then by
      the higher row number. */
  lemma {:induction false} EntriesAreNewestFirst<T>(a: seq<Entry<T>>, b: seq<Entry<T>>, limit: nat, i: nat, j: nat)
    requires Descending(a) && Descending(b) && Ranked(a, 0) && Ranked(b, 1)
    requires limit > 0 && i < j < |FollowEntries(a, b, limit)|
    ensures
      var x, y := FollowEntries(a, b, limit)[i].key, FollowEntries(a, b, limit)[j].key;
      && x.ts >= y.ts
      && (x.ts == y.ts ==> x.rank >= y.rank)
      && (x.ts == y.ts && x.rank == y.rank ==> x.id > y.id)
  {
    EntriesEnumerateTheUnion(a, b, limit);
    assert Less(FollowEntries(a, b, limit)[j].key, FollowEntries(a, b, limit)[i].key);
  }
}
