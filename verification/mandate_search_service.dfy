/** The paginated search of the mandates given to a delegate. The table is
  * read one status partition at a time, in ascending status order, until
  * enough rows for `maxPageNumber` pages of `size` rows (plus one, to know
  * whether there is more) have been collected; the first page is returned
  * with a continuation key for each of the following pages. */
module MandateSearchService {
  import opened Wrappers
  import opened Dates
  import MandateUtils
  import opened ExpressionValues
  import PgUtils

  /** The page of the table query grows by this factor when filters on
    * mandate ids or groups may discard rows. */
  const FilterExpressionMultiplier: int := 4

  const IntMin: int := -0x8000_0000
  const IntMax: int := 0x7fff_ffff

  /** Java `int` arithmetic: the value reduced into the 32-bit range. */
  function Wrap32(x: int): (r: int)
    ensures IntMin <= r <= IntMax
    ensures IntMin <= x <= IntMax ==> r == x
  {
    (x - IntMin) % 0x1_0000_0000 + IntMin
  }

  /** Why a search fails before reading: `NumberFormatException` for a
    * continuation key whose partition is not a number. */
  datatype SearchError = NumberFormat(text: string)

  /** The attributes of a mandate row that the search reads. */
  datatype MandateRow = MandateRow(delegator: string, sk: string, state: int, delegate: string,
                                   validationcode: Option<string>)

  // ---------------------------------------------------------------------
  // Partitions

  predicate Sorted(xs: seq<int>)
  {
    forall i, j :: 0 <= i < j < |xs| ==> xs[i] <= xs[j]
  }

  /** A sorted list stays sorted with a first element no larger than its head. */
  lemma SortedCons(h: int, t: seq<int>)
    requires Sorted(t) && (t == [] || h <= t[0])
    ensures Sorted([h] + t)
  {
    var r := [h] + t;
    forall i, j | 0 <= i < j < |r|
      ensures r[i] <= r[j]
    {
      if i > 0 {
        assert r[i] == t[i - 1] && r[j] == t[j - 1];
      } else {
        assert r[j] == t[j - 1];
      }
    }
  }

  function Insert(x: int, xs: seq<int>): (r: seq<int>)
    requires Sorted(xs)
    ensures Sorted(r) && multiset(r) == multiset(xs) + multiset{x}
    ensures r[0] == x || (xs != [] && r[0] == xs[0])
  {
    if xs == [] then [x]
    else if x <= xs[0] then SortedCons(x, xs); [x] + xs
    else
      var tail := Insert(x, xs[1..]);
      assert xs == [xs[0]] + xs[1..];
      assert xs[0] <= tail[0];
      SortedCons(xs[0], tail);
      assert multiset([xs[0]] + tail) == multiset{xs[0]} + multiset(tail);
      [xs[0]] + tail
  }

  /** `Collections.sort` on a copy of the list. */
  function Sort(xs: seq<int>): (r: seq<int>)
    ensures Sorted(r) && multiset(r) == multiset(xs)
  {
    if xs == [] then []
    else
      assert xs == xs[..|xs| - 1] + [xs[|xs| - 1]];
      Insert(xs[|xs| - 1], Sort(xs[..|xs| - 1]))
  }

  /** `generatePartitions`: the statuses to read, in ascending order; none
    * when no statuses are given (one unpartitioned read). The caller's list
    * is a value here, so it is left as it was. */
  function GeneratePartitions(statuses: Option<seq<int>>): (partitions: seq<int>)
    ensures statuses.None? ==> partitions == []
    ensures statuses.Some? ==> Sorted(partitions) && multiset(partitions) == multiset(statuses.value)
  {
    if statuses.None? then [] else Sort(statuses.value)
  }

  /** The partition at an index: none when there are no partitions. */
  function PartitionAt(partitions: seq<int>, idx: int): (p: Option<int>)
    requires partitions != [] ==> 0 <= idx < |partitions|
    ensures p.None? <==> partitions == []
  {
    if partitions == [] then None else Some(partitions[idx])
  }

  // ---------------------------------------------------------------------
  // Sizes

  /** The rows to collect: `size * maxPageNumber + 1`, in `int`
    * arithmetic. */
  function RequiredSize(size: nat, maxPageNumber: nat): (n: int)
    requires size >= 1 && maxPageNumber >= 1
    ensures size * maxPageNumber + 1 <= IntMax ==> n == size * maxPageNumber + 1
  {
    Wrap32(size * maxPageNumber + 1)
  }

  /** The page size asked of the table: four times the rows to collect when
    * the query filters on mandate ids or groups. */
  function QueryPageSize(requiredSize: int, mandateIds: Option<seq<string>>, groups: Option<seq<string>>): (n: int)
    ensures (PgUtils.IsEmpty(mandateIds) && PgUtils.IsEmpty(groups)) ==> n == requiredSize
    ensures ((!PgUtils.IsEmpty(mandateIds) || !PgUtils.IsEmpty(groups)) &&
      IntMin <= FilterExpressionMultiplier * requiredSize <= IntMax) ==> n == FilterExpressionMultiplier * requiredSize
  {
    if !PgUtils.IsEmpty(mandateIds) || !PgUtils.IsEmpty(groups) then Wrap32(requiredSize * FilterExpressionMultiplier)
    else requiredSize
  }

  // ---------------------------------------------------------------------
  // Continuation keys

  /** `Integer.toString`. */
  function IntToString(i: int): (s: string)
    ensures s != []
  {
    if i < 0 then "-" + NatToString(-i) else NatToString(i)
  }

  predicate AllDigits(s: string)
  {
    forall i :: 0 <= i < |s| ==> IsAsciiDigit(s[i])
  }

  /** `Integer.parseInt` of ASCII text: an optional sign, then at least one
    * digit, and a value in the `int` range. */
  function ParseInt(s: string): (r: Option<int>)
    ensures r.Some? ==> IntMin <= r.value <= IntMax
  {
    var signed := |s| > 0 && (s[0] == '-' || s[0] == '+');
    var digits := if signed then s[1..] else s;
    if digits == [] || !AllDigits(digits) then None
    else
      var magnitude: int := MandateUtils.DecimalValue(digits);
      var v := if |s| > 0 && s[0] == '-' then -magnitude else magnitude;
      if IntMin <= v <= IntMax then Some(v) else None
  }

  /** Every `int` is parsed back from its decimal text. */
  lemma ParseIntToString(i: int)
    requires IntMin <= i <= IntMax
    ensures ParseInt(IntToString(i)) == Some(i)
  {
    var s := IntToString(i);
    if i < 0 {
      assert s[1..] == NatToString(-i);
      NatToStringValue(-i);
    } else {
      NatToStringValue(i);
    }
  }

  /** `List.indexOf`: the first position of `x`, or -1. */
  function IndexOf(xs: seq<int>, x: int): (i: int)
    ensures -1 <= i < |xs|
    ensures i >= 0 ==> xs[i] == x && forall j :: 0 <= j < i ==> xs[j] != x
    ensures i == -1 <==> x !in xs
  {
    if xs == [] then -1
    else if xs[0] == x then 0
    else
      var rest := IndexOf(xs[1..], x);
      if rest == -1 then -1 else rest + 1
  }

  /** `selectStartPartitionIdx`: the index of the partition a continuation
    * key names (its external part), or the first partition when there is no
    * key or the key names no requested partition. */
  function SelectStartPartitionIdx(external: Option<string>, partitions: seq<int>): (r: Result<nat, SearchError>)
    ensures r.Ok? ==> (r.value == 0 || r.value < |partitions|)
    ensures external.None? ==> r == Ok(0)
    ensures external.Some? ==> (r.Err? <==> ParseInt(external.value).None?)
    ensures r.Err? ==> r.error == NumberFormat(external.value)
    ensures external.Some? && ParseInt(external.value).Some? ==>
      (var p := ParseInt(external.value).value;
       (p in partitions ==> r.Ok? && partitions[r.value] == p && forall j :: 0 <= j < r.value ==> partitions[j] != p) &&
       (p !in partitions ==> r == Ok(0)))
  {
    if external.None? then Ok(0)
    else
      var p := ParseInt(external.value);
      if p.None? then Err(NumberFormat(external.value))
      else
        var startOf := IndexOf(partitions, p.value);
        if startOf >= 0 then Ok(startOf) else Ok(0)
  }

  const PkColumn: string := "pk"
  const SkColumn: string := "sk"
  const StateColumn: string := "i_state"
  const DelegateColumn: string := "s_delegate"

  /** A `PnLastEvaluatedKey`: the partition to resume from and the table key
    * of the last row read. */
  datatype LastEvaluatedKey = LastEvaluatedKey(external: string, internal: map<string, AttributeValue>)

  /** `computeLastEvaluatedKey`: the key that resumes the search after
    * `row`. */
  function ComputeLastEvaluatedKey(row: MandateRow): (k: LastEvaluatedKey)
    ensures k.internal.Keys == {PkColumn, SkColumn, StateColumn, DelegateColumn}
    ensures k.internal[PkColumn] == S(row.delegator) && k.internal[SkColumn] == S(row.sk)
    ensures k.internal[DelegateColumn] == S(row.delegate)
    ensures k.internal[StateColumn] == N(k.external)
  {
    var state := IntToString(row.state);
    LastEvaluatedKey(state, map[PkColumn := S(row.delegator), SkColumn := S(row.sk),
                                StateColumn := N(state), DelegateColumn := S(row.delegate)])
  }

  /** A key computed after a row resumes the search in that row's
    * partition. */
  lemma ResumeInRowPartition(row: MandateRow, partitions: seq<int>)
    requires IntMin <= row.state <= IntMax && row.state in partitions
    ensures var r := SelectStartPartitionIdx(Some(ComputeLastEvaluatedKey(row).external), partitions);
      r.Ok? && partitions[r.value] == row.state
  {
    ParseIntToString(row.state);
  }

  /** Whether the page after the first `i` pages of `size` rows has a first
    * row among `n` rows. */
  predicate HasKey(n: nat, size: nat, i: nat)
  {
    size * i < n
  }

  /** `computeLastEvaluatedKeys` as a value: for each page `i` from 1 up
    * to `maxPageNumber`, stopping at the first page without a first row, the
    * key that resumes after the last row of page `i`, row `size * i - 1`. */
  function LastEvaluatedKeys(rows: seq<MandateRow>, size: nat, maxPageNumber: nat): (keys: seq<LastEvaluatedKey>)
    requires size >= 1
    ensures |keys| <= maxPageNumber
    ensures forall i :: 1 <= i <= |keys| ==> HasKey(|rows|, size, i)
    ensures |keys| < maxPageNumber ==> !HasKey(|rows|, size, |keys| + 1)
  {
    if maxPageNumber == 0 then []
    else
      var prior := LastEvaluatedKeys(rows, size, maxPageNumber - 1);
      if |prior| < maxPageNumber - 1 then prior
      else if !HasKey(|rows|, size, maxPageNumber) then
        assert |prior| + 1 == maxPageNumber;
        prior
      else prior + [ComputeLastEvaluatedKey(rows[size * maxPageNumber - 1])]
  }

  /** Key `i` (from 0) resumes after row `size * (i + 1) - 1`, the last row
    * of page `i + 1`. */
  lemma {:induction false} LastEvaluatedKeysAt(rows: seq<MandateRow>, size: nat, maxPageNumber: nat, i: nat)
    requires size >= 1 && i < |LastEvaluatedKeys(rows, size, maxPageNumber)|
    ensures size * (i + 1) - 1 < |rows|
    ensures LastEvaluatedKeys(rows, size, maxPageNumber)[i] == ComputeLastEvaluatedKey(rows[size * (i + 1) - 1])
  {
    var keys := LastEvaluatedKeys(rows, size, maxPageNumber);
    var prior := LastEvaluatedKeys(rows, size, maxPageNumber - 1);
    KeysExtend(rows, size, maxPageNumber);
    if i < |prior| {
      LastEvaluatedKeysAt(rows, size, maxPageNumber - 1, i);
      assert keys[i] == keys[..|prior|][i];
    }
  }

  /** The keys for `m` pages are those for `m - 1` pages, followed at most
    * by the key of page `m`. */
  lemma KeysExtend(rows: seq<MandateRow>, size: nat, m: nat)
    requires size >= 1 && m >= 1
    ensures |LastEvaluatedKeys(rows, size, m)| <= |LastEvaluatedKeys(rows, size, m - 1)| + 1
    ensures LastEvaluatedKeys(rows, size, m)[..|LastEvaluatedKeys(rows, size, m - 1)|] == LastEvaluatedKeys(rows, size, m - 1)
    ensures |LastEvaluatedKeys(rows, size, m)| == |LastEvaluatedKeys(rows, size, m - 1)| + 1 ==>
      && |LastEvaluatedKeys(rows, size, m - 1)| + 1 == m && size * m - 1 < |rows|
      && LastEvaluatedKeys(rows, size, m)[m - 1] == ComputeLastEvaluatedKey(rows[size * m - 1])
  {
  }

  /** `computeLastEvaluatedKeys`. */
  method ComputeLastEvaluatedKeys(entities: seq<MandateRow>, size: nat, maxPageNumber: nat) returns (keys: seq<LastEvaluatedKey>)
    requires size >= 1
    ensures keys == LastEvaluatedKeys(entities, size, maxPageNumber)
  {
    keys := [];
    var i := 1;
    while i <= maxPageNumber
      invariant 1 <= i <= maxPageNumber + 1
      invariant keys == LastEvaluatedKeys(entities, size, i - 1) && |keys| == i - 1
    {
      var index := size * i;
      if |entities| <= index {
        break;
      }
      KeysStep(entities, size, i, index);
      var key := ComputeLastEvaluatedKey(entities[index - 1]);
      keys := keys + [key];
      i := i + 1;
    }
    KeysStable(entities, size, i - 1, maxPageNumber);
  }

  /** With all `i - 1` earlier keys present and a first row on page `i + 1`,
    * key `i` is appended, computed after row `size * i - 1`. */
  lemma KeysStep(rows: seq<MandateRow>, size: nat, i: nat, index: nat)
    requires size >= 1 && i >= 1 && index == size * i && index < |rows|
    requires |LastEvaluatedKeys(rows, size, i - 1)| == i - 1
    ensures index >= 1
    ensures LastEvaluatedKeys(rows, size, i) ==
      LastEvaluatedKeys(rows, size, i - 1) + [ComputeLastEvaluatedKey(rows[index - 1])]
  {
    MulMonotone(size, 1, i);
  }

  /** Once a page has no first row, asking for more pages adds no keys. */
  lemma {:induction false} KeysStable(rows: seq<MandateRow>, size: nat, c: nat, maxPageNumber: nat)
    requires size >= 1 && c <= maxPageNumber
    requires |LastEvaluatedKeys(rows, size, c)| == c
    requires c < maxPageNumber ==> !HasKey(|rows|, size, c + 1)
    ensures LastEvaluatedKeys(rows, size, maxPageNumber) == LastEvaluatedKeys(rows, size, c)
  {
    if c < maxPageNumber {
      KeysStable(rows, size, c, maxPageNumber - 1);
    }
  }

  // ---------------------------------------------------------------------
  // Reading

  /** The table as the search sees it: for each partition (`None` when the
    * query has no status condition) the pages a query returns, in order. A
    * page's key is the position of the page that follows it. */
  type Store = map<Option<int>, seq<seq<MandateRow>>>

  /** A page of query results and the key to read on from, if any. */
  datatype Page = Page(items: seq<MandateRow>, lastKey: Option<nat>)

  /** A table query: a partition, read from a key or from its start. */
  datatype Query = Query(partition: Option<int>, from: Option<nat>)

  function PagesOf(store: Store, partition: Option<int>): seq<seq<MandateRow>>
  {
    if partition in store then store[partition] else []
  }

  /** The table query `mandateDao.searchByDelegate`: the page at the key's
    * position, with the key of the next page when there is one. */
  function ReadPage(store: Store, q: Query): (page: Page)
    ensures page.lastKey.Some? ==> page.lastKey.value < |PagesOf(store, q.partition)|
    ensures page.lastKey.Some? ==> page.lastKey.value == (if q.from.Some? then q.from.value else 0) + 1
  {
    var pages := PagesOf(store, q.partition);
    var k := if q.from.Some? then q.from.value else 0;
    if k < |pages| then Page(pages[k], if k + 1 < |pages| then Some(k + 1) else None) else Page([], None)
  }

  /** The rows of the pages read, in reading order. */
  function Flatten(pages: seq<seq<MandateRow>>): (rows: seq<MandateRow>)
  {
    if pages == [] then [] else Flatten(pages[..|pages| - 1]) + pages[|pages| - 1]
  }

  /** The index of the partition being read (the `AtomicInteger` the reads
    * share). */
  class PartitionCursor {
    var idx: nat

    constructor (start: nat)
      ensures idx == start
    {
      idx := start;
    }

    /** `readMoreData`: after a page, with `currentSize` rows collected,
      * the next query, if any. */
    method ReadMoreData(currentSize: int, requiredSize: int, page: Page, partitions: seq<int>) returns (next: Option<Query>)
      requires partitions != [] ==> idx < |partitions|
      modifies this
      ensures currentSize >= requiredSize ==> next.None? && idx == old(idx)
      ensures currentSize < requiredSize && page.lastKey.None? ==>
        idx == old(idx) + 1 && (next.Some? <==> idx < |partitions|) &&
        (next.Some? ==> next.value == Query(Some(partitions[idx]), None))
      ensures currentSize < requiredSize && page.lastKey.Some? ==>
        idx == old(idx) && next == Some(Query(PartitionAt(partitions, idx), page.lastKey))
    {
      if currentSize < requiredSize {
        if page.lastKey.None? {
          idx := idx + 1;
          if idx < |partitions| {
            return Some(Query(PartitionAt(partitions, idx), None));
          }
        } else {
          return Some(Query(PartitionAt(partitions, idx), page.lastKey));
        }
      }
      return None;
    }
  }

  lemma FlattenSnoc(pages: seq<seq<MandateRow>>, items: seq<MandateRow>)
    ensures Flatten(pages + [items]) == Flatten(pages) + items
  {
    assert (pages + [items])[..|pages|] == pages;
  }

  /** How many pages of its partition a query has still to read. */
  function Remaining(store: Store, q: Query): nat
  {
    var pages := PagesOf(store, q.partition);
    var k := if q.from.Some? then q.from.value else 0;
    if k < |pages| then |pages| - k else 0
  }

  /** The pages `expand` reads from query `q`, with the cursor at `idx` and
    * `collected` rows gathered before it: the page `q` returns, then, while
    * fewer than `requiredSize` rows are gathered, the next page of the same
    * partition or, when the partition is exhausted, the first page of the
    * next partition. */
  function Chain(store: Store, partitions: seq<int>, idx: nat, q: Query, requiredSize: int, collected: int)
      : (pages: seq<seq<MandateRow>>)
    requires idx == 0 || idx < |partitions|
    requires q.partition == PartitionAt(partitions, idx)
    ensures pages != [] && pages[0] == ReadPage(store, q).items
    decreases |partitions| - idx, Remaining(store, q)
  {
    var page := ReadPage(store, q);
    var total := collected + |page.items|;
    if total >= requiredSize then [page.items]
    else if page.lastKey.Some? then
      [page.items] + Chain(store, partitions, idx, Query(PartitionAt(partitions, idx), page.lastKey), requiredSize, total)
    else if idx + 1 < |partitions| then
      [page.items] + Chain(store, partitions, idx + 1, Query(Some(partitions[idx + 1]), None), requiredSize, total)
    else [page.items]
  }

  /** When too few rows are gathered, the chain goes on with the query
    * `readMoreData` chooses: the same partition from the page's key, or the
    * next partition from its start. */
  lemma ChainNext(store: Store, partitions: seq<int>, idx: nat, q: Query, requiredSize: int, collected: int,
                  idx2: nat, q2: Query)
    requires idx == 0 || idx < |partitions|
    requires q.partition == PartitionAt(partitions, idx)
    requires collected + |ReadPage(store, q).items| < requiredSize
    requires ReadPage(store, q).lastKey.Some? ==> idx2 == idx && q2 == Query(PartitionAt(partitions, idx), ReadPage(store, q).lastKey)
    requires ReadPage(store, q).lastKey.None? ==>
      idx2 == idx + 1 && idx2 < |partitions| && q2 == Query(Some(partitions[idx2]), None)
    ensures idx2 == 0 || idx2 < |partitions|
    ensures q2.partition == PartitionAt(partitions, idx2)
    ensures Chain(store, partitions, idx, q, requiredSize, collected) ==
      [ReadPage(store, q).items] + Chain(store, partitions, idx2, q2, requiredSize, collected + |ReadPage(store, q).items|)
  {
  }

  /** Once enough rows are gathered, or the last partition has no key left,
    * the chain ends with the page just read. */
  lemma ChainEnd(store: Store, partitions: seq<int>, idx: nat, q: Query, requiredSize: int, collected: int)
    requires idx == 0 || idx < |partitions|
    requires q.partition == PartitionAt(partitions, idx)
    requires collected + |ReadPage(store, q).items| >= requiredSize ||
      (ReadPage(store, q).lastKey.None? && idx + 1 >= |partitions|)
    ensures Chain(store, partitions, idx, q, requiredSize, collected) == [ReadPage(store, q).items]
  {
  }

  /** Every page after the first is read while fewer than `requiredSize`
    * rows are gathered. */
  lemma {:induction false} ChainReadsWhileShort(store: Store, partitions: seq<int>, idx: nat, q: Query,
                                                requiredSize: int, collected: int)
    requires idx == 0 || idx < |partitions|
    requires q.partition == PartitionAt(partitions, idx)
    ensures forall j :: 1 <= j < |Chain(store, partitions, idx, q, requiredSize, collected)| ==>
      collected + |Flatten(Chain(store, partitions, idx, q, requiredSize, collected)[..j])| < requiredSize
    decreases |partitions| - idx, Remaining(store, q)
  {
    var pages := Chain(store, partitions, idx, q, requiredSize, collected);
    var page := ReadPage(store, q);
    var total := collected + |page.items|;
    if total < requiredSize && (page.lastKey.Some? || idx + 1 < |partitions|) {
      var idx2: nat := if page.lastKey.Some? then idx else idx + 1;
      var q2 := if page.lastKey.Some? then Query(PartitionAt(partitions, idx), page.lastKey)
                else Query(Some(partitions[idx + 1]), None);
      var rest := Chain(store, partitions, idx2, q2, requiredSize, total);
      assert pages == [page.items] + rest;
      ChainReadsWhileShort(store, partitions, idx2, q2, requiredSize, total);
      assert forall k :: 1 <= k < |rest| ==> total + |Flatten(rest[..k])| < requiredSize;
      forall j | 1 <= j < |pages|
        ensures collected + |Flatten(pages[..j])| < requiredSize
      {
        assert pages[..j] == [page.items] + rest[..j - 1];
        FlattenCons(page.items, rest[..j - 1]);
        if j == 1 {
          assert rest[..0] == [];
        } else {
          assert 1 <= j - 1 < |rest|;
        }
      }
    }
  }

  lemma {:induction false} FlattenCons(items: seq<MandateRow>, pages: seq<seq<MandateRow>>)
    ensures Flatten([items] + pages) == items + Flatten(pages)
    decreases |pages|
  {
    if pages == [] {
      assert [items] + pages == [items];
      assert [items][..0] == [];
    } else {
      var init := pages[..|pages| - 1];
      assert ([items] + pages)[..|pages|] == [items] + init;
      FlattenCons(items, init);
    }
  }

  /** The pages still to read, after the last one read, are the rest of
    * the chain. */
  lemma SpliceStep(whole: seq<seq<MandateRow>>, done: seq<seq<MandateRow>>, mid: seq<seq<MandateRow>>,
                   items: seq<MandateRow>, rest: seq<seq<MandateRow>>)
    requires whole == done + mid
    requires mid == [items] + rest
    ensures whole == (done + [items]) + rest
  {
  }

  /** One more page read: the chain from the first query is the pages read
    * so far, then the chain from the next query; and the cursor or the
    * position in the partition advances. */
  lemma AdvanceChain(store: Store, partitions: seq<int>, idx0: nat, q0: Query, requiredSize: int,
                     done: seq<seq<MandateRow>>, idx: nat, q: Query, collected: int, idx2: nat, q2: Query)
    requires idx0 == 0 || idx0 < |partitions|
    requires q0.partition == PartitionAt(partitions, idx0)
    requires idx == 0 || idx < |partitions|
    requires q.partition == PartitionAt(partitions, idx)
    requires Chain(store, partitions, idx0, q0, requiredSize, 0) ==
      done + Chain(store, partitions, idx, q, requiredSize, collected)
    requires collected + |ReadPage(store, q).items| < requiredSize
    requires ReadPage(store, q).lastKey.Some? ==> idx2 == idx && q2 == Query(PartitionAt(partitions, idx), ReadPage(store, q).lastKey)
    requires ReadPage(store, q).lastKey.None? ==>
      idx2 == idx + 1 && idx2 < |partitions| && q2 == Query(Some(partitions[idx2]), None)
    ensures idx2 == 0 || idx2 < |partitions|
    ensures q2.partition == PartitionAt(partitions, idx2)
    ensures Chain(store, partitions, idx0, q0, requiredSize, 0) ==
      (done + [ReadPage(store, q).items]) +
      Chain(store, partitions, idx2, q2, requiredSize, collected + |ReadPage(store, q).items|)
    ensures idx2 > idx || (idx2 == idx && Remaining(store, q2) < Remaining(store, q))
  {
    ChainNext(store, partitions, idx, q, requiredSize, collected, idx2, q2);
    SpliceStep(Chain(store, partitions, idx0, q0, requiredSize, 0), done,
               Chain(store, partitions, idx, q, requiredSize, collected), ReadPage(store, q).items,
               Chain(store, partitions, idx2, q2, requiredSize, collected + |ReadPage(store, q).items|));
  }

  /** The state of `expand` after reading the page `last` of query `q`
    * with the cursor at `idx`: the rows gathered are those of the earlier
    * pages `done` and of `last`, and the chain from the first query `q0` is
    * `done` followed by the chain from `q`. */
  ghost predicate Expanding(store: Store, partitions: seq<int>, requiredSize: int, idx0: nat, q0: Query,
                            done: seq<seq<MandateRow>>, idx: nat, q: Query, results: seq<MandateRow>, last: Page)
  {
    (idx0 == 0 || idx0 < |partitions|) && q0.partition == PartitionAt(partitions, idx0) &&
    (idx == 0 || idx < |partitions|) && q.partition == PartitionAt(partitions, idx) &&
    last == ReadPage(store, q) && results == Flatten(done) + last.items &&
    Chain(store, partitions, idx0, q0, requiredSize, 0) ==
      done + Chain(store, partitions, idx, q, requiredSize, |results| - |last.items|)
  }

  /** When `readMoreData` stops, the pages read are the whole chain. */
  lemma ExpandingEnd(store: Store, partitions: seq<int>, requiredSize: int, idx0: nat, q0: Query,
                     done: seq<seq<MandateRow>>, idx: nat, q: Query, results: seq<MandateRow>, last: Page)
    requires Expanding(store, partitions, requiredSize, idx0, q0, done, idx, q, results, last)
    requires |results| >= requiredSize || (last.lastKey.None? && idx + 1 >= |partitions|)
    ensures results == Flatten(done + [last.items])
    ensures Chain(store, partitions, idx0, q0, requiredSize, 0) == done + [last.items]
  {
    FlattenSnoc(done, last.items);
    ChainEnd(store, partitions, idx, q, requiredSize, |results| - |last.items|);
  }

  /** When `readMoreData` chooses the query `q2` with the cursor at `idx2`,
    * reading its page keeps `expand` in step with the chain, and the cursor
    * or the position in the partition advances. */
  lemma ExpandingNext(store: Store, partitions: seq<int>, requiredSize: int, idx0: nat, q0: Query,
                      done: seq<seq<MandateRow>>, idx: nat, q: Query, results: seq<MandateRow>, last: Page,
                      idx2: nat, q2: Query)
    requires Expanding(store, partitions, requiredSize, idx0, q0, done, idx, q, results, last)
    requires |results| < requiredSize
    requires last.lastKey.Some? ==> idx2 == idx && q2 == Query(PartitionAt(partitions, idx), last.lastKey)
    requires last.lastKey.None? ==> idx2 == idx + 1 && idx2 < |partitions| && q2 == Query(Some(partitions[idx2]), None)
    ensures results == Flatten(done + [last.items])
    ensures Expanding(store, partitions, requiredSize, idx0, q0, done + [last.items], idx2, q2,
                      results + ReadPage(store, q2).items, ReadPage(store, q2))
    ensures idx2 > idx || (idx2 == idx && Remaining(store, q2) < Remaining(store, q))
  {
    FlattenSnoc(done, last.items);
    AdvanceChain(store, partitions, idx0, q0, requiredSize, done, idx, q, |results| - |last.items|, idx2, q2);
  }

  /** One turn of `expand`: `readMoreData` after the page `last`, with
    * `results` gathered so far, and the page of the query it chooses. */
  method ExpandStep(store: Store, partitions: seq<int>, cursor: PartitionCursor, requiredSize: int,
                    results: seq<MandateRow>, last: Page,
                    ghost idx0: nat, ghost q0: Query, ghost done: seq<seq<MandateRow>>, ghost lastQ: Query)
      returns (next: Option<Query>, page: Page)
    requires Expanding(store, partitions, requiredSize, idx0, q0, done, cursor.idx, lastQ, results, last)
    modifies cursor
    ensures next.None? ==> results == Flatten(done + [last.items])
    ensures next.None? ==> Chain(store, partitions, idx0, q0, requiredSize, 0) == done + [last.items]
    ensures next.None? && |results| < requiredSize ==> last.lastKey.None? && cursor.idx >= |partitions|
    ensures next.Some? ==>
      (Expanding(store, partitions, requiredSize, idx0, q0, done + [last.items], cursor.idx, next.value,
                 results + page.items, page) &&
       (cursor.idx > old(cursor.idx) ||
        (cursor.idx == old(cursor.idx) && Remaining(store, next.value) < Remaining(store, lastQ))))
  {
    ghost var idx := cursor.idx;
    next := cursor.ReadMoreData(|results|, requiredSize, last, partitions);
    if next.None? {
      ExpandingEnd(store, partitions, requiredSize, idx0, q0, done, idx, lastQ, results, last);
      page := last;
      return;
    }
    ExpandingNext(store, partitions, requiredSize, idx0, q0, done, idx, lastQ, results, last, cursor.idx, next.value);
    page := ReadPage(store, next.value);
  }

  /** The `expand` of `searchByDelegate`: the page of the first query, then
    * after each page its rows are added to the results and `readMoreData`
    * chooses the next query. The pages read are `pagesRead`, the last of
    * them `last`. */
  method CollectResults(store: Store, partitions: seq<int>, cursor: PartitionCursor, requiredSize: int, q0: Query)
      returns (results: seq<MandateRow>, ghost pagesRead: seq<seq<MandateRow>>, last: Page)
    requires cursor.idx == 0 || cursor.idx < |partitions|
    requires q0.partition == PartitionAt(partitions, cursor.idx)
    modifies cursor
    ensures pagesRead == Chain(store, partitions, old(cursor.idx), q0, requiredSize, 0)
    ensures results == Flatten(pagesRead)
    ensures |results| < requiredSize ==> last.lastKey.None? && cursor.idx >= |partitions|
  {
    ghost var idx0 := cursor.idx;
    ghost var lastQ := q0;
    ghost var done: seq<seq<MandateRow>> := [];
    last := ReadPage(store, q0);
    results := last.items;
    assert Flatten(done) == [];
    while true
      invariant Expanding(store, partitions, requiredSize, idx0, q0, done, cursor.idx, lastQ, results, last)
      decreases |partitions| - cursor.idx, Remaining(store, lastQ)
    {
      var next, page := ExpandStep(store, partitions, cursor, requiredSize, results, last, idx0, q0, done, lastQ);
      if next.None? {
        pagesRead := done + [last.items];
        return;
      }
      done := done + [last.items];
      results := results + page.items;
      last := page;
      lastQ := next.value;
    }
  }

  /** The mandate as the API returns it; the mapping from a row is
    * `entityMandateDtoMapper.toDto`, a parameter here. */
  datatype MandateDto = MandateDto(mandateId: string, delegator: string, status: int, verificationCode: Option<string>)

  /** A `PageResultDto`: the rows of the first page, whether there are more,
    * and a key for each following page. */
  datatype PageResult = PageResult(page: seq<MandateDto>, more: bool, nextPagesKey: seq<LastEvaluatedKey>)

  function Min(a: int, b: int): int
  {
    if a < b then a else b
  }

  /** `prepareResult`: the first `size` rows as mandates without their
    * verification code, `more` when all the required rows were found, and
    * the continuation keys. */
  method PrepareResult(results: seq<MandateRow>, size: nat, maxPageNumber: nat, requiredSize: int,
                       toDto: MandateRow -> MandateDto) returns (r: PageResult)
    requires size >= 1
    ensures |r.page| == Min(size, |results|)
    ensures forall i :: 0 <= i < |r.page| ==>
      r.page[i].verificationCode.None? && r.page[i] == toDto(results[i]).(verificationCode := None)
    ensures r.more <==> |results| >= requiredSize
    ensures r.nextPagesKey == LastEvaluatedKeys(results, size, maxPageNumber)
  {
    var entityToConvert := results[..Min(size, |results|)];
    var dtoList := seq(|entityToConvert|, i requires 0 <= i < |entityToConvert| =>
      toDto(entityToConvert[i]).(verificationCode := None));
    var keys := ComputeLastEvaluatedKeys(results, size, maxPageNumber);
    r := PageResult(dtoList, |results| >= requiredSize, keys);
  }

  lemma {:induction false} MulMonotone(size: nat, a: nat, b: nat)
    requires a <= b
    ensures size * a <= size * b
  {
    if a < b {
      MulMonotone(size, a, b - 1);
    }
  }

  /** With the required size `size * maxPageNumber + 1` (no overflow), there
    * are more results exactly when the client gets a key for every one of
    * the `maxPageNumber` following pages, and then the first page is full. */
  lemma MoreMeansEveryKey(results: seq<MandateRow>, size: nat, maxPageNumber: nat)
    requires size >= 1 && maxPageNumber >= 1 && size * maxPageNumber + 1 <= IntMax
    ensures var keys := LastEvaluatedKeys(results, size, maxPageNumber);
      |results| >= RequiredSize(size, maxPageNumber) <==> |keys| == maxPageNumber
    ensures |results| >= RequiredSize(size, maxPageNumber) ==> Min(size, |results|) == size
  {
    var keys := LastEvaluatedKeys(results, size, maxPageNumber);
    if |results| >= RequiredSize(size, maxPageNumber) && |keys| < maxPageNumber {
      MulMonotone(size, |keys| + 1, maxPageNumber);
      assert false;
    }
    if |keys| == maxPageNumber {
      assert HasKey(|results|, size, maxPageNumber);
    }
    MulMonotone(size, 1, maxPageNumber);
  }

  /** The parameters of a search. */
  datatype SearchInput = SearchInput(delegateId: string, statuses: Option<seq<int>>, mandateIds: Option<seq<string>>,
                                     groups: Option<seq<string>>, size: nat, maxPageNumber: nat)

  /** A client's continuation key: the partition it names (external part)
    * and the position to resume from (internal part). */
  datatype StartKey = StartKey(external: string, from: nat)

  /** The rows a search collects: the pages `expand` reads from the
    * partition and position the key names, in reading order. */
  function SearchRows(store: Store, search: SearchInput, lek: Option<StartKey>): (rows: seq<MandateRow>)
    requires search.size >= 1 && search.maxPageNumber >= 1
    requires lek.Some? ==> ParseInt(lek.value.external).Some?
  {
    var partitions := GeneratePartitions(search.statuses);
    var start := SelectStartPartitionIdx(if lek.Some? then Some(lek.value.external) else None, partitions).value;
    var q := Query(PartitionAt(partitions, start), if lek.Some? then Some(lek.value.from) else None);
    Flatten(Chain(store, partitions, start, q, RequiredSize(search.size, search.maxPageNumber), 0))
  }

  /** `searchByDelegate`: the first page of the delegate's mandates, read
    * from the partition and position the key names. */
  method SearchByDelegate(store: Store, search: SearchInput, lek: Option<StartKey>, toDto: MandateRow -> MandateDto)
      returns (r: Result<PageResult, SearchError>)
    requires search.size >= 1 && search.maxPageNumber >= 1
    ensures r.Err? <==> lek.Some? && ParseInt(lek.value.external).None?
    ensures r.Ok? ==> var rows := SearchRows(store, search, lek);
      && |r.value.page| == Min(search.size, |rows|)
      && (forall i :: 0 <= i < |r.value.page| ==> r.value.page[i] == toDto(rows[i]).(verificationCode := None))
      && (r.value.more <==> |rows| >= RequiredSize(search.size, search.maxPageNumber))
      && r.value.nextPagesKey == LastEvaluatedKeys(rows, search.size, search.maxPageNumber)
    ensures r.Ok? ==> |r.value.page| <= search.size && |r.value.nextPagesKey| <= search.maxPageNumber
    ensures r.Ok? ==> forall i :: 0 <= i < |r.value.page| ==> r.value.page[i].verificationCode.None?
  {
    var partitions := GeneratePartitions(search.statuses);
    var requiredSize := RequiredSize(search.size, search.maxPageNumber);
    var start := SelectStartPartitionIdx(if lek.Some? then Some(lek.value.external) else None, partitions);
    if start.Err? {
      return Err(start.error);
    }
    var cursor := new PartitionCursor(start.value);
    var q := Query(PartitionAt(partitions, cursor.idx), if lek.Some? then Some(lek.value.from) else None);
    var results, pagesRead, last := CollectResults(store, partitions, cursor, requiredSize, q);
    var page := PrepareResult(results, search.size, search.maxPageNumber, requiredSize, toDto);
    return Ok(page);
  }
}
