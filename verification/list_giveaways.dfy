/** Listing giveaways: status filter, ordering and limit (apps/bot/src/utils/giveaway/list-giveaways.ts).
    The store's answer to a query is modelled on the records in the store's own order. */
module ListGiveaways {
  import opened Wrappers
  import opened GiveawayModel

  /** The sortable fields; sorting by `participants` (an array field) is not modelled. */
  datatype SortKey = StartTime | EndTime | Id
  datatype SortOrder = Asc | Desc

  /** `GiveawayFilterOptions`: every field may be absent. */
  datatype ListOptions = ListOptions(active: Option<bool>, sortBy: Option<SortKey>,
                                     sortOrder: Option<SortOrder>, limit: Option<int>)

  const NoOptions := ListOptions(None, None, None, None)
  /** The default of `getRecent`. */
  const DefaultRecentLimit := 5

  function Key(g: Giveaway, field: SortKey): int {
    match field
    case StartTime => g.startTime
    case EndTime => g.endTime
    case Id => g.id
  }

  /** `a` may come before `b`: its key is not greater (ascending) or not smaller (descending). */
  predicate Precedes(a: Giveaway, b: Giveaway, field: SortKey, desc: bool) {
    if desc then Key(a, field) >= Key(b, field) else Key(a, field) <= Key(b, field)
  }

  ghost predicate Ordered(s: seq<Giveaway>, field: SortKey, desc: bool) {
    forall i, j :: 0 <= i < j < |s| ==> Precedes(s[i], s[j], field, desc)
  }

  /** The status filter `{ ended: !active }`, or no filter when `active` is undefined. */
  predicate Matches(g: Giveaway, active: Option<bool>) {
    active.None? || g.ended == !active.value
  }

  function Filter(records: seq<Giveaway>, active: Option<bool>): (r: seq<Giveaway>)
    ensures forall g :: multiset(r)[g] == if Matches(g, active) then multiset(records)[g] else 0
    ensures forall g :: g in r <==> g in records && Matches(g, active)
  {
    if records == [] then []
    else
      assert records == [records[0]] + records[1..];
      (if Matches(records[0], active) then [records[0]] else []) + Filter(records[1..], active)
  }

  /** Inserts `x` into an ordered sequence, before the first element it may precede. */
  function Insert(x: Giveaway, s: seq<Giveaway>, field: SortKey, desc: bool): (r: seq<Giveaway>)
    requires Ordered(s, field, desc)
    ensures multiset(r) == multiset(s) + multiset{x}
    ensures Ordered(r, field, desc)
    ensures |r| == |s| + 1
    decreases |s|, 1
  {
    if s == [] then [x]
    else if Precedes(x, s[0], field, desc) then
      assert forall j :: 0 < j < |s| ==> Precedes(s[0], s[j], field, desc);
      [x] + s
    else
      var rest := Insert(x, s[1..], field, desc);
      HeadPrecedesInserted(x, s, field, desc);
      OrderedCons(s[0], rest, field, desc);
      assert s == [s[0]] + s[1..];
      [s[0]] + rest
  }

  lemma OrderedCons(h: Giveaway, rest: seq<Giveaway>, field: SortKey, desc: bool)
    requires Ordered(rest, field, desc)
    requires forall j :: 0 <= j < |rest| ==> Precedes(h, rest[j], field, desc)
    ensures Ordered([h] + rest, field, desc)
  {
    var r := [h] + rest;
    forall i, j | 0 <= i < j < |r|
      ensures Precedes(r[i], r[j], field, desc)
    {
      assert r[j] == rest[j - 1];
      if i > 0 {
        assert r[i] == rest[i - 1];
      }
    }
  }

  /** The head of `s` may precede everything that inserting `x` into the rest of `s` gives,
      when `x` may not precede it. */
  lemma HeadPrecedesInserted(x: Giveaway, s: seq<Giveaway>, field: SortKey, desc: bool)
    requires Ordered(s, field, desc) && s != [] && !Precedes(x, s[0], field, desc)
    ensures Ordered(s[1..], field, desc)
    ensures forall j :: 0 <= j < |Insert(x, s[1..], field, desc)| ==>
      Precedes(s[0], Insert(x, s[1..], field, desc)[j], field, desc)
    decreases |s|, 0
  {
    var rest := Insert(x, s[1..], field, desc);
    forall j | 0 <= j < |rest|
      ensures Precedes(s[0], rest[j], field, desc)
    {
      assert rest[j] in multiset(rest);
      if rest[j] != x {
        assert rest[j] in multiset(s[1..]);
        var k :| 0 <= k < |s[1..]| && s[1..][k] == rest[j];
        assert s[k + 1] == rest[j];
      }
    }
  }

  /** Insertion sort: stands for the store's `sort`, keeping the store order between equal keys. */
  function Sort(s: seq<Giveaway>, field: SortKey, desc: bool): (r: seq<Giveaway>)
    ensures multiset(r) == multiset(s)
    ensures Ordered(r, field, desc)
    ensures |r| == |s|
  {
    if s == [] then []
    else
      assert s == [s[0]] + s[1..];
      Insert(s[0], Sort(s[1..], field, desc), field, desc)
  }

  /** A truthy `limit` (any number but 0) bounds the answer; a negative limit counts by its
      magnitude, as the store does. */
  predicate Limited(limit: Option<int>) {
    limit.Some? && limit.value != 0
  }

  function Bound(n: int): nat {
    if n < 0 then -n else n
  }

  function Take(s: seq<Giveaway>, limit: Option<int>): (r: seq<Giveaway>)
    ensures r <= s
    ensures Limited(limit) ==> |r| == if Bound(limit.value) < |s| then Bound(limit.value) else |s|
    ensures !Limited(limit) ==> r == s
  {
    if Limited(limit) && Bound(limit.value) < |s| then s[..Bound(limit.value)] else s
  }

  /** The sort field and direction chosen by the options: the given field, descending iff
      `sortOrder` is "desc"; with no field, `id` descending. */
  function SortBy(options: ListOptions): SortKey {
    if options.sortBy.Some? then options.sortBy.value else Id
  }

  function Descending(options: ListOptions): bool {
    if options.sortBy.Some? then options.sortOrder == Some(Desc) else true
  }

  /** `execute(options)`: the matching records, ordered, cut to the limit. */
  function Execute(records: seq<Giveaway>, options: ListOptions): (r: seq<Giveaway>)
    ensures forall g :: g in r ==> g in records && Matches(g, options.active)
    ensures forall g :: multiset(r)[g] <= multiset(records)[g]
    ensures options.sortBy.None? ==> Ordered(r, Id, true)
    ensures options.sortBy.Some? ==>
      Ordered(r, options.sortBy.value, options.sortOrder == Some(Desc))
    ensures Limited(options.limit) ==> |r| <= Bound(options.limit.value)
    ensures Limited(options.limit) ==>
      var n := |Filter(records, options.active)|;
      |r| == if Bound(options.limit.value) < n then Bound(options.limit.value) else n
    ensures !Limited(options.limit) ==>
      forall g :: multiset(r)[g] == if Matches(g, options.active) then multiset(records)[g] else 0
  {
    var matching := Filter(records, options.active);
    var sorted := Sort(matching, SortBy(options), Descending(options));
    var r := Take(sorted, options.limit);
    PrefixSubMultiset(r, sorted);
    PrefixOrdered(r, sorted, SortBy(options), Descending(options));
    assert forall g :: g in sorted ==> g in matching by {
      forall g | g in sorted ensures g in matching {
        assert g in multiset(sorted);
      }
    }
    r
  }

  lemma PrefixSubMultiset(r: seq<Giveaway>, s: seq<Giveaway>)
    requires r <= s
    ensures multiset(r) <= multiset(s)
    ensures forall g :: g in r ==> g in s
  {
    assert s == r + s[|r|..];
  }

  lemma PrefixOrdered(r: seq<Giveaway>, s: seq<Giveaway>, field: SortKey, desc: bool)
    requires r <= s && Ordered(s, field, desc)
    ensures Ordered(r, field, desc)
  {
    assert forall i :: 0 <= i < |r| ==> r[i] == s[i];
  }

  /** `getActive()`: the records that have not ended, newest id first. */
  function GetActive(records: seq<Giveaway>): (r: seq<Giveaway>)
    ensures forall g :: multiset(r)[g] == if g.ended then 0 else multiset(records)[g]
    ensures Ordered(r, Id, true)
  {
    Execute(records, NoOptions.(active := Some(true)))
  }

  /** `getEnded()`: the records that have ended, newest id first. */
  function GetEnded(records: seq<Giveaway>): (r: seq<Giveaway>)
    ensures forall g :: multiset(r)[g] == if g.ended then multiset(records)[g] else 0
    ensures Ordered(r, Id, true)
  {
    Execute(records, NoOptions.(active := Some(false)))
  }

  /** `getRecent(limit = 5)`: any status, latest start first, at most `limit` records when the
      limit is truthy. */
  function GetRecent(records: seq<Giveaway>, limit: int): (r: seq<Giveaway>)
    ensures forall g :: g in r ==> g in records
    ensures Ordered(r, StartTime, true)
    ensures limit != 0 ==> |r| <= Bound(limit)
    ensures limit != 0 && Bound(limit) <= |records| ==> |r| == Bound(limit)
  {
    var r := Execute(records, ListOptions(None, Some(StartTime), Some(Desc), Some(limit)));
    assert Filter(records, None) == records by { FilterNone(records); }
    r
  }

  lemma {:induction false} FilterNone(records: seq<Giveaway>)
    ensures Filter(records, None) == records
  {
    if records != [] {
      FilterNone(records[1..]);
      assert records == [records[0]] + records[1..];
    }
  }

  /** Every record is listed by exactly one of `getActive` and `getEnded`. */
  lemma ActiveAndEndedPartition(records: seq<Giveaway>)
    ensures multiset(GetActive(records)) + multiset(GetEnded(records)) == multiset(records)
  {
    var a, e := GetActive(records), GetEnded(records);
    forall g ensures (multiset(a) + multiset(e))[g] == multiset(records)[g] {
      assert multiset(a)[g] == if g.ended then 0 else multiset(records)[g];
      assert multiset(e)[g] == if g.ended then multiset(records)[g] else 0;
    }
  }

  /** With a limit, the answer is the first records of the unlimited answer. */
  lemma LimitedIsPrefix(records: seq<Giveaway>, options: ListOptions)
    ensures Execute(records, options) <= Execute(records, options.(limit := None))
  {
  }
}
