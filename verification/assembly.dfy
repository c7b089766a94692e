/**
 * The whole run: one record per (store, date) pair, produced store by store
 * and date by date, then sorted by `(date, store_id)`.
 *
 * The record draws are an oracle indexed by generation position: the record
 * of the `s`-th store on the `k`-th date is the `s * D + k`-th one produced,
 * `D` being the number of dates, and uses `recordDraw(s * D + k)`.
 */
module Assembly {
  import Digits
  import opened Calendar
  import opened Stores
  import opened Simulation

  predicate AllValid(dates: seq<Date>)
  {
    forall k :: 0 <= k < |dates| ==> ValidDate(dates[k])
  }

  // ---------------------------------------------------------------------
  // Generation

  /** One turn of the inner loop: a store and a date. */
  datatype Slot = Slot(store: StoreMeta, date: Date)

  /** The (store, date) pairs in the order of the nested loop: stores outside, dates inside. */
  function Slots(stores: seq<StoreMeta>, dates: seq<Date>): (slots: seq<Slot>)
    ensures |slots| == |stores| * |dates|
    ensures forall i :: 0 <= i < |slots| ==> slots[i].date in dates && slots[i].store in stores
  {
    if stores == [] then []
    else
      var tail := Slots(stores[1..], dates);
      assert |stores| * |dates| == |dates| + (|stores| - 1) * |dates|;
      assert forall i :: 0 <= i < |tail| ==> tail[i].store in stores;
      seq(|dates|, k requires 0 <= k < |dates| => Slot(stores[0], dates[k])) + tail
  }

  /** Store `s` on date `k` is turn `s * D + k` of the loop. */
  lemma {:induction false} SlotsIndex(stores: seq<StoreMeta>, dates: seq<Date>, s: nat, k: nat)
    requires s < |stores| && k < |dates|
    ensures s * |dates| + k < |Slots(stores, dates)|
    ensures Slots(stores, dates)[s * |dates| + k] == Slot(stores[s], dates[k])
  {
    var d := |dates|;
    if s > 0 {
      SlotsIndex(stores[1..], dates, s - 1, k);
      Position(s, k, d, |stores|);
    }
  }

  /** The index arithmetic behind `SlotsIndex`: one store further is `d` turns later. */
  lemma Position(s: nat, k: nat, d: nat, n: nat)
    requires 0 < s < n && k < d
    ensures s * d + k == d + ((s - 1) * d + k)
    ensures (s - 1) * d + k < (n - 1) * d
  {
    assert (s - 1) * d + k < (s - 1) * d + d == s * d;
    assert s * d <= (n - 1) * d + 0 by {
      assert s <= n - 1;
    }
  }

  /** Conversely, every turn is some store on some date. */
  lemma {:induction false} SlotsLocate(stores: seq<StoreMeta>, dates: seq<Date>, i: nat)
    requires i < |Slots(stores, dates)|
    ensures exists s: nat, k: nat ::
      (s < |stores| && k < |dates| && i == s * |dates| + k && Slots(stores, dates)[i] == Slot(stores[s], dates[k]))
  {
    var d := |dates|;
    var slots := Slots(stores, dates);
    var tail := Slots(stores[1..], dates);
    assert slots == seq(d, k requires 0 <= k < d => Slot(stores[0], dates[k])) + tail;
    if i < d {
      assert i == 0 * d + i && slots[i] == Slot(stores[0], dates[i]);
    } else {
      SlotsLocate(stores[1..], dates, i - d);
      var s: nat, k: nat :| s < |stores| - 1 && k < d && i - d == s * d + k
        && tail[i - d] == Slot(stores[1..][s], dates[k]);
      assert i == (s + 1) * d + k;
      assert slots[i] == Slot(stores[s + 1], dates[k]);
    }
  }

  /** Two records with the same key: a date and a store identifier. */
  predicate SameKey(a: SalesRecord, b: SalesRecord)
  {
    a.date == b.date && a.storeId == b.storeId
  }

  predicate DistinctIds(stores: seq<StoreMeta>)
  {
    forall i, j :: 0 <= i < j < |stores| ==> stores[i].storeId != stores[j].storeId
  }

  predicate DistinctDates(dates: seq<Date>)
  {
    forall i, j :: 0 <= i < j < |dates| ==> dates[i] != dates[j]
  }

  predicate DistinctKeys(rs: seq<SalesRecord>)
  {
    forall i, j :: 0 <= i < j < |rs| ==> !SameKey(rs[i], rs[j])
  }

  /** With distinct store identifiers and distinct dates, every turn has its own (date, store) pair. */
  lemma SlotsDistinct(stores: seq<StoreMeta>, dates: seq<Date>, i: nat, j: nat)
    requires DistinctIds(stores) && DistinctDates(dates)
    requires i < j < |Slots(stores, dates)|
    ensures var slots := Slots(stores, dates);
      slots[i].date != slots[j].date || slots[i].store.storeId != slots[j].store.storeId
  {
    var d := |dates|;
    SlotsLocate(stores, dates, i);
    SlotsLocate(stores, dates, j);
    var s1: nat, k1: nat :| s1 < |stores| && k1 < d && i == s1 * d + k1
      && Slots(stores, dates)[i] == Slot(stores[s1], dates[k1]);
    var s2: nat, k2: nat :| s2 < |stores| && k2 < d && j == s2 * d + k2
      && Slots(stores, dates)[j] == Slot(stores[s2], dates[k2]);
    if s1 == s2 {
      assert k1 < k2;
    } else {
      assert s1 < s2 by {
        if s2 < s1 {
          Later(s2, k2, s1, k1, d);
        }
      }
    }
  }

  /** A later store number means a later turn, whatever the dates. */
  lemma Later(s1: nat, k1: nat, s2: nat, k2: nat, d: nat)
    requires s1 < s2 && k1 < d && k2 < d
    ensures s1 * d + k1 < s2 * d + k2
  {
    assert s1 * d + k1 < (s1 + 1) * d <= s2 * d;
  }

  /**
   * The records in the order they are produced, turn `i` built with `draw(i)`:
   * one record per (store, date) pair, each carrying its pair's key.
   */
  function Generate(stores: seq<StoreMeta>, dates: seq<Date>, draw: nat -> RecordDraw): (rs: seq<SalesRecord>)
    requires AllValid(dates)
    ensures |rs| == |stores| * |dates|
    ensures forall i :: 0 <= i < |rs| ==>
      var slot := Slots(stores, dates)[i];
      rs[i].date == slot.date && rs[i].storeId == slot.store.storeId && WellFormed(rs[i])
  {
    var slots := Slots(stores, dates);
    var rs := seq(|slots|, i requires 0 <= i < |slots| => MakeRecord(slots[i].store, slots[i].date, draw(i)));
    assert forall i :: 0 <= i < |rs| ==> rs[i] == MakeRecord(slots[i].store, slots[i].date, draw(i));
    rs
  }

  /** Every (store, date) pair has a record, built with the draw of its turn. */
  lemma GenerateIndex(stores: seq<StoreMeta>, dates: seq<Date>, draw: nat -> RecordDraw, s: nat, k: nat)
    requires AllValid(dates) && s < |stores| && k < |dates|
    ensures var i := s * |dates| + k;
      i < |Generate(stores, dates, draw)|
      && Generate(stores, dates, draw)[i] == MakeRecord(stores[s], dates[k], draw(i))
  {
    var i := s * |dates| + k;
    SlotsIndex(stores, dates, s, k);
    var slot := Slots(stores, dates)[i];
    assert slot.store == stores[s] && slot.date == dates[k];
    assert Generate(stores, dates, draw)[i] == MakeRecord(slot.store, slot.date, draw(i));
  }

  /** No (date, store) key occurs twice among the produced records. */
  lemma GenerateDistinctKeys(stores: seq<StoreMeta>, dates: seq<Date>, draw: nat -> RecordDraw)
    requires AllValid(dates) && DistinctIds(stores) && DistinctDates(dates)
    ensures DistinctKeys(Generate(stores, dates, draw))
  {
    var rs := Generate(stores, dates, draw);
    forall i, j | 0 <= i < j < |rs|
      ensures !SameKey(rs[i], rs[j])
    {
      SlotsDistinct(stores, dates, i, j);
    }
  }

  // ---------------------------------------------------------------------
  // The sort by (date, store_id)

  /** `(a.date, a.store_id) < (b.date, b.store_id)`: dates first, then identifiers as strings. */
  predicate KeyLess(a: SalesRecord, b: SalesRecord)
  {
    Before(a.date, b.date) || (a.date == b.date && Digits.LexLess(a.storeId, b.storeId))
  }

  /** Non-decreasing in `(date, store_id)`. */
  predicate Sorted(rs: seq<SalesRecord>)
  {
    forall i, j :: 0 <= i < j < |rs| ==> !KeyLess(rs[j], rs[i])
  }

  /** Strictly increasing in `(date, store_id)`. */
  predicate StrictlySorted(rs: seq<SalesRecord>)
  {
    forall i, j :: 0 <= i < j < |rs| ==> KeyLess(rs[i], rs[j])
  }

  lemma KeyLessIrreflexive(a: SalesRecord)
    ensures !KeyLess(a, a)
  {
    Digits.LexLessIrreflexive(a.storeId);
  }

  lemma KeyLessAsymmetric(a: SalesRecord, b: SalesRecord)
    requires KeyLess(a, b)
    ensures !KeyLess(b, a)
  {
    if a.date == b.date {
      Digits.LexLessAsymmetric(a.storeId, b.storeId);
    }
  }

  lemma KeyLessTransitive(a: SalesRecord, b: SalesRecord, c: SalesRecord)
    requires KeyLess(a, b) && KeyLess(b, c)
    ensures KeyLess(a, c)
  {
    if a.date == b.date && b.date == c.date {
      Digits.LexLessTransitive(a.storeId, b.storeId, c.storeId);
    }
  }

  /** Records with different keys are ordered one way or the other. */
  lemma KeyLessTotal(a: SalesRecord, b: SalesRecord)
    requires !SameKey(a, b)
    ensures KeyLess(a, b) || KeyLess(b, a)
  {
    if a.date == b.date {
      Digits.LexLessTotal(a.storeId, b.storeId);
    }
  }

  /** Places `x` in front of the first record whose key is not below its own. */
  function Insert(x: SalesRecord, rs: seq<SalesRecord>): (r: seq<SalesRecord>)
    requires Sorted(rs)
    ensures Sorted(r) && |r| == |rs| + 1
    ensures multiset(r) == multiset(rs) + multiset{x}
  {
    if rs == [] then [x]
    else if !KeyLess(rs[0], x) then
      InsertFront(x, rs);
      [x] + rs
    else
      var tail := Insert(x, rs[1..]);
      assert rs == [rs[0]] + rs[1..];
      InsertBehind(rs[0], x, rs[1..], tail);
      [rs[0]] + tail
  }

  /** `x` may go in front of a sorted sequence whose first key is not below it. */
  lemma InsertFront(x: SalesRecord, rs: seq<SalesRecord>)
    requires Sorted(rs) && |rs| > 0 && !KeyLess(rs[0], x)
    ensures Sorted([x] + rs)
  {
    var r := [x] + rs;
    forall j | 1 <= j < |r|
      ensures !KeyLess(r[j], x)
    {
      var y := rs[j - 1];
      assert r[j] == y;
      if j > 1 && !SameKey(rs[0], y) {
        assert !KeyLess(y, rs[0]);
        KeyLessTotal(rs[0], y);
        if KeyLess(y, x) {
          KeyLessTransitive(rs[0], y, x);
        }
      }
    }
  }

  /** The first record stays first when `x`, which sorts after it, goes into the rest. */
  lemma InsertBehind(head: SalesRecord, x: SalesRecord, rest: seq<SalesRecord>, tail: seq<SalesRecord>)
    requires Sorted([head] + rest) && KeyLess(head, x)
    requires Sorted(tail) && multiset(tail) == multiset(rest) + multiset{x}
    ensures Sorted([head] + tail)
  {
    var r := [head] + tail;
    forall j | 1 <= j < |r|
      ensures !KeyLess(r[j], head)
    {
      var y := tail[j - 1];
      assert r[j] == y;
      assert y in multiset(tail);
      if y == x {
        KeyLessAsymmetric(head, x);
      } else {
        assert y in multiset(rest);
        var k :| 0 <= k < |rest| && rest[k] == y;
        assert ([head] + rest)[k + 1] == y && ([head] + rest)[0] == head;
      }
    }
  }

  /** Insertion sort by `(date, store_id)`. */
  function SortRecords(rs: seq<SalesRecord>): (r: seq<SalesRecord>)
    ensures Sorted(r) && |r| == |rs|
    ensures multiset(r) == multiset(rs)
  {
    if rs == [] then []
    else
      assert rs == [rs[0]] + rs[1..];
      Insert(rs[0], SortRecords(rs[1..]))
  }

  /** Reordering a sequence keeps its keys distinct. */
  lemma PermutationKeepsDistinctKeys(a: seq<SalesRecord>, b: seq<SalesRecord>)
    requires DistinctKeys(a) && multiset(a) == multiset(b)
    ensures DistinctKeys(b)
  {
    forall i, j | 0 <= i < j < |b|
      ensures !SameKey(b[i], b[j])
    {
      if b[i] == b[j] {
        TwoOccurrences(b, i, j);
        var p, q := RepeatedAt(a, b[i]);
      } else {
        assert b[i] in multiset(a) && b[j] in multiset(a);
        var p :| 0 <= p < |a| && a[p] == b[i];
        var q :| 0 <= q < |a| && a[q] == b[j];
      }
    }
  }

  /** A value at two positions occurs at least twice in the multiset. */
  lemma TwoOccurrences(s: seq<SalesRecord>, i: nat, j: nat)
    requires i < j < |s| && s[i] == s[j]
    ensures multiset(s)[s[i]] >= 2
  {
    var x := s[i];
    assert s == s[..i] + [x] + s[i + 1..j] + [x] + s[j + 1..];
    assert multiset(s) == multiset(s[..i]) + multiset{x} + multiset(s[i + 1..j]) + multiset{x} + multiset(s[j + 1..]);
  }

  /** A value that occurs at least twice sits at two different positions. */
  lemma {:induction false} RepeatedAt(s: seq<SalesRecord>, x: SalesRecord) returns (p: nat, q: nat)
    requires multiset(s)[x] >= 2
    ensures p < q < |s| && s[p] == x && s[q] == x
  {
    var last := s[|s| - 1];
    var init := s[..|s| - 1];
    assert s == init + [last];
    if last == x {
      assert multiset(s)[x] == multiset(init)[x] + 1;
      p :| 0 <= p < |init| && init[p] == x;
      q := |s| - 1;
    } else {
      assert multiset(init)[x] == multiset(s)[x];
      p, q := RepeatedAt(init, x);
    }
  }

  /** A sorted sequence without repeated keys is strictly increasing. */
  lemma SortedDistinctIsStrict(rs: seq<SalesRecord>)
    requires Sorted(rs) && DistinctKeys(rs)
    ensures StrictlySorted(rs)
  {
    forall i, j | 0 <= i < j < |rs|
      ensures KeyLess(rs[i], rs[j])
    {
      KeyLessTotal(rs[i], rs[j]);
    }
  }

  // ---------------------------------------------------------------------
  // The whole run

  datatype GeneratedData = GeneratedData(sales: seq<SalesRecord>, stores: seq<StoreMeta>)

  /** The study period: every day from 2022-01-01 to 2023-12-31. */
  function StudyDates(): (dates: seq<Date>)
    ensures AllValid(dates)
  {
    DateRange(FirstDay, LastDay)
  }

  /** The study period has 730 distinct, increasing, valid days, from the first day to the last. */
  lemma StudyDatesFacts()
    ensures |StudyDates()| == 730 && AllValid(StudyDates())
    ensures StudyDates()[0] == FirstDay && StudyDates()[729] == LastDay
    ensures DistinctDates(StudyDates())
  {
    StudyPeriodLength();
    var dates := DateRange(FirstDay, LastDay);
    DateRangeCovers(FirstDay, LastDay, FirstDay);
    forall i, j | 0 <= i < j < |dates|
      ensures dates[i] != dates[j]
    {
      DateRangeIncreasing(FirstDay, LastDay, i, j);
    }
  }

  /** A roster of fewer than 1000 stores has distinct identifiers. */
  lemma RosterDistinctIds(n: nat, storeDraw: nat -> StoreDraw)
    requires n < 1000
    ensures DistinctIds(Roster(n, storeDraw))
  {
    StoreIdsIncreasing(n);
  }

  /**
   * For any roster with distinct identifiers and any list of distinct dates,
   * sorting the produced records gives one record per pair, each well formed,
   * in strictly increasing `(date, store_id)` order.
   */
  lemma SortedRun(stores: seq<StoreMeta>, dates: seq<Date>, draw: nat -> RecordDraw)
    requires AllValid(dates) && DistinctIds(stores) && DistinctDates(dates)
    ensures var produced := Generate(stores, dates, draw);
      var sales := SortRecords(produced);
      && |sales| == |stores| * |dates|
      && (forall i :: 0 <= i < |sales| ==> WellFormed(sales[i]))
      && StrictlySorted(sales)
      && multiset(sales) == multiset(produced)
  {
    var produced := Generate(stores, dates, draw);
    var sales := SortRecords(produced);
    GenerateDistinctKeys(stores, dates, draw);
    PermutationKeepsDistinctKeys(produced, sales);
    SortedDistinctIsStrict(sales);
    forall i | 0 <= i < |sales|
      ensures WellFormed(sales[i])
    {
      assert sales[i] in multiset(produced);
    }
  }

  /** Over the study period, any 50 stores with distinct identifiers give 36500 sorted, well-formed records. */
  lemma StudyRun(stores: seq<StoreMeta>, draw: nat -> RecordDraw)
    requires |stores| == StoreCount && DistinctIds(stores)
    ensures var produced := Generate(stores, StudyDates(), draw);
      var sales := SortRecords(produced);
      && |sales| == 36500
      && (forall i :: 0 <= i < |sales| ==> WellFormed(sales[i]))
      && StrictlySorted(sales)
      && multiset(sales) == multiset(produced)
  {
    StudyDatesFacts();
    SortedRun(stores, StudyDates(), draw);
  }

  /**
   * The sales table and the store table of one run: 50 stores, 730 days,
   * one record per pair, sorted by `(date, store_id)`.
   */
  function GenerateQsrSalesData(storeDraw: nat -> StoreDraw, recordDraw: nat -> RecordDraw): (out: GeneratedData)
    ensures out.stores == Roster(StoreCount, storeDraw)
    ensures |out.sales| == 36500
    ensures forall i :: 0 <= i < |out.sales| ==> WellFormed(out.sales[i])
    ensures StrictlySorted(out.sales)
    ensures multiset(out.sales) == multiset(Generate(out.stores, StudyDates(), recordDraw))
  {
    var stores := Roster(StoreCount, storeDraw);
    RosterDistinctIds(StoreCount, storeDraw);
    StudyRun(stores, recordDraw);
    GeneratedData(SortRecords(Generate(stores, StudyDates(), recordDraw)), stores)
  }
}
