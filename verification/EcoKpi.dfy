/**
 Ecological KPIs: the aggregating store (core/metrics/eco), live recording through the
 metrics sink (infra/metrics/eco.go, core/dispatch/manager.go) and replay of a dispatch
 history (jobs/ecokpi/backfill.go).
 */
module EcoKpi {
  import opened Fleet

  datatype Record = Record(id: Id, date: int, injected: real, consumed: real)

  /** A day, named by the instant at which it starts. */
  datatype Date = Date(start: int)

  type Data = map<Id, map<Date, Record>>

  /** `Day` of the store. */
  function DayOf(t: int): Date { Date(StartOfDay(t)) }

  lemma DayOfDay(t: int)
    ensures StartOfDay(StartOfDay(t)) == StartOfDay(t)
  {
  }

  // ----- the raw log

  /** The contribution of one record to the sums of a vehicle and day. */
  function Counts(r: Record, id: Id, day: Date): bool { r.id == id && DayOf(r.date) == day }

  ghost function Injected(log: seq<Record>, id: Id, day: Date): real {
    if log == [] then 0.0
    else Injected(log[..|log| - 1], id, day) + if Counts(log[|log| - 1], id, day) then log[|log| - 1].injected else 0.0
  }

  ghost function Consumed(log: seq<Record>, id: Id, day: Date): real {
    if log == [] then 0.0
    else Consumed(log[..|log| - 1], id, day) + if Counts(log[|log| - 1], id, day) then log[|log| - 1].consumed else 0.0
  }

  ghost predicate Has(log: seq<Record>, id: Id, day: Date) {
    exists r :: r in log && Counts(r, id, day)
  }

  /** What the raw log says about a vehicle and a day. */
  ghost function Summary(log: seq<Record>, id: Id, day: Date): Record {
    Record(id, day.start, Injected(log, id, day), Consumed(log, id, day))
  }

  lemma SummarySnoc(log: seq<Record>, r: Record, id: Id, day: Date)
    ensures Injected(log + [r], id, day) == Injected(log, id, day) + if Counts(r, id, day) then r.injected else 0.0
    ensures Consumed(log + [r], id, day) == Consumed(log, id, day) + if Counts(r, id, day) then r.consumed else 0.0
    ensures Has(log + [r], id, day) <==> Has(log, id, day) || Counts(r, id, day)
  {
    var all := log + [r];
    assert all[..|all| - 1] == log;
    assert forall x :: x in all <==> x in log || x == r;
    if Counts(r, id, day) {
      assert r in all;
    }
  }

  lemma {:induction false} SummaryConcat(a: seq<Record>, b: seq<Record>, id: Id, day: Date)
    ensures Injected(a + b, id, day) == Injected(a, id, day) + Injected(b, id, day)
    ensures Consumed(a + b, id, day) == Consumed(a, id, day) + Consumed(b, id, day)
    ensures Has(a + b, id, day) <==> Has(a, id, day) || Has(b, id, day)
  {
    if b == [] {
      assert a + b == a;
    } else {
      var n := |b| - 1;
      SummaryConcat(a, b[..n], id, day);
      assert a + b == a + b[..n] + [b[n]];
      assert b == b[..n] + [b[n]];
      SummarySnoc(a + b[..n], b[n], id, day);
      SummarySnoc(b[..n], b[n], id, day);
    }
  }

  // ----- MemoryStore

  function RecordAt(data: Data, id: Id, day: Date): Record {
    if id in data && day in data[id] then data[id][day] else Record(id, day.start, 0.0, 0.0)
  }

  /** MemoryStore.Add */
  function AddRecord(data: Data, r: Record): Data {
    var day := DayOf(r.date);
    var rec := RecordAt(data, r.id, day);
    var days := if r.id in data then data[r.id] else map[];
    data[r.id := days[day := rec.(injected := rec.injected + r.injected, consumed := rec.consumed + r.consumed)]]
  }

  ghost function Index(log: seq<Record>): Data {
    if log == [] then map[] else AddRecord(Index(log[..|log| - 1]), log[|log| - 1])
  }

  ghost predicate Agrees(data: Data, log: seq<Record>) {
    && (forall id, day :: id in data && day in data[id] ==> Has(log, id, day) && data[id][day] == Summary(log, id, day))
    && (forall id, day :: Has(log, id, day) ==> id in data && day in data[id])
    && (forall id :: id in data ==> data[id] != map[])
  }

  lemma AddAgrees(data: Data, log: seq<Record>, r: Record)
    requires Agrees(data, log)
    ensures Agrees(AddRecord(data, r), log + [r])
  {
    hide Injected, Consumed, Has;
    var data', log' := AddRecord(data, r), log + [r];
    assert DayOf(r.date) in data'[r.id];
    forall id, day | id in data' && day in data'[id]
      ensures Has(log', id, day) && data'[id][day] == Summary(log', id, day)
    {
      SummarySnoc(log, r, id, day);
      if !(id in data && day in data[id]) {
        Unlisted(log, id, day);
      }
    }
    forall id, day | Has(log', id, day) ensures id in data' && day in data'[id] {
      SummarySnoc(log, r, id, day);
    }
  }

  lemma {:induction false} Unlisted(log: seq<Record>, id: Id, day: Date)
    requires !Has(log, id, day)
    ensures Injected(log, id, day) == 0.0 && Consumed(log, id, day) == 0.0
  {
    if log != [] {
      var n := |log| - 1;
      assert log[n] in log;
      assert forall r :: r in log[..n] ==> r in log;
      Unlisted(log[..n], id, day);
    }
  }

  /** The index agrees with the raw log: the same days, and the sums of the log for each of them. */
  lemma {:induction false} IndexAgrees(log: seq<Record>)
    ensures Agrees(Index(log), log)
  {
    if log != [] {
      var n := |log| - 1;
      IndexAgrees(log[..n]);
      AddAgrees(Index(log[..n]), log[..n], log[n]);
      assert log == log[..n] + [log[n]];
    }
  }

  ghost predicate SameSums(a: seq<Record>, b: seq<Record>) {
    forall id, day :: (Has(a, id, day) <==> Has(b, id, day)) && Summary(a, id, day) == Summary(b, id, day)
  }

  lemma AgreeingDataAreEqual(data: Data, a: seq<Record>, data': Data, b: seq<Record>)
    requires Agrees(data, a) && Agrees(data', b) && SameSums(a, b)
    ensures data == data'
  {
    hide Injected, Consumed, Has;
    KeysTransfer(data, a, data', b);
    KeysTransfer(data', b, data, a);
    forall id | id in data ensures data[id] == data'[id] {
      forall day ensures day in data[id] <==> day in data'[id] {
        assert day in data[id] ==> Has(a, id, day);
        assert day in data'[id] ==> Has(b, id, day);
      }
      forall day | day in data[id] ensures data[id][day] == data'[id][day] {
        assert Summary(a, id, day) == Summary(b, id, day);
      }
    }
  }

  lemma KeysTransfer(data: Data, a: seq<Record>, data': Data, b: seq<Record>)
    requires Agrees(data, a) && Agrees(data', b) && SameSums(a, b)
    ensures data.Keys <= data'.Keys
  {
    hide Injected, Consumed, Has;
    forall id | id in data ensures id in data' {
      var day :| day in data[id].Keys;
      assert Has(a, id, day);
    }
  }

  /** Logs with the same sums have the same index. */
  lemma SameSumsSameIndex(a: seq<Record>, b: seq<Record>)
    requires SameSums(a, b)
    ensures Index(a) == Index(b)
  {
    IndexAgrees(a);
    IndexAgrees(b);
    AgreeingDataAreEqual(Index(a), a, Index(b), b);
  }

  /** The order of the additions does not matter. */
  lemma OrderOfAddsDoesNotMatter(a: seq<Record>, b: seq<Record>)
    requires multiset(a) == multiset(b)
    ensures Index(a) == Index(b)
  {
    forall id, day ensures (Has(a, id, day) <==> Has(b, id, day)) && Summary(a, id, day) == Summary(b, id, day) {
      PermutedSums(a, b, id, day);
    }
    SameSumsSameIndex(a, b);
  }

  lemma TakeOut(a: seq<Record>, b: seq<Record>, k: nat)
    requires multiset(a) == multiset(b) && a != [] && k < |b| && b[k] == a[|a| - 1]
    ensures b == b[..k] + [b[k]] + b[k + 1..]
    ensures multiset(a[..|a| - 1]) == multiset(b[..k] + b[k + 1..])
  {
    var n := |a| - 1;
    assert a == a[..n] + [a[n]];
    assert b == b[..k] + [b[k]] + b[k + 1..];
    assert multiset(a) == multiset(a[..n]) + multiset{a[n]};
    assert multiset(b) == multiset(b[..k]) + multiset{b[k]} + multiset(b[k + 1..]);
    assert multiset(a[..n]) == multiset(a) - multiset{a[n]};
    assert multiset(b[..k] + b[k + 1..]) == multiset(b[..k]) + multiset(b[k + 1..]) == multiset(b) - multiset{b[k]};
  }

  lemma {:induction false} PermutedSums(a: seq<Record>, b: seq<Record>, id: Id, day: Date)
    requires multiset(a) == multiset(b)
    ensures Has(a, id, day) <==> Has(b, id, day)
    ensures Injected(a, id, day) == Injected(b, id, day) && Consumed(a, id, day) == Consumed(b, id, day)
    decreases |a|
  {
    hide Counts;
    assert |a| == |multiset(a)| == |multiset(b)| == |b|;
    if a != [] {
      var n := |a| - 1;
      var r := a[n];
      assert a == a[..n] + [r];
      assert r in multiset(b);
      assert r in b;
      var k :| 0 <= k < |b| && b[k] == r;
      var front, back := b[..k], b[k + 1..];
      TakeOut(a, b, k);
      PermutedSums(a[..n], front + back, id, day);
      SummarySnoc(a[..n], r, id, day);
      SummaryConcat(front + [r], back, id, day);
      SummarySnoc(front, r, id, day);
      SummaryConcat(front, back, id, day);
    }
  }

  // ----- Query

  ghost predicate StrictlyIncreasing(res: seq<Record>) {
    forall i, j :: 0 <= i < j < |res| ==> res[i].date < res[j].date
  }

  ghost predicate DistinctDates(res: seq<Record>) {
    forall i, j :: 0 <= i < j < |res| ==> res[i].date != res[j].date
  }

  /** All that is used of the library sort. */
  method SortByDate(res: seq<Record>) returns (sorted: seq<Record>)
    requires DistinctDates(res)
    ensures StrictlyIncreasing(sorted)
    ensures forall r :: r in sorted <==> r in res
  {
    sorted := [];
    for i := 0 to |res|
      invariant StrictlyIncreasing(sorted)
      invariant forall r :: r in sorted <==> r in res[..i]
    {
      var k := 0;
      while k < |sorted| && sorted[k].date < res[i].date
        invariant 0 <= k <= |sorted|
        invariant forall j :: 0 <= j < k ==> sorted[j].date < res[i].date
      {
        k := k + 1;
      }
      assert res[..i + 1] == res[..i] + [res[i]];
      NotYetSorted(res, i, sorted);
      InsertKeepsOrder(sorted, k, res[i]);
      sorted := sorted[..k] + [res[i]] + sorted[k..];
    }
    assert res[..|res|] == res;
  }

  lemma NotYetSorted(res: seq<Record>, i: nat, sorted: seq<Record>)
    requires DistinctDates(res) && i < |res| && forall r :: r in sorted <==> r in res[..i]
    ensures forall j :: 0 <= j < |sorted| ==> sorted[j].date != res[i].date
  {
    forall j | 0 <= j < |sorted| ensures sorted[j].date != res[i].date {
      assert sorted[j] in sorted;
      var m :| 0 <= m < i && res[..i][m] == sorted[j];
    }
  }

  lemma InsertKeepsOrder(sorted: seq<Record>, k: nat, r: Record)
    requires StrictlyIncreasing(sorted) && k <= |sorted|
    requires forall j :: 0 <= j < k ==> sorted[j].date < r.date
    requires k < |sorted| ==> r.date <= sorted[k].date
    requires forall j :: 0 <= j < |sorted| ==> sorted[j].date != r.date
    ensures var out := sorted[..k] + [r] + sorted[k..];
            StrictlyIncreasing(out) && forall x :: x in out <==> x in sorted || x == r
  {
    assert sorted == sorted[..k] + sorted[k..];
  }

  /** Strictly date-increasing, one record per day in range that has an add, each the sum over the log. */
  ghost predicate Answers(res: seq<Record>, log: seq<Record>, id: Id, first: Date, last: Date) {
    && StrictlyIncreasing(res)
    && forall r :: r in res <==> first.start <= r.date <= last.start && Has(log, id, Date(r.date)) && r == Summary(log, id, Date(r.date))
  }

  lemma SameData(data: Data, r: Record, days: map<Date, Record>, after: Data)
    requires after == data[r.id := days]
    requires days == var day, rec := DayOf(r.date), RecordAt(data, r.id, DayOf(r.date));
                     (if r.id in data then data[r.id] else map[])
                     [day := rec.(injected := rec.injected + r.injected, consumed := rec.consumed + r.consumed)]
    ensures after == AddRecord(data, r)
  {
  }

  class MemoryStore {
    var data: Data
    ghost var log: seq<Record>

    ghost predicate Valid()
      reads this
    {
      data == Index(log)
    }

    constructor ()
      ensures Valid() && log == [] && data == map[]
    {
      data, log := map[], [];
    }

    method Add(r: Record)
      requires Valid()
      modifies this
      ensures Valid() && log == old(log) + [r] && data == AddRecord(old(data), r)
    {
      if r.id !in data {
        data := data[r.id := map[]];
      }
      var day := DayOf(r.date);
      var days := data[r.id];
      if day !in days {
        days := days[day := Record(r.id, day.start, 0.0, 0.0)];
      }
      var rec := days[day];
      days := days[day := rec.(injected := rec.injected + r.injected, consumed := rec.consumed + r.consumed)];
      data := data[r.id := days];
      SameData(old(data), r, days, data);
      log := log + [r];
      assert log[..|log| - 1] == old(log);
    }

    /** Days are visited in any order, as Go iterates over maps, and then sorted. */
    method Query(id: Id, start: int, end: int) returns (res: seq<Record>)
      requires Valid()
      ensures Answers(res, log, id, DayOf(start), DayOf(end))
    {
      IndexAgrees(log);
      hide Index, Injected, Consumed, Has, Agrees;
      var first, last := DayOf(start), DayOf(end);
      var days := if id in data then data[id] else map[];
      DaysAgree(data, log, id, days);
      res := [];
      var todo := days.Keys;
      while todo != {}
        invariant todo <= days.Keys
        invariant DistinctDates(res)
        invariant forall r :: r in res <==> Date(r.date) in days && Date(r.date) !in todo
                                             && first.start <= r.date <= last.start && r == days[Date(r.date)]
        decreases |todo|
      {
        var d :| d in todo;
        assert forall i :: 0 <= i < |res| ==> res[i] in res;
        todo := todo - {d};
        if d.start < first.start || d.start > last.start {
          continue;
        }
        assert days[d].date == d.start;
        res := res + [days[d]];
      }
      res := SortByDate(res);
    }
  }

  lemma DaysAgree(data: Data, log: seq<Record>, id: Id, days: map<Date, Record>)
    requires Agrees(data, log) && days == if id in data then data[id] else map[]
    ensures forall d :: d in days <==> Has(log, id, d)
    ensures forall d :: d in days ==> days[d] == Summary(log, id, d) && days[d].date == d.start
  {
    hide Has, Injected, Consumed;
  }

  // ----- recording dispatches

  /** The part of a DispatchResult that the KPIs are computed from. */
  datatype Dispatch = Dispatch(assignments: map<Id, real>, timestamp: int, duration: int)

  /** The record of one assignment; power at or above zero is injected, the rest is consumed. */
  function KpiRecord(id: Id, power: real, date: int, hours: real): Record {
    var kwh := power * hours;
    if power >= 0.0 then Record(id, date, kwh, 0.0) else Record(id, date, 0.0, -kwh)
  }

  /** An iteration order of a map. */
  ghost predicate Enumerates(order: seq<Id>, m: map<Id, real>) {
    && (forall i, j :: 0 <= i < j < |order| ==> order[i] != order[j])
    && (forall id :: id in order <==> id in m)
  }

  /** The records of one dispatch in the given order, dated `date`. */
  ghost function Batch(h: Dispatch, order: seq<Id>, date: int): seq<Record>
    requires forall id :: id in order ==> id in h.assignments
  {
    seq(|order|, i requires 0 <= i < |order| =>
      assert order[i] in order; KpiRecord(order[i], h.assignments[order[i]], date, Hours(h.duration)))
  }

  /**
   `log` is a history written dispatch by dispatch, each in some iteration order and dated
   with some instant of the dispatch's day.
   */
  ghost predicate Written(history: seq<Dispatch>, log: seq<Record>)
    decreases |history|
  {
    if history == [] then log == []
    else
      var n := |history| - 1;
      exists init, order, date :: LastBatch(history[n], log, init, order, date) && Written(history[..n], init)
  }

  ghost predicate LastBatch(h: Dispatch, log: seq<Record>, init: seq<Record>, order: seq<Id>, date: int) {
    && Enumerates(order, h.assignments)
    && StartOfDay(date) == StartOfDay(h.timestamp)
    && log == init + Batch(h, order, date)
  }

  /** Energy of a vehicle over the dispatches of a day, read off the history itself. */
  ghost function HistoryRecord(history: seq<Dispatch>, id: Id, day: Date): Record {
    if history == [] then Record(id, day.start, 0.0, 0.0)
    else
      var n := |history| - 1;
      var sum, h := HistoryRecord(history[..n], id, day), history[n];
      if id in h.assignments && DayOf(h.timestamp) == day then
        var r := KpiRecord(id, h.assignments[id], day.start, Hours(h.duration));
        sum.(injected := sum.injected + r.injected, consumed := sum.consumed + r.consumed)
      else sum
  }

  ghost predicate InHistory(history: seq<Dispatch>, id: Id, day: Date) {
    exists h :: h in history && id in h.assignments && DayOf(h.timestamp) == day
  }

  /** Within one dispatch a vehicle is counted once, whatever the order. */
  lemma {:induction false} BatchSummary(h: Dispatch, order: seq<Id>, date: int, id: Id, day: Date, k: nat)
    requires Enumerates(order, h.assignments) && StartOfDay(date) == StartOfDay(h.timestamp) && k <= |order|
    ensures var log := Batch(h, order, date)[..k];
            var hit := id in order[..k] && DayOf(h.timestamp) == day;
            && (Has(log, id, day) <==> hit)
            && Injected(log, id, day) == (if hit then KpiRecord(id, h.assignments[id], date, Hours(h.duration)).injected else 0.0)
            && Consumed(log, id, day) == (if hit then KpiRecord(id, h.assignments[id], date, Hours(h.duration)).consumed else 0.0)
  {
    hide KpiRecord, Hours;
    if k > 0 {
      BatchSummary(h, order, date, id, day, k - 1);
      var log := Batch(h, order, date);
      assert log[..k] == log[..k - 1] + [log[k - 1]];
      assert order[..k] == order[..k - 1] + [order[k - 1]];
      KpiRecordFields(order[k - 1], h.assignments[order[k - 1]], date, Hours(h.duration));
      SummarySnoc(log[..k - 1], log[k - 1], id, day);
    }
  }

  lemma KpiRecordFields(id: Id, power: real, date: int, hours: real)
    ensures KpiRecord(id, power, date, hours).id == id && KpiRecord(id, power, date, hours).date == date
    ensures forall other :: KpiRecord(id, power, date, hours) == KpiRecord(id, power, other, hours).(date := date)
  {
  }

  /** Whatever the iteration orders, the log sums up to the history. */
  lemma {:induction false} WrittenSums(history: seq<Dispatch>, log: seq<Record>, id: Id, day: Date)
    requires Written(history, log)
    ensures Summary(log, id, day) == HistoryRecord(history, id, day)
    ensures Has(log, id, day) <==> InHistory(history, id, day)
    decreases |history|
  {
    hide KpiRecord, Hours, Batch, Enumerates;
    if history != [] {
      var n := |history| - 1;
      var h := history[n];
      var init, order, date :| LastBatch(h, log, init, order, date) && Written(history[..n], init);
      EnumeratedIds(order, h.assignments);
      WrittenSums(history[..n], init, id, day);
      BatchTotals(h, order, date, id, day);
      SummaryConcat(init, Batch(h, order, date), id, day);
      assert history == history[..n] + [h];
    }
  }

  // ----- energy, straight from the history

  /** Energy a vehicle was asked to inject on a day: the positive powers times their hours. */
  ghost function EnergyIn(history: seq<Dispatch>, id: Id, day: Date): real {
    if history == [] then 0.0
    else
      var n := |history| - 1;
      var h := history[n];
      EnergyIn(history[..n], id, day)
      + if id in h.assignments && DayOf(h.timestamp) == day then Max(0.0, h.assignments[id]) * Hours(h.duration) else 0.0
  }

  /** Energy a vehicle was asked to consume on a day: the negative powers times their hours. */
  ghost function EnergyOut(history: seq<Dispatch>, id: Id, day: Date): real {
    if history == [] then 0.0
    else
      var n := |history| - 1;
      var h := history[n];
      EnergyOut(history[..n], id, day)
      + if id in h.assignments && DayOf(h.timestamp) == day then Max(0.0, -h.assignments[id]) * Hours(h.duration) else 0.0
  }

  lemma KpiEnergy(id: Id, power: real, date: int, hours: real)
    ensures KpiRecord(id, power, date, hours).injected == Max(0.0, power) * hours
    ensures KpiRecord(id, power, date, hours).consumed == Max(0.0, -power) * hours
  {
  }

  lemma {:induction false} HistoryEnergy(history: seq<Dispatch>, id: Id, day: Date)
    ensures HistoryRecord(history, id, day)
         == Record(id, day.start, EnergyIn(history, id, day), EnergyOut(history, id, day))
  {
    hide KpiRecord, Hours, StartOfDay;
    if history != [] {
      var n := |history| - 1;
      var h := history[n];
      HistoryEnergy(history[..n], id, day);
      if id in h.assignments {
        KpiEnergy(id, h.assignments[id], day.start, Hours(h.duration));
      }
    }
  }

  /** A log into which a history was written holds its energies, vehicle by vehicle and day by day, on top of what it held. */
  ghost predicate HoldsEnergy(history: seq<Dispatch>, before: seq<Record>, log: seq<Record>) {
    forall id, day ::
      && Injected(log, id, day) == Injected(before, id, day) + EnergyIn(history, id, day)
      && Consumed(log, id, day) == Consumed(before, id, day) + EnergyOut(history, id, day)
      && (Has(log, id, day) <==> Has(before, id, day) || InHistory(history, id, day))
  }

  lemma WrittenEnergy(history: seq<Dispatch>, before: seq<Record>, added: seq<Record>)
    requires Written(history, added)
    ensures HoldsEnergy(history, before, before + added)
  {
    hide Written, Has, Injected, Consumed, HistoryRecord, InHistory, EnergyIn, EnergyOut;
    forall id, day
      ensures Injected(before + added, id, day) == Injected(before, id, day) + EnergyIn(history, id, day)
      ensures Consumed(before + added, id, day) == Consumed(before, id, day) + EnergyOut(history, id, day)
      ensures Has(before + added, id, day) <==> Has(before, id, day) || InHistory(history, id, day)
    {
      WrittenSums(history, added, id, day);
      HistoryEnergy(history, id, day);
      SummaryConcat(before, added, id, day);
    }
  }

  /** The answer to a query over a history: one record per day in range with a dispatch of the vehicle, with its energies. */
  ghost predicate Reports(res: seq<Record>, history: seq<Dispatch>, id: Id, first: Date, last: Date) {
    && StrictlyIncreasing(res)
    && forall r :: r in res <==>
         && first.start <= r.date <= last.start && InHistory(history, id, Date(r.date))
         && r == Record(id, r.date, EnergyIn(history, id, Date(r.date)), EnergyOut(history, id, Date(r.date)))
  }

  lemma AnswersReport(res: seq<Record>, history: seq<Dispatch>, log: seq<Record>, id: Id, first: Date, last: Date)
    requires HoldsEnergy(history, [], log) && Answers(res, log, id, first, last)
    ensures Reports(res, history, id, first, last)
  {
    hide EnergyIn, EnergyOut, InHistory, StrictlyIncreasing;
    forall day
      ensures Has(log, id, day) <==> InHistory(history, id, day)
      ensures Summary(log, id, day) == Record(id, day.start, EnergyIn(history, id, day), EnergyOut(history, id, day))
    {
      assert Injected([], id, day) == 0.0 && Consumed([], id, day) == 0.0 && !Has([], id, day);
    }
    hide Has, Injected, Consumed;
  }

  lemma BatchTotals(h: Dispatch, order: seq<Id>, date: int, id: Id, day: Date)
    requires Enumerates(order, h.assignments) && StartOfDay(date) == StartOfDay(h.timestamp)
    ensures var log := Batch(h, order, date);
            var hit := id in h.assignments && DayOf(h.timestamp) == day;
            && (Has(log, id, day) <==> hit)
            && Injected(log, id, day) == (if hit then KpiRecord(id, h.assignments[id], day.start, Hours(h.duration)).injected else 0.0)
            && Consumed(log, id, day) == (if hit then KpiRecord(id, h.assignments[id], day.start, Hours(h.duration)).consumed else 0.0)
  {
    hide KpiRecord, Hours;
    BatchSummary(h, order, date, id, day, |order|);
    assert Batch(h, order, date)[..|order|] == Batch(h, order, date) && order[..|order|] == order;
    if id in h.assignments {
      KpiRecordFields(id, h.assignments[id], date, Hours(h.duration));
    }
  }

  /**
   Replay and live recording of the same history give the same store, in all iteration orders
   and whatever was in the store `before`.
   */
  lemma ReplayEqualsLive(history: seq<Dispatch>, before: seq<Record>, live: seq<Record>, replayed: seq<Record>)
    requires Written(history, live) && Written(history, replayed)
    ensures Index(before + live) == Index(before + replayed)
  {
    hide Written, Has, Injected, Consumed, Index, HistoryRecord, InHistory;
    var a, b := before + live, before + replayed;
    forall id, day ensures (Has(a, id, day) <==> Has(b, id, day)) && Summary(a, id, day) == Summary(b, id, day) {
      WrittenSums(history, live, id, day);
      WrittenSums(history, replayed, id, day);
      SummaryConcat(before, live, id, day);
      SummaryConcat(before, replayed, id, day);
    }
    SameSumsSameIndex(a, b);
  }

  // ----- the two writers

  lemma BatchSnoc(h: Dispatch, order: seq<Id>, id: Id, date: int)
    requires forall x :: x in order + [id] ==> x in h.assignments
    ensures forall x :: x in order ==> x in order + [id]
    ensures id in order + [id]
    ensures Batch(h, order + [id], date)
         == Batch(h, order, date) + [KpiRecord(id, h.assignments[id], date, Hours(h.duration))]
  {
    hide KpiRecord, Hours;
    assert (order + [id])[|order|] == id;
  }

  lemma WrittenNext(history: seq<Dispatch>, n: nat, log: seq<Record>, order: seq<Id>, date: int)
    requires n < |history| && Written(history[..n], log) && Enumerates(order, history[n].assignments)
    requires StartOfDay(date) == StartOfDay(history[n].timestamp)
    ensures Written(history[..n + 1], log + Batch(history[n], order, date))
  {
    hide Batch, Enumerates;
    var h := history[..n + 1];
    assert h[..|h| - 1] == history[..n] && h[|h| - 1] == history[n];
    EnumeratedIds(order, history[n].assignments);
    assert LastBatch(history[n], log + Batch(history[n], order, date), log, order, date);
  }

  /** The inner loop of Backfill: one dispatch, in whatever order the map is iterated. */
  method ReplayDispatch(store: MemoryStore, h: Dispatch) returns (ghost order: seq<Id>)
    requires store.Valid()
    modifies store
    ensures store.Valid() && Enumerates(order, h.assignments)
    ensures store.log == old(store.log) + Batch(h, order, StartOfDay(h.timestamp))
  {
    hide Index, KpiRecord, Hours;
    order := [];
    var todo := h.assignments.Keys;
    ghost var date := StartOfDay(h.timestamp);
    assert store.log == old(store.log) + Batch(h, order, date);
    while todo != {}
      invariant todo <= h.assignments.Keys
      invariant forall i, j :: 0 <= i < j < |order| ==> order[i] != order[j]
      invariant forall id :: id in order <==> id in h.assignments && id !in todo
      invariant store.Valid() && store.log == old(store.log) + Batch(h, order, date)
      decreases |todo|
    {
      var id :| id in todo;
      todo := todo - {id};
      store.Add(KpiRecord(id, h.assignments[id], StartOfDay(h.timestamp), Hours(h.duration)));
      BatchSnoc(h, order, id, date);
      order := order + [id];
    }
  }

  method Backfill(store: MemoryStore, history: seq<Dispatch>) returns (ghost added: seq<Record>)
    requires store.Valid()
    modifies store
    ensures store.Valid() && store.log == old(store.log) + added && Written(history, added)
    ensures HoldsEnergy(history, old(store.log), store.log)
  {
    hide Index, Batch, Enumerates, HoldsEnergy;
    added := [];
    for n := 0 to |history|
      invariant store.Valid() && store.log == old(store.log) + added && Written(history[..n], added)
    {
      ghost var order := ReplayDispatch(store, history[n]);
      DayOfDay(history[n].timestamp);
      EnumeratedIds(order, history[n].assignments);
      WrittenNext(history, n, added, order, StartOfDay(history[n].timestamp));
      added := added + Batch(history[n], order, StartOfDay(history[n].timestamp));
    }
    assert history[..|history|] == history;
    WrittenEnergy(history, old(store.log), added);
  }

  /** A row handed to the metrics sink by recordMetrics. */
  datatype MetricsRow = MetricsRow(start: int, end: int, id: Id, power: real)

  /** recordMetrics: one row per assignment, in whatever order the map is iterated. */
  method MetricsRows(h: Dispatch) returns (rows: seq<MetricsRow>, ghost order: seq<Id>)
    ensures Enumerates(order, h.assignments) && |rows| == |order|
    ensures forall i, j :: 0 <= i < j < |rows| ==> rows[i].id != rows[j].id
    ensures forall r :: r in rows ==>
              r.id in h.assignments && r == MetricsRow(h.timestamp, h.timestamp + h.duration, r.id, h.assignments[r.id])
    ensures forall i :: 0 <= i < |rows| ==>
              (order[i] in h.assignments
               && rows[i] == MetricsRow(h.timestamp, h.timestamp + h.duration, order[i], h.assignments[order[i]]))
  {
    rows, order := [], [];
    var todo := h.assignments.Keys;
    while todo != {}
      invariant todo <= h.assignments.Keys
      invariant forall i, j :: 0 <= i < j < |order| ==> order[i] != order[j]
      invariant forall id :: id in order <==> id in h.assignments && id !in todo
      invariant |rows| == |order|
      invariant forall i :: 0 <= i < |rows| ==>
                  (order[i] in h.assignments
                   && rows[i] == MetricsRow(h.timestamp, h.timestamp + h.duration, order[i], h.assignments[order[i]]))
      decreases |todo|
    {
      var id :| id in todo;
      todo := todo - {id};
      rows := rows + [MetricsRow(h.timestamp, h.timestamp + h.duration, id, h.assignments[id])];
      order := order + [id];
    }
  }

  /** EcoSink.RecordDispatchResult as far as the store is concerned. */
  method RecordRows(store: MemoryStore, rows: seq<MetricsRow>, ghost h: Dispatch, ghost order: seq<Id>)
    requires store.Valid() && |rows| == |order|
    requires forall id :: id in order ==> id in h.assignments
    requires forall i :: 0 <= i < |rows| ==>
               (order[i] in order
                && rows[i] == MetricsRow(h.timestamp, h.timestamp + h.duration, order[i], h.assignments[order[i]]))
    modifies store
    ensures store.Valid() && store.log == old(store.log) + Batch(h, order, h.timestamp)
  {
    hide Index, KpiRecord, Hours;
    assert old(store.log) + [] == old(store.log);
    for i := 0 to |rows|
      invariant store.Valid()
      invariant forall id :: id in order[..i] ==> id in order
      invariant store.log == old(store.log) + Batch(h, order[..i], h.timestamp)
    {
      var r := rows[i];
      assert order[..i + 1] == order[..i] + [order[i]];
      store.Add(KpiRecord(r.id, r.power, r.start, Hours(r.end - r.start)));
      BatchSnoc(h, order[..i], order[i], h.timestamp);
    }
    assert order[..|rows|] == order;
  }

  /** Live recording of a sequence of dispatches. */
  method RecordLive(store: MemoryStore, history: seq<Dispatch>) returns (ghost added: seq<Record>)
    requires store.Valid()
    modifies store
    ensures store.Valid() && store.log == old(store.log) + added && Written(history, added)
    ensures HoldsEnergy(history, old(store.log), store.log)
  {
    hide Index, Batch, Enumerates, HoldsEnergy;
    added := [];
    for n := 0 to |history|
      invariant store.Valid() && store.log == old(store.log) + added && Written(history[..n], added)
    {
      var rows;
      ghost var order;
      rows, order := MetricsRows(history[n]);
      EnumeratedIds(order, history[n].assignments);
      RecordRows(store, rows, history[n], order);
      WrittenNext(history, n, added, order, history[n].timestamp);
      added := added + Batch(history[n], order, history[n].timestamp);
    }
    assert history[..|history|] == history;
    WrittenEnergy(history, old(store.log), added);
  }

  /** The KPIs of a vehicle after a replay into an empty store, or after live recording into one. */
  method KpiReport(history: seq<Dispatch>, live: bool, id: Id, start: int, end: int) returns (res: seq<Record>)
    ensures Reports(res, history, id, DayOf(start), DayOf(end))
  {
    hide Index, Written, HoldsEnergy, Answers, Reports;
    var store := new MemoryStore();
    ghost var added;
    if live {
      added := RecordLive(store, history);
    } else {
      added := Backfill(store, history);
    }
    res := store.Query(id, start, end);
    AnswersReport(res, history, store.log, id, DayOf(start), DayOf(end));
  }

  lemma EnumeratedIds(order: seq<Id>, m: map<Id, real>)
    requires Enumerates(order, m)
    ensures forall id :: id in order ==> id in m
    ensures forall i :: 0 <= i < |order| ==> order[i] in order
  {
  }
}
