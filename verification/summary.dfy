/**
  The computation pass of the summary route (app.py lines 117-151) and the
  whole aggregation: for every user, in first-appearance order, one summary
  per day with the entry and exit times, the worked time and the pause time,
  all in seconds.
 */
module Summary {
  import opened Wrappers
  import opened Assoc
  import opened ClockTime
  import opened Events
  import opened PauseScan
  import opened Grouping

  /** One row of `resultados[usuario]` (app.py lines 145-151), durations in seconds. */
  datatype DaySummary = DaySummary(
    fecha: string,
    entrada: Option<Seconds>,
    salida: Option<Seconds>,
    trabajado: int,
    pausa: int)

  /** `resultados`: user -> list of day summaries. */
  type Resultados = Dict<string, seq<DaySummary>>

  /** Both clock times are known (`if entrada and salida`, app.py line 127). */
  predicate Complete(s: DaySummary)
  {
    s.entrada.Some? && s.salida.Some?
  }

  /**
    The invariant every summary row keeps: with both clock times, worked time
    plus pause time is the span from entry to exit; otherwise both are zero.
   */
  predicate Balanced(s: DaySummary)
  {
    if Complete(s) then s.trabajado + s.pausa == s.salida.value - s.entrada.value
    else s.trabajado == 0 && s.pausa == 0
  }

  /** The body of `for fecha, info in dias.items()` (app.py lines 122-151). */
  function SummarizeDay(fecha: string, b: DayBucket): (s: DaySummary)
    ensures s.fecha == fecha && s.entrada == b.entrada && s.salida == b.salida
    ensures Balanced(s)
    ensures Complete(s) ==> s.pausa == AdjacentPairSum(b.pausas)
  {
    if b.entrada.Some? && b.salida.Some? then
      var total := b.salida.value - b.entrada.value;
      var pausa := PauseSeconds(b.pausas);
      DaySummary(fecha, b.entrada, b.salida, total - pausa, pausa)
    else
      DaySummary(fecha, b.entrada, b.salida, 0, 0)
  }

  /** The inner loop over one user's days, in the order the days were first seen. */
  function SummarizeDays(dias: Dict<string, DayBucket>): seq<DaySummary>
  {
    if |dias| == 0 then [] else [SummarizeDay(dias[0].0, dias[0].1)] + SummarizeDays(dias[1..])
  }

  /** The outer loop over users (app.py lines 118-121). */
  function Summarize(r: Resumen): Resultados
  {
    MapValues(r, (u: string, dias: Dict<string, DayBucket>) => SummarizeDays(dias))
  }

  /** Both passes over the event rows, as the route computes `resultados`. */
  function Aggregate(evs: seq<Event>): Resultados
  {
    Summarize(Group(evs))
  }

  /** The dates of a list of day summaries, in order. */
  function Dates(days: seq<DaySummary>): seq<string>
  {
    if |days| == 0 then [] else [days[0].fecha] + Dates(days[1..])
  }

  /** The first summary of date `d` in a list. */
  function FindDay(days: seq<DaySummary>, d: string): Option<DaySummary>
  {
    if |days| == 0 then None
    else if days[0].fecha == d then Some(days[0])
    else FindDay(days[1..], d)
  }

  /** The summary row of user `u` on day `d`. */
  function Lookup(res: Resultados, u: string, d: string): Option<DaySummary>
  {
    FindDay(Get(res, u).GetOr([]), d)
  }

  // ----- Structure of the computation pass -----

  lemma {:induction false} SummarizeDaysDates(dias: Dict<string, DayBucket>)
    ensures Dates(SummarizeDays(dias)) == Keys(dias)
  {
    if |dias| != 0 {
      SummarizeDaysDates(dias[1..]);
    }
  }

  lemma {:induction false} SummarizeDaysFind(dias: Dict<string, DayBucket>, d: string)
    ensures FindDay(SummarizeDays(dias), d)
         == if Get(dias, d).Some? then Some(SummarizeDay(d, Get(dias, d).value)) else None
  {
    if |dias| != 0 && dias[0].0 != d {
      SummarizeDaysFind(dias[1..], d);
    }
  }

  lemma {:induction false} SummarizeDaysBalanced(dias: Dict<string, DayBucket>)
    ensures forall j :: 0 <= j < |SummarizeDays(dias)| ==> Balanced(SummarizeDays(dias)[j])
  {
    if |dias| != 0 {
      SummarizeDaysBalanced(dias[1..]);
    }
  }

  lemma {:induction false} SummarizeBalanced(r: Resumen)
    ensures var res := Summarize(r);
      forall i, j :: 0 <= i < |res| && 0 <= j < |res[i].1| ==> Balanced(res[i].1[j])
  {
    if |r| != 0 {
      SummarizeDaysBalanced(r[0].1);
      SummarizeBalanced(r[1..]);
      var res := Summarize(r);
      assert res[1..] == Summarize(r[1..]);
    }
  }

  // ----- The aggregation against the input rows -----

  /** Users appear once each, in the order of their first event. */
  lemma AggregateUsers(evs: seq<Event>)
    ensures Keys(Aggregate(evs)) == Dedup(Users(evs))
    ensures forall i, j :: 0 <= i < j < |Keys(Aggregate(evs))| ==> Keys(Aggregate(evs))[i] != Keys(Aggregate(evs))[j]
  {
    KeysMapValues(Group(evs), (u: string, dias: Dict<string, DayBucket>) => SummarizeDays(dias));
    GroupUsers(evs);
    DedupMembers(Users(evs));
  }

  /** A user's day rows are one per date on which the user has an event, in first-appearance order. */
  lemma AggregateDates(evs: seq<Event>, u: string)
    ensures Dates(Get(Aggregate(evs), u).GetOr([])) == Dedup(UserDates(evs, u))
    ensures forall x :: x in Dates(Get(Aggregate(evs), u).GetOr([])) <==> x in UserDates(evs, u)
  {
    var f := (u: string, dias: Dict<string, DayBucket>) => SummarizeDays(dias);
    GetMapValues(Group(evs), f, u);
    SummarizeDaysDates(Get(Group(evs), u).GetOr([]));
    GroupDates(evs, u);
    DedupMembers(UserDates(evs, u));
  }

  /**
    The row of user `u` on day `d` exists exactly when some event has that
    user and date, and it is the summary of the bucket holding the last
    `Entrada`, the last `Salida` and the pause marks of that day in order.
   */
  lemma AggregateDay(evs: seq<Event>, u: string, d: string)
    ensures Lookup(Aggregate(evs), u, d).Some?
        <==> exists i :: 0 <= i < |evs| && evs[i].usuario == u && evs[i].fecha == d
    ensures Lookup(Aggregate(evs), u, d).Some?
        ==> Lookup(Aggregate(evs), u, d).value == SummarizeDay(d, ExpectedDay(evs, u, d))
  {
    var f := (u: string, dias: Dict<string, DayBucket>) => SummarizeDays(dias);
    GetMapValues(Group(evs), f, u);
    SummarizeDaysFind(Get(Group(evs), u).GetOr([]), d);
    GroupDay(evs, u, d);
  }

  /** Every row of the result keeps worked + pause = exit - entry, or is zero when a clock time is missing. */
  lemma AggregateBalanced(evs: seq<Event>)
    ensures var res := Aggregate(evs);
      forall i, j :: 0 <= i < |res| && 0 <= j < |res[i].1| ==> Balanced(res[i].1[j])
  {
    SummarizeBalanced(Group(evs));
  }

  /**
    A day without an `Entrada` or without a `Salida` shows zero worked and
    zero pause time, whatever pause events it has.
   */
  lemma IncompleteDayIsZero(evs: seq<Event>, u: string, d: string)
    requires exists i :: 0 <= i < |evs| && evs[i].usuario == u && evs[i].fecha == d
    requires LastOf(DayEvents(evs, u, d), Entrada).None? || LastOf(DayEvents(evs, u, d), Salida).None?
    ensures Lookup(Aggregate(evs), u, d).Some?
    ensures Lookup(Aggregate(evs), u, d).value.trabajado == 0
    ensures Lookup(Aggregate(evs), u, d).value.pausa == 0
  {
    AggregateDay(evs, u, d);
  }

  /**
    For a complete day whose pause marks are in time order and lie between
    entry and exit, the pause time is between zero and the span, so the
    worked time is too.
   */
  lemma WorkedWithinSpan(fecha: string, b: DayBucket)
    requires b.entrada.Some? && b.salida.Some? && b.entrada.value <= b.salida.value
    requires Chronological(b.pausas)
    requires |b.pausas| > 0 ==> b.entrada.value <= b.pausas[0].hora && b.pausas[|b.pausas| - 1].hora <= b.salida.value
    ensures var s := SummarizeDay(fecha, b);
      0 <= s.pausa <= s.salida.value - s.entrada.value && 0 <= s.trabajado <= s.salida.value - s.entrada.value
  {
    if |b.pausas| > 0 {
      ChronologicalPauseBounds(b.pausas);
    }
  }

  /** Events of a day in time order (the query sorts by `hora` within a user and date). */
  predicate SortedByHora(es: seq<Event>)
  {
    forall i, j :: 0 <= i < j < |es| ==> es[i].hora <= es[j].hora
  }

  /** Taking the pause marks of time-ordered events keeps them in time order. */
  lemma {:induction false} PauseMarksChronological(es: seq<Event>)
    requires SortedByHora(es)
    ensures Chronological(PauseMarksOf(es))
    ensures forall j :: 0 <= j < |PauseMarksOf(es)| ==> PauseMarksOf(es)[j].hora in HorasOf(es)
  {
    if |es| != 0 {
      var pre, e := es[..|es| - 1], es[|es| - 1];
      assert SortedByHora(pre);
      PauseMarksChronological(pre);
      assert HorasOf(es) == HorasOf(pre) + {e.hora};
      forall h | h in HorasOf(pre) ensures h <= e.hora {
        var i :| 0 <= i < |pre| && pre[i].hora == h;
        assert es[i] == pre[i];
      }
    }
  }

  /**
    The query's `ORDER BY usuario, fecha, hora` (app.py line 94): one user's
    rows of one date come in time order. SQLite compares `hora` as text, so
    this holds because the app stores zero-padded `HH:MM:SS` (FormatHms);
    a stored "9:00:00" would sort after "10:00:00".
   */
  predicate QueryOrdered(evs: seq<Event>)
  {
    forall i, j :: 0 <= i < j < |evs| && evs[i].usuario == evs[j].usuario && evs[i].fecha == evs[j].fecha
      ==> evs[i].hora <= evs[j].hora
  }

  /** The events of a day are events of the input with that user and date. */
  lemma {:induction false} DayEventsFrom(evs: seq<Event>, u: string, d: string)
    ensures forall x :: x in DayEvents(evs, u, d) ==> x in evs && x.usuario == u && x.fecha == d
  {
    if |evs| != 0 {
      var pre := evs[..|evs| - 1];
      DayEventsFrom(pre, u, d);
      assert evs == pre + [evs[|evs| - 1]];
    }
  }

  /** Under the query's ordering every bucket's pause list is in time order. */
  lemma {:induction false} OrderedInputChronologicalPauses(evs: seq<Event>, u: string, d: string)
    requires QueryOrdered(evs)
    ensures Chronological(GetDay(Group(evs), u, d).GetOr(EmptyDay).pausas)
  {
    GroupDay(evs, u, d);
    DayEventsSorted(evs, u, d);
    PauseMarksChronological(DayEvents(evs, u, d));
  }

  lemma {:induction false} DayEventsSorted(evs: seq<Event>, u: string, d: string)
    requires QueryOrdered(evs)
    ensures SortedByHora(DayEvents(evs, u, d))
  {
    if |evs| != 0 {
      var pre, e := evs[..|evs| - 1], evs[|evs| - 1];
      assert QueryOrdered(pre);
      DayEventsSorted(pre, u, d);
      DayEventsFrom(pre, u, d);
      var es := DayEvents(pre, u, d);
      forall x | x in es ensures e.usuario == u && e.fecha == d ==> x.hora <= e.hora {
        var i :| 0 <= i < |pre| && pre[i] == x;
        assert evs[i] == x;
      }
    }
  }

  /** The set of times of day of some events. */
  function HorasOf(es: seq<Event>): set<int>
  {
    set i | 0 <= i < |es| :: es[i].hora
  }

  /** The worked example: entry 09:00:00, pause 12:00:00-12:30:00, exit 17:00:00 for alice on 2024-01-01. */
  const AliceDay: seq<Event> := [
    Event("alice", "Entrada", "2024-01-01", 9 * 3600),
    Event("alice", "Pausa", "2024-01-01", 12 * 3600),
    Event("alice", "Fin pausa", "2024-01-01", 12 * 3600 + 30 * 60),
    Event("alice", "Salida", "2024-01-01", 17 * 3600)]

  lemma AliceBucket()
    ensures ExpectedDay(AliceDay, "alice", "2024-01-01")
         == DayBucket(Some(9 * 3600), Some(17 * 3600),
              [PauseMark(Pausa, 12 * 3600), PauseMark(FinPausa, 12 * 3600 + 30 * 60)])
  {
    var evs := AliceDay;
    assert evs[..1][..0] == [] && evs[..2][..1] == evs[..1] && evs[..3][..2] == evs[..2] && evs[..4][..3] == evs[..3];
    assert DayEvents(evs[..1], "alice", "2024-01-01") == evs[..1];
    assert DayEvents(evs[..2], "alice", "2024-01-01") == evs[..2];
    assert DayEvents(evs[..3], "alice", "2024-01-01") == evs[..3];
    assert DayEvents(evs, "alice", "2024-01-01") == evs;
    assert Classify(evs[3].tipo) == Salida && Classify(evs[2].tipo) == FinPausa;
    assert Classify(evs[1].tipo) == Pausa && Classify(evs[0].tipo) == Entrada;
    assert LastOf(evs[..1], Entrada) == Some(9 * 3600);
    assert LastOf(evs[..2], Entrada) == Some(9 * 3600);
    assert LastOf(evs[..3], Entrada) == Some(9 * 3600);
    assert LastOf(evs, Salida) == Some(17 * 3600);
    assert PauseMarksOf(evs[..1]) == [];
    assert PauseMarksOf(evs[..2]) == [PauseMark(Pausa, 12 * 3600)];
  }

  lemma AliceUsers()
    ensures Dedup(Users(AliceDay)) == ["alice"]
  {
    var evs := AliceDay;
    assert evs[..1][..0] == [] && evs[..2][..1] == evs[..1] && evs[..3][..2] == evs[..2] && evs[..4][..3] == evs[..3];
    assert Users(evs[..1]) == ["alice"];
    assert Users(evs[..2]) == ["alice", "alice"];
    assert Users(evs[..3]) == ["alice", "alice", "alice"];
    assert Users(evs) == ["alice", "alice", "alice", "alice"];
    DedupRepeated(4, "alice");
    assert seq(4, _ => "alice") == ["alice", "alice", "alice", "alice"];
  }

  /** A value repeated n > 0 times has one first occurrence. */
  lemma {:induction false} DedupRepeated(n: nat, x: string)
    requires n > 0
    ensures Dedup(seq(n, _ => x)) == [x]
  {
    var s := seq(n, _ => x);
    if n > 1 {
      DedupRepeated(n - 1, x);
      assert s[..n - 1] == seq(n - 1, _ => x);
      assert s[n - 1] in s[..n - 1];
    } else {
      assert s[..0] == [];
    }
  }

  lemma AliceDates()
    ensures Dedup(UserDates(AliceDay, "alice")) == ["2024-01-01"]
  {
    var evs := AliceDay;
    assert evs[..1][..0] == [] && evs[..2][..1] == evs[..1] && evs[..3][..2] == evs[..2] && evs[..4][..3] == evs[..3];
    assert UserDates(evs[..1], "alice") == ["2024-01-01"];
    assert UserDates(evs[..2], "alice") == ["2024-01-01", "2024-01-01"];
    assert UserDates(evs[..3], "alice") == ["2024-01-01", "2024-01-01", "2024-01-01"];
    assert UserDates(evs, "alice") == ["2024-01-01", "2024-01-01", "2024-01-01", "2024-01-01"];
    DedupRepeated(4, "2024-01-01");
    assert seq(4, _ => "2024-01-01") == ["2024-01-01", "2024-01-01", "2024-01-01", "2024-01-01"];
  }

  /** The row of the worked example: clock times 09:00:00 and 17:00:00, 7.5 worked and 0.5 pause hours. */
  lemma AliceRow()
    ensures var row := Lookup(Aggregate(AliceDay), "alice", "2024-01-01");
      && row.Some?
      && row.value.entrada == Some(9 * 3600)
      && row.value.salida == Some(17 * 3600)
      && Hours(row.value.trabajado) == 7.5
      && Hours(row.value.pausa) == 0.5
  {
    var p := [PauseMark(Pausa, 12 * 3600), PauseMark(FinPausa, 12 * 3600 + 30 * 60)];
    AliceBucket();
    AggregateDay(AliceDay, "alice", "2024-01-01");
    assert AliceDay[0].usuario == "alice" && AliceDay[0].fecha == "2024-01-01";
    assert AdjacentPairSum(p) == 1800;
  }

  /**
    The worked example gives one user with one day, whose row has entry
    09:00:00, exit 17:00:00, 7.5 worked hours and 0.5 pause hours.
   */
  lemma AliceScenario()
    ensures var res := Aggregate(AliceDay);
      var row := Lookup(res, "alice", "2024-01-01");
      && Keys(res) == ["alice"]
      && Dates(Get(res, "alice").GetOr([])) == ["2024-01-01"]
      && row.Some?
      && row.value.entrada == Some(9 * 3600)
      && row.value.salida == Some(17 * 3600)
      && Hours(row.value.trabajado) == 7.5
      && Hours(row.value.pausa) == 0.5
  {
    AliceUsers();
    AggregateUsers(AliceDay);
    AliceDates();
    AggregateDates(AliceDay, "alice");
    AliceRow();
  }
}
