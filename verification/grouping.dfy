/**
  The grouping pass of the summary route (app.py lines 98-115): every event
  lands in the bucket of its user and calendar day. A bucket keeps the
  `Entrada` time, the `Salida` time and the pause marks in event order.
 */
module Grouping {
  import opened Wrappers
  import opened Assoc
  import opened ClockTime
  import opened Events

  /** `{"Entrada": ..., "Salida": ..., "Pausas": [...]}` for one user and day. */
  datatype DayBucket = DayBucket(entrada: Option<Seconds>, salida: Option<Seconds>, pausas: seq<PauseMark>)

  /** The bucket a day starts with (app.py line 108). */
  const EmptyDay := DayBucket(None, None, [])

  /** `resumen`: user -> (date -> bucket), both levels in first-appearance order. */
  type Resumen = Dict<string, Dict<string, DayBucket>>

  /** What one event does to its day's bucket (app.py lines 110-115). */
  function Record(b: DayBucket, e: Event): DayBucket
  {
    match Classify(e.tipo)
    case Entrada => b.(entrada := Some(e.hora))
    case Salida => b.(salida := Some(e.hora))
    case Pausa => b.(pausas := b.pausas + [PauseMark(Pausa, e.hora)])
    case FinPausa => b.(pausas := b.pausas + [PauseMark(FinPausa, e.hora)])
    case Other => b
  }

  /** One iteration of the `for fila in fichajes` loop (app.py lines 99-115). */
  function AddEvent(r: Resumen, e: Event): Resumen
  {
    Upsert(r, e.usuario, [],
      (dias: Dict<string, DayBucket>) => Upsert(dias, e.fecha, EmptyDay, (b: DayBucket) => Record(b, e)))
  }

  /** The whole grouping loop, over the events in the order the query returns them. */
  function Group(evs: seq<Event>): Resumen
  {
    if |evs| == 0 then [] else AddEvent(Group(evs[..|evs| - 1]), evs[|evs| - 1])
  }

  /** `resumen[usuario][fecha]`, or None when there is no such bucket. */
  function GetDay(r: Resumen, u: string, d: string): Option<DayBucket>
  {
    match Get(r, u)
    case None => None
    case Some(dias) => Get(dias, d)
  }

  /** The dates bucketed for user `u`, in iteration order (`resumen[u].keys()`, empty for an unknown user). */
  function DatesOf(r: Resumen, u: string): seq<string>
  {
    Keys(Get(r, u).GetOr([]))
  }

  // ----- Reference view of the input: filters over the event sequence -----

  /** The users of the events, one per event, in input order. */
  function Users(evs: seq<Event>): seq<string>
  {
    if |evs| == 0 then [] else Users(evs[..|evs| - 1]) + [evs[|evs| - 1].usuario]
  }

  /** The dates of user `u`'s events, one per event, in input order. */
  function UserDates(evs: seq<Event>, u: string): seq<string>
  {
    if |evs| == 0 then []
    else UserDates(evs[..|evs| - 1], u) + (if evs[|evs| - 1].usuario == u then [evs[|evs| - 1].fecha] else [])
  }

  /** The events of user `u` on day `d`, in input order. */
  function DayEvents(evs: seq<Event>, u: string, d: string): seq<Event>
  {
    if |evs| == 0 then []
    else
      var e := evs[|evs| - 1];
      DayEvents(evs[..|evs| - 1], u, d) + (if e.usuario == u && e.fecha == d then [e] else [])
  }

  /** The time of the last event of kind `k` in `es`, if there is one. */
  function LastOf(es: seq<Event>, k: Kind): Option<Seconds>
  {
    if |es| == 0 then None
    else if Classify(es[|es| - 1].tipo) == k then Some(es[|es| - 1].hora)
    else LastOf(es[..|es| - 1], k)
  }

  /** The `Pausa` and `Fin pausa` events of `es` as pause marks, in order. */
  function PauseMarksOf(es: seq<Event>): seq<PauseMark>
  {
    if |es| == 0 then []
    else
      var e := es[|es| - 1];
      var k := Classify(e.tipo);
      PauseMarksOf(es[..|es| - 1]) + (if k == Pausa || k == FinPausa then [PauseMark(k, e.hora)] else [])
  }

  /** The bucket a day should end with: last `Entrada`, last `Salida`, all pause marks in order. */
  function ExpectedDay(evs: seq<Event>, u: string, d: string): DayBucket
  {
    var es := DayEvents(evs, u, d);
    DayBucket(LastOf(es, Entrada), LastOf(es, Salida), PauseMarksOf(es))
  }

  /** The first occurrences of the elements of `s`, in order (the key order a dict builds from `s`). */
  function Dedup<T(==)>(s: seq<T>): seq<T>
  {
    if |s| == 0 then []
    else
      var prev := Dedup(s[..|s| - 1]);
      if s[|s| - 1] in s[..|s| - 1] then prev else prev + [s[|s| - 1]]
  }

  // ----- Properties -----

  /** One event reaches only its own bucket, and there it acts through Record. */
  lemma GetDayAddEvent(r: Resumen, e: Event, u: string, d: string)
    ensures GetDay(AddEvent(r, e), u, d)
         == if u == e.usuario && d == e.fecha then Some(Record(GetDay(r, u, d).GetOr(EmptyDay), e))
            else GetDay(r, u, d)
  {
    var f := (dias: Dict<string, DayBucket>) => Upsert(dias, e.fecha, EmptyDay, (b: DayBucket) => Record(b, e));
    GetUpsert(r, e.usuario, [], f, u);
    if u == e.usuario {
      var dias := Get(r, u).GetOr([]);
      GetUpsert(dias, e.fecha, EmptyDay, (b: DayBucket) => Record(b, e), d);
    }
  }

  /**
    An event whose type is none of the four still creates its user and day
    buckets, and changes nothing else.
   */
  lemma IgnoredEventOnlyCreatesBucket(r: Resumen, e: Event, u: string, d: string)
    requires Classify(e.tipo) == Other
    ensures GetDay(AddEvent(r, e), u, d)
         == if u == e.usuario && d == e.fecha then Some(GetDay(r, u, d).GetOr(EmptyDay)) else GetDay(r, u, d)
  {
    GetDayAddEvent(r, e, u, d);
  }

  /** An event of (u, d) acts on the reference bucket exactly as Record acts on the real one. */
  lemma ExpectedDaySnoc(evs: seq<Event>, u: string, d: string)
    requires |evs| > 0 && evs[|evs| - 1].usuario == u && evs[|evs| - 1].fecha == d
    ensures ExpectedDay(evs, u, d) == Record(ExpectedDay(evs[..|evs| - 1], u, d), evs[|evs| - 1])
  {
    var pre, e := evs[..|evs| - 1], evs[|evs| - 1];
    var es := DayEvents(evs, u, d);
    assert es == DayEvents(pre, u, d) + [e];
    assert es[..|es| - 1] == DayEvents(pre, u, d);
    assert es[|es| - 1] == e;
    var k := Classify(e.tipo);
    assert LastOf(es, Entrada) == if k == Entrada then Some(e.hora) else LastOf(DayEvents(pre, u, d), Entrada);
    assert LastOf(es, Salida) == if k == Salida then Some(e.hora) else LastOf(DayEvents(pre, u, d), Salida);
    assert PauseMarksOf(es)
        == PauseMarksOf(DayEvents(pre, u, d)) + (if k == Pausa || k == FinPausa then [PauseMark(k, e.hora)] else []);
  }

  /** The buckets the grouping pass builds hold the reference contents. */
  lemma {:induction false} GroupDayContents(evs: seq<Event>, u: string, d: string)
    ensures GetDay(Group(evs), u, d).Some? <==> |DayEvents(evs, u, d)| > 0
    ensures GetDay(Group(evs), u, d).GetOr(EmptyDay) == ExpectedDay(evs, u, d)
  {
    if |evs| != 0 {
      var pre, e := evs[..|evs| - 1], evs[|evs| - 1];
      GroupDayContents(pre, u, d);
      GetDayAddEvent(Group(pre), e, u, d);
      if u == e.usuario && d == e.fecha {
        ExpectedDaySnoc(evs, u, d);
      } else {
        assert DayEvents(evs, u, d) == DayEvents(pre, u, d);
      }
    }
  }

  /** A day has events exactly when some event carries its user and date. */
  lemma {:induction false} DayEventsNonEmpty(evs: seq<Event>, u: string, d: string)
    ensures |DayEvents(evs, u, d)| > 0 <==> exists i :: 0 <= i < |evs| && evs[i].usuario == u && evs[i].fecha == d
  {
    if |evs| != 0 {
      var pre := evs[..|evs| - 1];
      DayEventsNonEmpty(pre, u, d);
      assert forall i :: 0 <= i < |pre| ==> pre[i] == evs[i];
    }
  }

  /**
    The grouping pass, bucket by bucket: a bucket exists for (u, d) exactly
    when some event has that user and date, and it holds the time of the
    last `Entrada`, the time of the last `Salida` (later rows overwrite
    earlier ones) and every `Pausa`/`Fin pausa` of that day in input order.
   */
  lemma {:induction false} GroupDay(evs: seq<Event>, u: string, d: string)
    ensures GetDay(Group(evs), u, d).Some?
        <==> exists i :: 0 <= i < |evs| && evs[i].usuario == u && evs[i].fecha == d
    ensures GetDay(Group(evs), u, d).GetOr(EmptyDay) == ExpectedDay(evs, u, d)
  {
    GroupDayContents(evs, u, d);
    DayEventsNonEmpty(evs, u, d);
  }

  /** Users appear in the order of their first event, each once. */
  lemma {:induction false} GroupUsers(evs: seq<Event>)
    ensures Keys(Group(evs)) == Dedup(Users(evs))
  {
    if |evs| != 0 {
      var pre, e := evs[..|evs| - 1], evs[|evs| - 1];
      GroupUsers(pre);
      var f := (dias: Dict<string, DayBucket>) => Upsert(dias, e.fecha, EmptyDay, (b: DayBucket) => Record(b, e));
      KeysUpsert(Group(pre), e.usuario, [], f);
      var us := Users(evs);
      assert us[..|us| - 1] == Users(pre);
      DedupMembers(Users(pre));
    }
  }

  /** A user's dates appear in the order of that user's first event on each date, each once. */
  lemma {:induction false} GroupDates(evs: seq<Event>, u: string)
    ensures DatesOf(Group(evs), u) == Dedup(UserDates(evs, u))
  {
    if |evs| != 0 {
      var pre, e := evs[..|evs| - 1], evs[|evs| - 1];
      GroupDates(pre, u);
      var g := (b: DayBucket) => Record(b, e);
      var f := (dias: Dict<string, DayBucket>) => Upsert(dias, e.fecha, EmptyDay, g);
      GetUpsert(Group(pre), e.usuario, [], f, u);
      var ds := UserDates(evs, u);
      if u == e.usuario {
        KeysUpsert(Get(Group(pre), u).GetOr([]), e.fecha, EmptyDay, g);
        assert ds[..|ds| - 1] == UserDates(pre, u);
        DedupMembers(UserDates(pre, u));
      } else {
        assert ds == UserDates(pre, u);
      }
    }
  }

  /** Dedup keeps exactly the elements of its input, each once. */
  lemma {:induction false} DedupMembers<T>(s: seq<T>)
    ensures forall x :: x in Dedup(s) <==> x in s
    ensures forall i, j :: 0 <= i < j < |Dedup(s)| ==> Dedup(s)[i] != Dedup(s)[j]
  {
    if |s| != 0 {
      var pre := s[..|s| - 1];
      DedupMembers(pre);
      assert s == pre + [s[|s| - 1]];
    }
  }

  /** Every key of the grouping is distinct at both levels, so each (user, date) has exactly one bucket. */
  lemma {:induction false} GroupDistinct(evs: seq<Event>, u: string)
    ensures DistinctKeys(Group(evs))
    ensures DistinctKeys(Get(Group(evs), u).GetOr([]))
  {
    GroupUsers(evs);
    GroupDates(evs, u);
    DedupMembers(Users(evs));
    DedupMembers(UserDates(evs, u));
  }

  /** The pause marks taken from some events are only `Pausa` and `Fin pausa` marks. */
  lemma {:induction false} PauseMarksOfKinds(es: seq<Event>)
    ensures forall j :: 0 <= j < |PauseMarksOf(es)| ==> PauseMarksOf(es)[j].kind in {Pausa, FinPausa}
  {
    if |es| != 0 {
      PauseMarksOfKinds(es[..|es| - 1]);
    }
  }

  /** Every bucket the grouping pass builds holds only `Pausa` and `Fin pausa` marks in its pause list. */
  lemma PauseMarksKinds(evs: seq<Event>, u: string, d: string)
    ensures var p := GetDay(Group(evs), u, d).GetOr(EmptyDay).pausas;
      forall j :: 0 <= j < |p| ==> p[j].kind in {Pausa, FinPausa}
  {
    GroupDay(evs, u, d);
    PauseMarksOfKinds(DayEvents(evs, u, d));
  }
}
