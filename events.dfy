/**
 * Event detection (backend/src/services/event.service.js): the supply,
 * leak-rate and critical-level rules over the readings a detector queries,
 * and the events table each detection appends one row to.
 */
module Events {
  import opened Wrappers
  import Sorting
  import Volume
  import opened Readings

  datatype Detalhe =
    | SupplyDetail(volume_abastecido_l: real, volume_inicial_m3: real, volume_final_m3: real)
    | LeakDetail(taxa_l_h: real, volume_perdido_l: real, duracao_h: real)
    | CriticalDetail(percentual_atual: real, threshold: real, duracao_minutos: nat)

  datatype Evento = Evento(
    tipo: string, elemento_id: string, detalhe: Detalhe, causa_provavel: string,
    nivel_confianca: real, detectado_por: string, datetime_inicio: int, datetime_fim: int)

  const SUPPLY_MIN_L := 50.0
  const LEAK_RATE_L_H := -15.0
  const CRITICAL_PERCENT := 70.0
  const HOUR_MS := 3600000
  const TEN_MINUTES_MS := 600000

  /** `toFixed(2)` of a detail value. */
  function Fixed2(x: real): real { Volume.ToFixed(x, 100.0) }

  function Abs(x: real): real { if x < 0.0 then -x else x }

  /** detectSupplyEvent's rule: an ABASTECIMENTO event when the volume rose by at least 50 L. */
  function SupplyEvent(elementoId: string, anteriorM3: real, atualM3: real, datetime: int): (r: Option<Evento>)
    ensures r.Some? <==> (atualM3 - anteriorM3) * 1000.0 >= SUPPLY_MIN_L
    ensures r.Some? ==> r.value.tipo == "ABASTECIMENTO" && r.value.elemento_id == elementoId
    ensures r.Some? ==> r.value.nivel_confianca == 0.9 && r.value.detectado_por == "volume_engine"
    ensures r.Some? ==> r.value.datetime_inicio == datetime && r.value.datetime_fim == datetime
    ensures r.Some? ==> r.value.detalhe.SupplyDetail? && r.value.detalhe.volume_abastecido_l >= SUPPLY_MIN_L
  {
    var deltaL := (atualM3 - anteriorM3) * 1000.0;
    if deltaL < SUPPLY_MIN_L then None
    else
      Volume.ToFixedMonotone(SUPPLY_MIN_L, deltaL, 100.0);
      assert Volume.Nearest(5000.0) == 5000;
      Some(Evento("ABASTECIMENTO", elementoId, SupplyDetail(Fixed2(deltaL), anteriorM3, atualM3),
        "Bomba de recalque ativa", 0.9, "volume_engine", datetime, datetime))
  }

  /** The rows of an element's `nivel_cm` series whose data_fim is after `since`, in table order. */
  function NivelRowsSince(rows: seq<ProcessedReading>, elementoId: string, since: int): (r: seq<ProcessedReading>)
    ensures forall x :: x in r <==> x in rows && OfPair(x, elementoId, "nivel_cm") && x.data_fim > since
  {
    if rows == [] then []
    else
      var rest := NivelRowsSince(rows[1..], elementoId, since);
      if OfPair(rows[0], elementoId, "nivel_cm") && rows[0].data_fim > since then [rows[0]] + rest else rest
  }

  /** `ORDER BY data_fim ASC`. */
  predicate EndsNoLater(a: ProcessedReading, b: ProcessedReading)
  {
    a.data_fim <= b.data_fim
  }

  /** The rows detectLeakEvent reads: the trailing hour of `nivel_cm` rows, oldest first. */
  function LeakWindow(rows: seq<ProcessedReading>, elementoId: string, now: int): seq<ProcessedReading>
  {
    Sorting.SortBy(NivelRowsSince(rows, elementoId, now - HOUR_MS), EndsNoLater)
  }

  /** A null volume_m3 takes part in JavaScript subtraction as 0. */
  function VolumeOrZero(r: ProcessedReading): real
  {
    Volume.OrZero(r.volume_m3)
  }

  /** Litres gained from the first to the last row of the window. */
  function DeltaL(w: seq<ProcessedReading>): real
    requires |w| >= 2
  {
    (VolumeOrZero(w[|w| - 1]) - VolumeOrZero(w[0])) * 1000.0
  }

  /** Hours from the first to the last row's data_fim. */
  function DuracaoH(w: seq<ProcessedReading>): real
    requires |w| >= 2
  {
    (w[|w| - 1].data_fim - w[0].data_fim) as real / HOUR_MS as real
  }

  /**
   * The rate computation as written: `deltaVolumeL / duracaoH`. It needs a
   * non-zero duration, which the query does not guarantee
   * (LeakWindowAdmitsZeroDuration).
   */
  function LeakRateAsWritten(w: seq<ProcessedReading>): (rate: real)
    requires |w| >= 2 && DuracaoH(w) != 0.0
    ensures rate * DuracaoH(w) == DeltaL(w)
  {
    DeltaL(w) / DuracaoH(w)
  }

  /** Two rows that end at the same instant form a window whose duration is zero. */
  lemma LeakWindowAdmitsZeroDuration()
    ensures var row1 := ProcessedReading(1, "RCON", "nivel_cm", 300.0, "cm", Some(60.0), Some(75.0), PrimeiraLeitura, 0.0, 1000, 1000, "sistema", "compression_engine", None);
      var row2 := row1.(proc_id := 2, volume_m3 := Some(59.0));
      var w := LeakWindow([row1, row2], "RCON", 2000);
      |w| >= 2 && DuracaoH(w) == 0.0 && DeltaL(w) < 0.0
  {
    var row1 := ProcessedReading(1, "RCON", "nivel_cm", 300.0, "cm", Some(60.0), Some(75.0), PrimeiraLeitura, 0.0, 1000, 1000, "sistema", "compression_engine", None);
    var row2 := row1.(proc_id := 2, volume_m3 := Some(59.0));
    assert NivelRowsSince([row2], "RCON", 2000 - HOUR_MS) == [row2];
    assert NivelRowsSince([row1, row2], "RCON", 2000 - HOUR_MS) == [row1, row2];
    assert Sorting.SortBy([row2], EndsNoLater) == [row2];
    assert LeakWindow([row1, row2], "RCON", 2000) == [row1, row2];
  }

  /**
   * detectLeakEvent's rule, with the zero-duration window answered with
   * no event: a VAZAMENTO event when the volume fell faster than 15 L/h.
   */
  function LeakEvent(elementoId: string, w: seq<ProcessedReading>): (r: Option<Evento>)
    ensures r.Some? <==> |w| >= 2 && DuracaoH(w) != 0.0 && LeakRateAsWritten(w) < LEAK_RATE_L_H
    ensures r.Some? ==> r.value.tipo == "VAZAMENTO" && r.value.elemento_id == elementoId
    ensures r.Some? ==> r.value.nivel_confianca == 0.75 && r.value.detectado_por == "leak_detector"
    ensures r.Some? ==> r.value.datetime_inicio == w[0].data_fim && r.value.datetime_fim == w[|w| - 1].data_fim
    ensures r.Some? ==>
      r.value.detalhe == LeakDetail(Fixed2(LeakRateAsWritten(w)), Fixed2(Abs(DeltaL(w))), Fixed2(DuracaoH(w)))
  {
    if |w| < 2 || DuracaoH(w) == 0.0 then None
    else
      var taxa := LeakRateAsWritten(w);
      if taxa < LEAK_RATE_L_H then
        Some(Evento("VAZAMENTO", elementoId,
          LeakDetail(Fixed2(taxa), Fixed2(Abs(DeltaL(w))), Fixed2(DuracaoH(w))),
          "Possível vazamento ou consumo anormal", 0.75, "leak_detector", w[0].data_fim, w[|w| - 1].data_fim))
      else None
  }

  /**
   * On the window the query returns, a leak event covers a forward interval
   * of positive length in which water was lost.
   */
  lemma LeakEventInterval(rows: seq<ProcessedReading>, elementoId: string, now: int)
    ensures var w := LeakWindow(rows, elementoId, now);
      var r := LeakEvent(elementoId, w);
      r.Some? ==>
        (r.value.datetime_inicio < r.value.datetime_fim && DeltaL(w) < 0.0 &&
         forall x :: x in w ==> r.value.datetime_inicio <= x.data_fim <= r.value.datetime_fim)
  {
    var w := LeakWindow(rows, elementoId, now);
    LeakWindowSorted(rows, elementoId, now);
    if LeakEvent(elementoId, w).Some? {
      LeakRateNegative(w);
      SortedWindowBounds(w);
    }
  }

  /** The query's window is ordered by data_fim. */
  lemma LeakWindowSorted(rows: seq<ProcessedReading>, elementoId: string, now: int)
    ensures Sorting.SortedBy(LeakWindow(rows, elementoId, now), EndsNoLater)
  {
    assert Sorting.TotalPreorder(EndsNoLater);
    Sorting.SortBySorted(NivelRowsSince(rows, elementoId, now - HOUR_MS), EndsNoLater);
  }

  /** A rate below -15 L/h on a forward window means a positive duration and a loss. */
  lemma LeakRateNegative(w: seq<ProcessedReading>)
    requires |w| >= 2 && Sorting.SortedBy(w, EndsNoLater)
    requires DuracaoH(w) != 0.0 && LeakRateAsWritten(w) < LEAK_RATE_L_H
    ensures w[0].data_fim < w[|w| - 1].data_fim && DeltaL(w) < 0.0
  {
    assert EndsNoLater(w[0], w[|w| - 1]);
    var d := DuracaoH(w);
    assert d > 0.0;
    var rate := LeakRateAsWritten(w);
    assert rate * d < 0.0;
  }

  /** Every row of a window sorted by data_fim ends between its first and last rows. */
  lemma SortedWindowBounds(w: seq<ProcessedReading>)
    requires |w| >= 1 && Sorting.SortedBy(w, EndsNoLater)
    ensures forall x :: x in w ==> w[0].data_fim <= x.data_fim <= w[|w| - 1].data_fim
  {
    forall x | x in w ensures w[0].data_fim <= x.data_fim <= w[|w| - 1].data_fim {
      var k :| 0 <= k < |w| && w[k] == x;
      if 0 < k { assert EndsNoLater(w[0], w[k]); }
      if k < |w| - 1 { assert EndsNoLater(w[k], w[|w| - 1]); }
    }
  }

  /** `r.percentual < 70`, where a null percentual compares as 0. */
  predicate BelowCritical(r: ProcessedReading)
  {
    Volume.OrZero(r.percentual) < CRITICAL_PERCENT
  }

  /**
   * detectCriticalLevel's rule: for a fire-reserve element below 70 %, an
   * event when every row of the trailing ten minutes is below 70 %
   * (vacuously so when there is none).
   */
  function CriticalEvent(elementoId: string, tipo: Option<string>, percentual: real,
                         history: seq<ProcessedReading>, datetime: int): (r: Option<Evento>)
    ensures r.Some? <==>
      (tipo == Some("incendio") && percentual < CRITICAL_PERCENT && forall x :: x in history ==> BelowCritical(x))
    ensures r.Some? ==> r.value.tipo == "NIVEL_CRITICO_CAV" && r.value.elemento_id == elementoId
    ensures r.Some? ==> r.value.nivel_confianca == 0.95 && r.value.detectado_por == "critical_level_monitor"
    ensures r.Some? ==> r.value.datetime_inicio == datetime && r.value.datetime_fim == datetime
    ensures r.Some? ==> r.value.detalhe == CriticalDetail(percentual, CRITICAL_PERCENT, 10)
  {
    if tipo != Some("incendio") then None
    else if percentual >= CRITICAL_PERCENT then None
    else if forall x :: x in history ==> BelowCritical(x) then
      Some(Evento("NIVEL_CRITICO_CAV", elementoId, CriticalDetail(percentual, CRITICAL_PERCENT, 10),
        "Consumo elevado ou falha no abastecimento", 0.95, "critical_level_monitor", datetime, datetime))
    else None
  }

  function OptionSeq<T>(o: Option<T>): seq<T>
  {
    if o.Some? then [o.value] else []
  }

  /**
   * The events table, and the elementos' `parametros->>'tipo'` column the
   * critical detector reads. `available` false stands for a failing query
   * or insert of the detectors.
   */
  class EventStore {
    var events: seq<Evento>
    var tipos: map<string, string>
    var available: bool

    constructor (tipos: map<string, string>, available: bool)
      ensures events == [] && this.tipos == tipos && this.available == available
    {
      events := [];
      this.tipos := tipos;
      this.available := available;
    }

    function TipoOf(elementoId: string): Option<string>
      reads this
    {
      if elementoId in tipos then Some(tipos[elementoId]) else None
    }

    /** insertEvent: one row per call, or the store error. */
    method InsertEvent(e: Evento) returns (r: Result<Evento, StoreError>)
      modifies this`events
      ensures available ==> r == Success(e) && events == old(events) + [e]
      ensures !available ==> r == Failure(StoreUnavailable) && events == old(events)
    {
      if !available {
        return Failure(StoreUnavailable);
      }
      events := events + [e];
      r := Success(e);
    }

    /** detectSupplyEvent: SupplyEvent inserted when it fires; only the insert touches the store. */
    method DetectSupplyEvent(elementoId: string, anteriorM3: real, atualM3: real, datetime: int)
      returns (r: Result<Option<Evento>, StoreError>)
      modifies this`events
      ensures r.Failure? <==> SupplyEvent(elementoId, anteriorM3, atualM3, datetime).Some? && !available
      ensures r.Success? ==> r.value == SupplyEvent(elementoId, anteriorM3, atualM3, datetime)
      ensures r.Success? ==> events == old(events) + OptionSeq(r.value)
      ensures r.Failure? ==> events == old(events)
    {
      var e := SupplyEvent(elementoId, anteriorM3, atualM3, datetime);
      if e.None? {
        return Success(None);
      }
      var ins := InsertEvent(e.value);
      r := if ins.Success? then Success(e) else Failure(ins.error);
    }

    /** detectLeakEvent: the trailing-hour query, then LeakEvent inserted when it fires. */
    method DetectLeakEvent(elementoId: string, processed: seq<ProcessedReading>, now: int)
      returns (r: Result<Option<Evento>, StoreError>)
      modifies this`events
      ensures r.Failure? <==> !available
      ensures r.Success? ==> r.value == LeakEvent(elementoId, LeakWindow(processed, elementoId, now))
      ensures r.Success? ==> events == old(events) + OptionSeq(r.value)
      ensures r.Failure? ==> events == old(events)
    {
      if !available {
        return Failure(StoreUnavailable);
      }
      var e := LeakEvent(elementoId, LeakWindow(processed, elementoId, now));
      if e.Some? {
        var ins := InsertEvent(e.value);
      }
      r := Success(e);
    }

    /** detectCriticalLevel: the element and ten-minute queries, then CriticalEvent inserted when it fires. */
    method DetectCriticalLevel(elementoId: string, percentual: real, datetime: int,
                               processed: seq<ProcessedReading>, now: int)
      returns (r: Result<Option<Evento>, StoreError>)
      modifies this`events
      ensures r.Failure? <==> !available
      ensures r.Success? ==> r.value == CriticalEvent(elementoId, TipoOf(elementoId), percentual,
        NivelRowsSince(processed, elementoId, now - TEN_MINUTES_MS), datetime)
      ensures r.Success? ==> events == old(events) + OptionSeq(r.value)
      ensures r.Failure? ==> events == old(events)
    {
      if !available {
        return Failure(StoreUnavailable);
      }
      var e := CriticalEvent(elementoId, TipoOf(elementoId), percentual,
        NivelRowsSince(processed, elementoId, now - TEN_MINUTES_MS), datetime);
      if e.Some? {
        var ins := InsertEvent(e.value);
      }
      r := Success(e);
    }
  }

  /** Position of an event kind in detectEvents' fixed order. */
  function Rank(tipo: string): nat
  {
    if tipo == "ABASTECIMENTO" then 0 else if tipo == "VAZAMENTO" then 1 else 2
  }

  lemma ConcatOrdered(s: Option<Evento>, l: Option<Evento>, c: Option<Evento>, elementoId: string)
    requires s.Some? ==> s.value.tipo == "ABASTECIMENTO" && s.value.elemento_id == elementoId
    requires l.Some? ==> l.value.tipo == "VAZAMENTO" && l.value.elemento_id == elementoId
    requires c.Some? ==> c.value.tipo == "NIVEL_CRITICO_CAV" && c.value.elemento_id == elementoId
    ensures var es := OptionSeq(s) + OptionSeq(l) + OptionSeq(c);
      |es| <= 3 &&
      (forall i, j :: 0 <= i < j < |es| ==> Rank(es[i].tipo) < Rank(es[j].tipo)) &&
      (forall i :: 0 <= i < |es| ==> es[i].elemento_id == elementoId)
  {
    var es := OptionSeq(s) + OptionSeq(l) + OptionSeq(c);
    forall i | 0 <= i < |es|
      ensures es[i].elemento_id == elementoId
      ensures Rank(es[i].tipo) == (if i < |OptionSeq(s)| then 0 else if i < |OptionSeq(s)| + |OptionSeq(l)| then 1 else 2)
    {
      var ns, nl := |OptionSeq(s)|, |OptionSeq(l)|;
      if i < ns {
        assert es[i] == s.value;
      } else if i < ns + nl {
        assert es[i] == l.value;
      } else {
        assert es[i] == c.value;
      }
    }
  }

  /**
   * The events one commit appends: at most one of each kind, in the order
   * supply, leak, critical, all for the element of the series.
   */
  lemma DetectedEventsOrdered(elementoId: string, anteriorM3: real, atualM3: real, percentual: real,
                              datetime: int, tipo: Option<string>, processed: seq<ProcessedReading>, now: int)
    ensures var es := OptionSeq(SupplyEvent(elementoId, anteriorM3, atualM3, datetime))
        + OptionSeq(LeakEvent(elementoId, LeakWindow(processed, elementoId, now)))
        + OptionSeq(CriticalEvent(elementoId, tipo, percentual, NivelRowsSince(processed, elementoId, now - TEN_MINUTES_MS), datetime));
      |es| <= 3 &&
      (forall i, j :: 0 <= i < j < |es| ==> Rank(es[i].tipo) < Rank(es[j].tipo)) &&
      (forall i :: 0 <= i < |es| ==> es[i].elemento_id == elementoId)
  {
    var s := SupplyEvent(elementoId, anteriorM3, atualM3, datetime);
    var l := LeakEvent(elementoId, LeakWindow(processed, elementoId, now));
    var c := CriticalEvent(elementoId, tipo, percentual, NivelRowsSince(processed, elementoId, now - TEN_MINUTES_MS), datetime);
    ConcatOrdered(s, l, c, elementoId);
  }
}
