/**
 * The reading store (backend/src/services/reading.service.js): the raw and
 * processed reading tables as in-memory sequences. Each service function is
 * one INSERT, UPDATE or SELECT; identifiers are assigned serially from 1.
 * When the database is unreachable (`available` false) every operation
 * fails with StoreUnavailable and changes nothing, as the service rethrows.
 */
module Readings {
  import opened Wrappers
  import Sorting

  datatype StoreError = StoreUnavailable

  /** A JSON value of a raw reading's `meta` object. */
  datatype MetaValue = Num(n: real) | Str(s: string) | Flag(b: bool)
  type Meta = map<string, MetaValue>

  /** The `meta` of a processed row written by the compression engine. */
  datatype CompressionMeta = CompressionMeta(stddev: real, window_size: nat)

  /**
   * A processed row's `criterio`: the text `primeira_leitura`, or
   * `delta=<delta>cm stddev=<stddev>` with both numbers to 2 decimals
   * (the numbers are kept, their rendering as text is not modelled).
   */
  datatype Criterio = PrimeiraLeitura | Significativa(delta: real, stddev: real)

  datatype RawReading = RawReading(
    leitura_id: nat, sensor_id: string, elemento_id: string, variavel: string,
    valor: real, unidade: string, meta: Option<Meta>, fonte: string, autor: string,
    modo: string, observacao: Option<string>, datetime: int)

  /** The fields a caller passes to insertRawReading; absent ones are None. */
  datatype RawInput = RawInput(
    sensor_id: string, elemento_id: string, variavel: string, valor: real,
    unidade: Option<string>, meta: Option<Meta>, fonte: string, autor: string,
    modo: Option<string>, observacao: Option<string>, datetime: Option<int>)

  datatype ProcessedReading = ProcessedReading(
    proc_id: nat, elemento_id: string, variavel: string, valor: real, unidade: string,
    volume_m3: Option<real>, percentual: Option<real>, criterio: Criterio, variacao: real,
    data_inicio: int, data_fim: int, fonte: string, autor: string,
    meta: Option<CompressionMeta>)

  datatype ProcessedInput = ProcessedInput(
    elemento_id: string, variavel: string, valor: real, unidade: Option<string>,
    volume_m3: Option<real>, percentual: Option<real>, criterio: Criterio, variacao: real,
    data_inicio: int, data_fim: int, fonte: string, autor: string,
    meta: Option<CompressionMeta>)

  /** `s || fallback` for an optional string column: absent or empty gives the fallback. */
  function StringOr(s: Option<string>, fallback: string): string
  {
    if s.Some? && s.value != "" then s.value else fallback
  }

  /** `s || null`: an empty string is stored as null. */
  function NonEmpty(s: Option<string>): Option<string>
  {
    if s.Some? && s.value != "" then s else None
  }

  /** The row insertRawReading stores, with its defaults filled in. */
  function NewRawRow(data: RawInput, id: nat, now: int): (row: RawReading)
    ensures row.unidade == (if data.unidade.Some? && data.unidade.value != "" then data.unidade.value else "cm")
    ensures row.modo == (if data.modo.Some? && data.modo.value != "" then data.modo.value else "automatica")
    ensures row.observacao.Some? ==> row.observacao == data.observacao && row.observacao.value != ""
    ensures row.datetime == (if data.datetime.Some? then data.datetime.value else now)
    ensures row.valor == data.valor && row.leitura_id == id
  {
    RawReading(id, data.sensor_id, data.elemento_id, data.variavel, data.valor,
      StringOr(data.unidade, "cm"), data.meta, data.fonte, data.autor,
      StringOr(data.modo, "automatica"), NonEmpty(data.observacao),
      data.datetime.UnwrapOr(now))
  }

  function NewProcessedRow(data: ProcessedInput, id: nat): (row: ProcessedReading)
    ensures row.unidade == (if data.unidade.Some? && data.unidade.value != "" then data.unidade.value else "cm")
    ensures row.proc_id == id && row.data_inicio == data.data_inicio && row.data_fim == data.data_fim
  {
    ProcessedReading(id, data.elemento_id, data.variavel, data.valor,
      StringOr(data.unidade, "cm"), data.volume_m3, data.percentual, data.criterio,
      data.variacao, data.data_inicio, data.data_fim, data.fonte, data.autor, data.meta)
  }

  predicate OfPair(r: ProcessedReading, elementoId: string, variavel: string)
  {
    r.elemento_id == elementoId && r.variavel == variavel
  }

  predicate RawOfPair(r: RawReading, elementoId: string, variavel: string)
  {
    r.elemento_id == elementoId && r.variavel == variavel
  }

  /** `rows` with data_fim of the row numbered procId replaced; every other field and row kept. */
  function WithDataFim(rows: seq<ProcessedReading>, procId: nat, dataFim: int): (r: seq<ProcessedReading>)
    ensures |r| == |rows|
    ensures forall i :: 0 <= i < |rows| ==>
      r[i] == if rows[i].proc_id == procId then rows[i].(data_fim := dataFim) else rows[i]
  {
    seq(|rows|, i requires 0 <= i < |rows| =>
      if rows[i].proc_id == procId then rows[i].(data_fim := dataFim) else rows[i])
  }

  /** The raw rows of one (elemento_id, variavel) series, in table order. */
  function RawOf(rows: seq<RawReading>, elementoId: string, variavel: string): (r: seq<RawReading>)
    ensures forall x :: x in r <==> x in rows && RawOfPair(x, elementoId, variavel)
    ensures |r| <= |rows|
  {
    if rows == [] then []
    else if RawOfPair(rows[0], elementoId, variavel) then [rows[0]] + RawOf(rows[1..], elementoId, variavel)
    else RawOf(rows[1..], elementoId, variavel)
  }

  /** `ORDER BY datetime DESC`. */
  predicate NewerOrSame(a: RawReading, b: RawReading)
  {
    a.datetime >= b.datetime
  }

  lemma NewerOrSameTotalPreorder()
    ensures Sorting.TotalPreorder(NewerOrSame)
  {
  }

  function Take<T>(s: seq<T>, n: nat): (r: seq<T>)
    ensures |r| == if n < |s| then n else |s|
  {
    if n < |s| then s[..n] else s
  }

  /** getRecentReadings' rows: newest first, at most windowSize of them. */
  function RecentRows(rows: seq<RawReading>, elementoId: string, variavel: string, windowSize: nat): seq<RawReading>
  {
    Take(Sorting.SortBy(RawOf(rows, elementoId, variavel), NewerOrSame), windowSize)
  }

  function Valores(rows: seq<RawReading>): (r: seq<real>)
    ensures |r| == |rows|
    ensures forall i :: 0 <= i < |rows| ==> r[i] == rows[i].valor
  {
    seq(|rows|, i requires 0 <= i < |rows| => rows[i].valor)
  }

  /**
   * getRecentReadings returns min(windowSize, series length) rows of the
   * series, newest first, and no row of the series left out is newer than
   * a row returned.
   */
  lemma {:induction false} RecentRowsAreNewest(rows: seq<RawReading>, elementoId: string, variavel: string, windowSize: nat)
    ensures var r := RecentRows(rows, elementoId, variavel, windowSize);
      var series := RawOf(rows, elementoId, variavel);
      |r| == (if windowSize < |series| then windowSize else |series|) &&
      (forall x :: x in r ==> x in rows && RawOfPair(x, elementoId, variavel)) &&
      Sorting.SortedBy(r, NewerOrSame) &&
      (forall x, k :: x in series && 0 <= k < |r| && x.datetime > r[k].datetime ==> x in r) &&
      (|series| <= windowSize ==> multiset(r) == multiset(series))
  {
    var series := RawOf(rows, elementoId, variavel);
    var sorted := Sorting.SortBy(series, NewerOrSame);
    NewerOrSameTotalPreorder();
    Sorting.SortBySorted(series, NewerOrSame);
    var r := RecentRows(rows, elementoId, variavel, windowSize);
    assert r == Take(sorted, windowSize);
    forall x | x in r ensures x in rows && RawOfPair(x, elementoId, variavel) {
      assert x in multiset(sorted);
    }
    forall x, k | x in series && 0 <= k < |r| && x.datetime > r[k].datetime
      ensures x in r
    {
      assert x in multiset(sorted);
      var j :| 0 <= j < |sorted| && sorted[j] == x;
      assert r[k] == sorted[k];
      assert k < j ==> NewerOrSame(sorted[k], sorted[j]);
      assert j <= k;
      assert r[j] == x;
    }
  }

  /** The row getLastProcessedReading picks: the first of the series with the greatest data_fim. */
  function LatestOf(rows: seq<ProcessedReading>, elementoId: string, variavel: string): Option<ProcessedReading>
  {
    if rows == [] then None
    else
      var prev := LatestOf(rows[..|rows| - 1], elementoId, variavel);
      var x := rows[|rows| - 1];
      if OfPair(x, elementoId, variavel) && (prev.None? || x.data_fim > prev.value.data_fim) then Some(x) else prev
  }

  /** `ORDER BY data_fim DESC LIMIT 1`: no row of the series ends later than the one chosen. */
  lemma {:induction false} LatestOfIsLatest(rows: seq<ProcessedReading>, elementoId: string, variavel: string)
    ensures LatestOf(rows, elementoId, variavel).None? <==> forall x :: x in rows ==> !OfPair(x, elementoId, variavel)
    ensures var r := LatestOf(rows, elementoId, variavel);
      r.Some? ==>
        (r.value in rows && OfPair(r.value, elementoId, variavel) &&
         forall x :: x in rows && OfPair(x, elementoId, variavel) ==> x.data_fim <= r.value.data_fim)
  {
    if rows != [] {
      var init := rows[..|rows| - 1];
      LatestOfIsLatest(init, elementoId, variavel);
      assert rows == init + [rows[|rows| - 1]];
      assert forall x :: x in rows ==> x in init || x == rows[|rows| - 1];
    }
  }

  class ReadingStore {
    var raw: seq<RawReading>
    var processed: seq<ProcessedReading>
    var available: bool

    /** Identifiers are the serial numbers 1, 2, … in insertion order. */
    ghost predicate Valid()
      reads this
    {
      (forall i :: 0 <= i < |raw| ==> raw[i].leitura_id == i + 1) &&
      (forall i :: 0 <= i < |processed| ==> processed[i].proc_id == i + 1)
    }

    constructor (available: bool)
      ensures Valid() && raw == [] && processed == [] && this.available == available
    {
      raw := [];
      processed := [];
      this.available := available;
    }

    /** insertRawReading: appends one row with its defaults and returns it. */
    method InsertRawReading(data: RawInput, now: int) returns (r: Result<RawReading, StoreError>)
      requires Valid()
      modifies this`raw
      ensures Valid() && processed == old(processed)
      ensures !available ==> r == Failure(StoreUnavailable) && raw == old(raw)
      ensures available ==> r == Success(NewRawRow(data, |old(raw)| + 1, now)) && raw == old(raw) + [r.value]
    {
      if !available {
        return Failure(StoreUnavailable);
      }
      var row := NewRawRow(data, |raw| + 1, now);
      raw := raw + [row];
      r := Success(row);
    }

    /**
     * getLastProcessedReading: a row of the series with the greatest
     * data_fim (LatestOf, see LatestOfIsLatest), or None when the series
     * has no processed row.
     */
    method GetLastProcessedReading(elementoId: string, variavel: string)
      returns (r: Result<Option<ProcessedReading>, StoreError>)
      ensures r.Success? <==> available
      ensures r.Success? ==> r.value == LatestOf(processed, elementoId, variavel)
      ensures r == Success(None) <==> available && forall x :: x in processed ==> !OfPair(x, elementoId, variavel)
      ensures r.Success? && r.value.Some? ==>
        r.value.value in processed && OfPair(r.value.value, elementoId, variavel) &&
        forall x :: x in processed && OfPair(x, elementoId, variavel) ==> x.data_fim <= r.value.value.data_fim
    {
      if !available {
        return Failure(StoreUnavailable);
      }
      var best: Option<ProcessedReading> := None;
      var i := 0;
      while i < |processed|
        invariant 0 <= i <= |processed|
        invariant best == LatestOf(processed[..i], elementoId, variavel)
      {
        var row := processed[i];
        assert processed[..i + 1][..i] == processed[..i];
        if OfPair(row, elementoId, variavel) && (best.None? || row.data_fim > best.value.data_fim) {
          best := Some(row);
        }
        i := i + 1;
      }
      assert processed[..i] == processed;
      LatestOfIsLatest(processed, elementoId, variavel);
      r := Success(best);
    }

    /** insertProcessedReading: appends exactly one row and returns its proc_id. */
    method InsertProcessedReading(data: ProcessedInput) returns (r: Result<nat, StoreError>)
      requires Valid()
      modifies this`processed
      ensures Valid() && raw == old(raw)
      ensures !available ==> r == Failure(StoreUnavailable) && processed == old(processed)
      ensures available ==> r == Success(|old(processed)| + 1)
      ensures available ==> processed == old(processed) + [NewProcessedRow(data, |old(processed)| + 1)]
    {
      if !available {
        return Failure(StoreUnavailable);
      }
      var id := |processed| + 1;
      processed := processed + [NewProcessedRow(data, id)];
      r := Success(id);
    }

    /**
     * extendProcessedReading: sets data_fim of the row numbered procId and
     * returns it; an unknown procId updates nothing and returns None.
     */
    method ExtendProcessedReading(procId: nat, dataFim: int) returns (r: Result<Option<ProcessedReading>, StoreError>)
      requires Valid()
      modifies this`processed
      ensures Valid() && raw == old(raw)
      ensures !available ==> r == Failure(StoreUnavailable) && processed == old(processed)
      ensures available ==> processed == WithDataFim(old(processed), procId, dataFim)
      ensures available && 1 <= procId <= |old(processed)| ==>
        r == Success(Some(old(processed)[procId - 1].(data_fim := dataFim)))
      ensures available && !(1 <= procId <= |old(processed)|) ==> r == Success(None) && processed == old(processed)
    {
      if !available {
        return Failure(StoreUnavailable);
      }
      processed := WithDataFim(processed, procId, dataFim);
      if 1 <= procId <= |processed| {
        r := Success(Some(processed[procId - 1]));
      } else {
        assert processed == old(processed);
        r := Success(None);
      }
    }

    /** getRecentReadings: the valores of RecentRows (see RecentRowsAreNewest). */
    method GetRecentReadings(elementoId: string, variavel: string, windowSize: nat)
      returns (r: Result<seq<real>, StoreError>)
      ensures r.Success? <==> available
      ensures r.Success? ==> r.value == Valores(RecentRows(raw, elementoId, variavel, windowSize))
      ensures r.Success? ==> |r.value| <= windowSize
    {
      if !available {
        return Failure(StoreUnavailable);
      }
      RecentRowsAreNewest(raw, elementoId, variavel, windowSize);
      r := Success(Valores(RecentRows(raw, elementoId, variavel, windowSize)));
    }
  }

  /** An extension touches exactly one field of at most one row. */
  lemma ExtendChangesOnlyDataFim(rows: seq<ProcessedReading>, procId: nat, dataFim: int, i: nat)
    requires i < |rows|
    ensures var r := WithDataFim(rows, procId, dataFim);
      r[i].(data_fim := rows[i].data_fim) == rows[i] &&
      (r[i].data_fim != rows[i].data_fim ==> rows[i].proc_id == procId)
  {
  }
}
