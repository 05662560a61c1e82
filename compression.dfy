/**
 * The deadband compression engine (backend/src/services/compression.service.js).
 * For each new value of an (elemento_id, variavel) series it either
 * bootstraps the series with a first processed row, extends the open
 * interval of the latest processed row, or commits a new processed row and
 * runs the event detectors.
 */
module Compression {
  import opened Wrappers
  import Volume
  import opened Readings
  import Events

  const DEADBAND_CM := 2.0
  const WINDOW_SIZE: nat := 11
  const STABILITY_STDDEV := 0.5

  /** The sensor row the engine is called with. */
  datatype Sensor = Sensor(sensor_id: string, elemento_id: string, variavel: string, ajuste_offset: Option<real>)

  /** The calibrated value, `valor + (ajuste_offset || 0)`. */
  function Adjusted(sensor: Sensor, valor: real): real
  {
    valor + Volume.OrZero(sensor.ajuste_offset)
  }

  datatype VolumePair = VolumePair(volume_m3: Option<real>, percentual: Option<real>)

  /** Volume and percentage, computed only for a `nivel_cm` series with element parameters. */
  function VolumeFor(sensor: Sensor, valor: real, params: Option<Volume.ElementoParametros>): (v: VolumePair)
    ensures v.volume_m3.Some? <==> sensor.variavel == "nivel_cm" && params.Some?
    ensures v.percentual.Some? <==> v.volume_m3.Some?
    ensures v.volume_m3.Some? ==> v == (var d := Volume.CalculateVolume(Adjusted(sensor, valor), params.value);
      VolumePair(Some(d.volume_m3), Some(d.percentual)))
  {
    if sensor.variavel == "nivel_cm" && params.Some? then
      var d := Volume.CalculateVolume(Adjusted(sensor, valor), params.value);
      VolumePair(Some(d.volume_m3), Some(d.percentual))
    else VolumePair(None, None)
  }

  function Abs(x: real): real { if x < 0.0 then -x else x }

  /** The row written for the first value of a series. */
  function FirstRow(sensor: Sensor, valor: real, params: Option<Volume.ElementoParametros>, datetime: int): ProcessedInput
  {
    var v := VolumeFor(sensor, valor, params);
    ProcessedInput(sensor.elemento_id, sensor.variavel, Adjusted(sensor, valor), Some("cm"),
      v.volume_m3, v.percentual, PrimeiraLeitura, 0.0, datetime, datetime,
      "sistema", "compression_engine", None)
  }

  /** The row written for a significant change. */
  function ChangeRow(sensor: Sensor, valor: real, params: Option<Volume.ElementoParametros>, datetime: int,
                     delta: real, stddev: real, windowSize: nat): ProcessedInput
  {
    var v := VolumeFor(sensor, valor, params);
    ProcessedInput(sensor.elemento_id, sensor.variavel, Adjusted(sensor, valor), Some("cm"),
      v.volume_m3, v.percentual, Significativa(delta, stddev), delta, datetime, datetime,
      "sistema", "compression_engine", Some(CompressionMeta(stddev, windowSize)))
  }

  /** What one call decides; the store is changed accordingly by ProcessCompression. */
  datatype Decision =
    | Bootstrap(row: ProcessedInput)
    | Extend(procId: nat)
    | Commit(row: ProcessedInput, last: ProcessedReading)

  /**
   * The decision of processCompression given the latest processed row of
   * the series, the recent raw window and calculateStdDev.
   */
  function Decide(last: Option<ProcessedReading>, recent: seq<real>, stdDev: seq<real> -> real,
                  sensor: Sensor, valor: real, params: Option<Volume.ElementoParametros>, datetime: int): Decision
  {
    if last.None? then Bootstrap(FirstRow(sensor, valor, params, datetime))
    else
      var delta := Abs(Adjusted(sensor, valor) - last.value.valor);
      if delta <= DEADBAND_CM then Extend(last.value.proc_id)
      else
        var sd := stdDev(recent);
        if sd > STABILITY_STDDEV && |recent| < WINDOW_SIZE then Extend(last.value.proc_id)
        else Commit(ChangeRow(sensor, valor, params, datetime, delta, sd, |recent|), last.value)
  }

  /** Event detection runs after a commit where both the old and the new volume are known. */
  predicate DetectionRuns(d: Decision)
  {
    d.Commit? && d.row.volume_m3.Some? && d.last.volume_m3.Some?
  }

  /** calculateStdDev computes the population standard deviation. */
  ghost predicate IsStdDevFunction(stdDev: seq<real> -> real)
  {
    forall v :: Volume.IsStdDev(v, stdDev(v))
  }

  /**
   * processCompression(sensor, valor, elementoParametros, datetime); `now`
   * is the database clock the detectors' queries use. A store error is
   * returned to the caller; an error inside the detectors is swallowed.
   */
  method ProcessCompression(store: ReadingStore, events: Events.EventStore, stdDev: seq<real> -> real,
                            sensor: Sensor, valor: real, params: Option<Volume.ElementoParametros>,
                            datetime: int, now: int)
    returns (r: Result<Decision, StoreError>)
    requires store.Valid()
    modifies store`processed, events`events
    ensures store.Valid() && store.raw == old(store.raw)
    ensures !store.available ==> r == Failure(StoreUnavailable) && store.processed == old(store.processed)
    ensures !store.available ==> events.events == old(events.events)
    ensures store.available ==> r == Success(Decide(
      LatestOf(old(store.processed), sensor.elemento_id, sensor.variavel),
      Valores(RecentRows(store.raw, sensor.elemento_id, sensor.variavel, WINDOW_SIZE)),
      stdDev, sensor, valor, params, datetime))
    ensures r.Success? && r.value.Bootstrap? ==>
      store.processed == old(store.processed) + [NewProcessedRow(r.value.row, |old(store.processed)| + 1)]
    ensures r.Success? && r.value.Commit? ==>
      store.processed == old(store.processed) + [NewProcessedRow(r.value.row, |old(store.processed)| + 1)]
    ensures r.Success? && r.value.Extend? ==>
      store.processed == WithDataFim(old(store.processed), r.value.procId, datetime)
    ensures r.Success? && DetectionRuns(r.value) && events.available ==>
      events.events == old(events.events)
        + Events.OptionSeq(Events.SupplyEvent(sensor.elemento_id, r.value.last.volume_m3.value,
            r.value.row.volume_m3.value, datetime))
        + Events.OptionSeq(Events.LeakEvent(sensor.elemento_id, Events.LeakWindow(store.processed, sensor.elemento_id, now)))
        + Events.OptionSeq(Events.CriticalEvent(sensor.elemento_id, events.TipoOf(sensor.elemento_id),
            Volume.OrZero(r.value.row.percentual),
            Events.NivelRowsSince(store.processed, sensor.elemento_id, now - Events.TEN_MINUTES_MS), datetime))
    ensures !(r.Success? && DetectionRuns(r.value) && events.available) ==> events.events == old(events.events)
  {
    var lastR := store.GetLastProcessedReading(sensor.elemento_id, sensor.variavel);
    if lastR.Failure? {
      return Failure(StoreUnavailable);
    }
    var recentRows := Valores(RecentRows(store.raw, sensor.elemento_id, sensor.variavel, WINDOW_SIZE));
    var d := Decide(lastR.value, recentRows, stdDev, sensor, valor, params, datetime);
    if lastR.value.None? {
      var ins := store.InsertProcessedReading(FirstRow(sensor, valor, params, datetime));
      return Success(d);
    }
    var last := lastR.value.value;
    var delta := Abs(Adjusted(sensor, valor) - last.valor);
    if delta <= DEADBAND_CM {
      var ext := store.ExtendProcessedReading(last.proc_id, datetime);
      return Success(d);
    }
    var changed := ChangedReading(store, events, stdDev, sensor, valor, params, datetime, now, last);
    r := Success(changed);
  }

  /**
   * The part of processCompression past the deadband: a short unstable
   * window extends the last row, anything else commits a new one.
   */
  method ChangedReading(store: ReadingStore, events: Events.EventStore, stdDev: seq<real> -> real,
                        sensor: Sensor, valor: real, params: Option<Volume.ElementoParametros>,
                        datetime: int, now: int, last: ProcessedReading)
    returns (d: Decision)
    requires store.Valid() && store.available
    requires Abs(Adjusted(sensor, valor) - last.valor) > DEADBAND_CM
    modifies store`processed, events`events
    ensures store.Valid() && store.raw == old(store.raw)
    ensures d == Decide(Some(last), Valores(RecentRows(store.raw, sensor.elemento_id, sensor.variavel, WINDOW_SIZE)),
      stdDev, sensor, valor, params, datetime)
    ensures d.Commit? ==>
      d.last == last && store.processed == old(store.processed) + [NewProcessedRow(d.row, |old(store.processed)| + 1)]
    ensures d.Extend? ==> store.processed == WithDataFim(old(store.processed), d.procId, datetime)
    ensures DetectionRuns(d) && events.available ==>
      events.events == old(events.events)
        + Events.OptionSeq(Events.SupplyEvent(sensor.elemento_id, d.last.volume_m3.value, d.row.volume_m3.value, datetime))
        + Events.OptionSeq(Events.LeakEvent(sensor.elemento_id, Events.LeakWindow(store.processed, sensor.elemento_id, now)))
        + Events.OptionSeq(Events.CriticalEvent(sensor.elemento_id, events.TipoOf(sensor.elemento_id),
            Volume.OrZero(d.row.percentual),
            Events.NivelRowsSince(store.processed, sensor.elemento_id, now - Events.TEN_MINUTES_MS), datetime))
    ensures !(DetectionRuns(d) && events.available) ==> events.events == old(events.events)
  {
    d := Decide(Some(last), Valores(RecentRows(store.raw, sensor.elemento_id, sensor.variavel, WINDOW_SIZE)),
      stdDev, sensor, valor, params, datetime);
    var recentR := store.GetRecentReadings(sensor.elemento_id, sensor.variavel, WINDOW_SIZE);
    assert recentR.Success?;
    var recent := recentR.value;
    var stddev := stdDev(recent);
    if stddev > STABILITY_STDDEV && |recent| < WINDOW_SIZE {
      var ext := store.ExtendProcessedReading(last.proc_id, datetime);
      return;
    }
    CommitChange(store, events, sensor, d.row, last, datetime, now);
  }

  /** The commit path of processCompression: insert the new row, then run the detectors when both volumes are known. */
  method CommitChange(store: ReadingStore, events: Events.EventStore, sensor: Sensor,
                      row: ProcessedInput, last: ProcessedReading, datetime: int, now: int)
    requires store.Valid() && store.available
    modifies store`processed, events`events
    ensures store.Valid() && store.raw == old(store.raw)
    ensures store.processed == old(store.processed) + [NewProcessedRow(row, |old(store.processed)| + 1)]
    ensures DetectionRuns(Commit(row, last)) && events.available ==>
      events.events == old(events.events)
        + Events.OptionSeq(Events.SupplyEvent(sensor.elemento_id, last.volume_m3.value, row.volume_m3.value, datetime))
        + Events.OptionSeq(Events.LeakEvent(sensor.elemento_id, Events.LeakWindow(store.processed, sensor.elemento_id, now)))
        + Events.OptionSeq(Events.CriticalEvent(sensor.elemento_id, events.TipoOf(sensor.elemento_id),
            Volume.OrZero(row.percentual),
            Events.NivelRowsSince(store.processed, sensor.elemento_id, now - Events.TEN_MINUTES_MS), datetime))
    ensures !(DetectionRuns(Commit(row, last)) && events.available) ==> events.events == old(events.events)
  {
    var ins := store.InsertProcessedReading(row);
    if DetectionRuns(Commit(row, last)) {
      DetectEvents(events, sensor.elemento_id, last.volume_m3.value, row.volume_m3.value,
        Volume.OrZero(row.percentual), datetime, store.processed, now);
    }
  }

  /**
   * detectEvents: supply, then leak, then critical level, inside one
   * try/catch, so the first failing detector stops the rest and its error
   * is not passed on.
   */
  method DetectEvents(events: Events.EventStore, elementoId: string, anteriorM3: real, atualM3: real,
                      percentual: real, datetime: int, processed: seq<ProcessedReading>, now: int)
    modifies events`events
    ensures events.available ==>
      events.events == old(events.events)
        + Events.OptionSeq(Events.SupplyEvent(elementoId, anteriorM3, atualM3, datetime))
        + Events.OptionSeq(Events.LeakEvent(elementoId, Events.LeakWindow(processed, elementoId, now)))
        + Events.OptionSeq(Events.CriticalEvent(elementoId, events.TipoOf(elementoId), percentual,
            Events.NivelRowsSince(processed, elementoId, now - Events.TEN_MINUTES_MS), datetime))
    ensures !events.available ==> events.events == old(events.events)
  {
    var supply := events.DetectSupplyEvent(elementoId, anteriorM3, atualM3, datetime);
    if supply.Failure? {
      return;
    }
    var leak := events.DetectLeakEvent(elementoId, processed, now);
    if leak.Failure? {
      return;
    }
    var critical := events.DetectCriticalLevel(elementoId, percentual, datetime, processed, now);
  }

  /** The first value of a series is stored as-is: criterio primeira_leitura, no variation, a point interval. */
  lemma FirstReadingBootstraps(recent: seq<real>, stdDev: seq<real> -> real, sensor: Sensor, valor: real,
                               params: Option<Volume.ElementoParametros>, datetime: int)
    ensures var d := Decide(None, recent, stdDev, sensor, valor, params, datetime);
      d.Bootstrap? && d.row.criterio == PrimeiraLeitura && d.row.variacao == 0.0 &&
      d.row.data_inicio == datetime && d.row.data_fim == datetime && d.row.meta.None? &&
      d.row.valor == valor + Volume.OrZero(sensor.ajuste_offset) &&
      d.row.elemento_id == sensor.elemento_id && d.row.variavel == sensor.variavel
  {
  }

  /** A change within the deadband only extends the latest row. */
  lemma DeadbandExtends(last: ProcessedReading, recent: seq<real>, stdDev: seq<real> -> real, sensor: Sensor,
                        valor: real, params: Option<Volume.ElementoParametros>, datetime: int)
    requires -DEADBAND_CM <= valor + Volume.OrZero(sensor.ajuste_offset) - last.valor <= DEADBAND_CM
    ensures Decide(Some(last), recent, stdDev, sensor, valor, params, datetime) == Extend(last.proc_id)
  {
  }

  /**
   * Beyond the deadband the outcome depends on the window: an unstable,
   * short window extends; otherwise one row is committed carrying the
   * variation, a point interval and the window's deviation and length.
   */
  lemma BeyondDeadband(last: ProcessedReading, recent: seq<real>, stdDev: seq<real> -> real, sensor: Sensor,
                       valor: real, params: Option<Volume.ElementoParametros>, datetime: int)
    requires IsStdDevFunction(stdDev)
    requires Abs(Adjusted(sensor, valor) - last.valor) > DEADBAND_CM
    ensures var d := Decide(Some(last), recent, stdDev, sensor, valor, params, datetime);
      (Volume.StdDevExceeds(recent, STABILITY_STDDEV) && |recent| < WINDOW_SIZE ==> d == Extend(last.proc_id)) &&
      (!(Volume.StdDevExceeds(recent, STABILITY_STDDEV) && |recent| < WINDOW_SIZE) ==>
        d.Commit? && d.last == last && d.row.variacao == Abs(Adjusted(sensor, valor) - last.valor) &&
        d.row.data_inicio == datetime && d.row.data_fim == datetime &&
        d.row.meta == Some(CompressionMeta(stdDev(recent), |recent|)))
  {
    Volume.StdDevExceedsIff(recent, stdDev(recent), STABILITY_STDDEV);
  }

  /** Rows of a series other than `nivel_cm`, or of an element without parameters, carry no volume. */
  lemma VolumeOnlyForLevel(last: Option<ProcessedReading>, recent: seq<real>, stdDev: seq<real> -> real,
                           sensor: Sensor, valor: real, params: Option<Volume.ElementoParametros>, datetime: int)
    ensures var d := Decide(last, recent, stdDev, sensor, valor, params, datetime);
      (d.Bootstrap? || d.Commit?) ==>
        (d.row.volume_m3.Some? <==> sensor.variavel == "nivel_cm" && params.Some?) &&
        (d.row.percentual.Some? <==> d.row.volume_m3.Some?)
  {
  }

  /**
   * The queue worker compresses only `distance_cm` series, and those never
   * carry a volume, so on that path no event detector ever runs.
   */
  lemma DistanceSeriesNeverDetects(last: Option<ProcessedReading>, recent: seq<real>, stdDev: seq<real> -> real,
                                   sensor: Sensor, valor: real, params: Option<Volume.ElementoParametros>, datetime: int)
    requires sensor.variavel == "distance_cm"
    ensures !DetectionRuns(Decide(last, recent, stdDev, sensor, valor, params, datetime))
  {
  }
}
