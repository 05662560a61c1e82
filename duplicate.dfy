/**
 * The duplicate filter in front of raw ingestion: a key derived from the
 * sensor, the second of the reading and its value rounded to two decimals,
 * checked against a key store whose entries expire after two seconds. Any
 * store failure lets the reading through.
 */
module Duplicate {
  import Volume

  /** Declared as the duplicate window; no operation reads it. */
  const DUPLICATE_WINDOW_MS := 1000
  /** The TTL given to a fresh key (`setEx(key, 2, '1')`), in milliseconds. */
  const KEY_TTL_MS := 2000

  /**
   * The text `sensorId:seconds:roundedValue`. Its last two fields contain
   * no ':', so the text and this triple determine each other; `centi` is
   * round(valor * 100), and the rendered value is centi / 100.
   */
  datatype DupKey = DupKey(sensorId: string, seconds: int, centi: int)

  /**
   * generateHash: the second the reading falls in (milliseconds dropped)
   * and the value rounded half up to a multiple of 0.01.
   */
  function GenerateHash(sensorId: string, datetime: int, valor: real): (k: DupKey)
    ensures k.sensorId == sensorId
    ensures k.seconds * 1000 <= datetime < k.seconds * 1000 + 1000
    ensures valor * 100.0 - 0.5 < k.centi as real <= valor * 100.0 + 0.5
  {
    Volume.NearestClose(valor * 100.0);
    DupKey(sensorId, datetime / 1000, Volume.Nearest(valor * 100.0))
  }

  /** Two readings of one sensor in one second share a key iff their values round to the same hundredth. */
  lemma SameSecondKeysIff(sensorId: string, t1: int, t2: int, v1: real, v2: real)
    requires t1 / 1000 == t2 / 1000
    ensures GenerateHash(sensorId, t1, v1) == GenerateHash(sensorId, t2, v2) <==>
      Volume.Nearest(v1 * 100.0) == Volume.Nearest(v2 * 100.0)
  {
  }

  /** Values less than half a hundredth apart can still round apart, so their keys differ. */
  lemma CloseValuesCanSplit()
    ensures GenerateHash("S", 0, 0.004) != GenerateHash("S", 0, 0.006)
  {
    assert Volume.Nearest(0.004 * 100.0) == 0;
    assert Volume.Nearest(0.006 * 100.0) == 1;
  }

  /** Readings one millisecond apart, across a second boundary, never share a key. */
  lemma SecondBoundarySplits(sensorId: string, valor: real, s: int)
    ensures GenerateHash(sensorId, s * 1000 - 1, valor) != GenerateHash(sensorId, s * 1000, valor)
  {
    var k1 := GenerateHash(sensorId, s * 1000 - 1, valor);
    var k2 := GenerateHash(sensorId, s * 1000, valor);
    assert k2.seconds == s;
    assert k1.seconds < s;
  }

  /** A key is present while its expiry time lies in the future. */
  predicate Live(expiry: map<DupKey, int>, k: DupKey, now: int)
  {
    k in expiry && now < expiry[k]
  }

  /**
   * The key store, as a map from key to expiry time. When `available` is
   * false every store call throws.
   */
  class DuplicateStore {
    var expiry: map<DupKey, int>
    var available: bool

    constructor (available: bool)
      ensures expiry == map[] && this.available == available
    {
      expiry := map[];
      this.available := available;
    }

    /**
     * isDuplicate: true iff the reading's key is live, in which case
     * nothing is written; otherwise the key is stored for two seconds and
     * the answer is false. A failing store answers false and stores nothing.
     */
    method IsDuplicate(sensorId: string, datetime: int, valor: real, now: int) returns (dup: bool)
      modifies this`expiry
      ensures var k := GenerateHash(sensorId, datetime, valor);
        dup <==> available && Live(old(expiry), k, now)
      ensures var k := GenerateHash(sensorId, datetime, valor);
        expiry == if !available || dup then old(expiry) else old(expiry)[k := now + KEY_TTL_MS]
    {
      if !available {
        return false;
      }
      var k := GenerateHash(sensorId, datetime, valor);
      if k in expiry && now < expiry[k] {
        return true;
      }
      expiry := expiry[k := now + KEY_TTL_MS];
      dup := false;
    }
  }

  /**
   * After a key is stored at `t`, a check of the same key at any `t'` in
   * [t, t + 2000) finds it; the declared one-second window plays no part,
   * and from t + 2000 on the key is gone.
   */
  lemma SuppressionWindow(expiry: map<DupKey, int>, k: DupKey, t: int, t': int)
    requires t <= t'
    ensures Live(expiry[k := t + KEY_TTL_MS], k, t') <==> t' < t + KEY_TTL_MS
    ensures t' < t + DUPLICATE_WINDOW_MS ==> Live(expiry[k := t + KEY_TTL_MS], k, t')
  {
  }

  /**
   * Two checks of one reading from a working store: the first, on a key
   * that is not live, answers false; a second within two seconds answers true.
   */
  method RepeatWithinTtl(store: DuplicateStore, sensorId: string, datetime: int, valor: real, t: int, t': int)
    returns (first: bool, second: bool)
    requires store.available && t <= t' < t + KEY_TTL_MS
    requires !Live(store.expiry, GenerateHash(sensorId, datetime, valor), t)
    modifies store
    ensures !first && second
  {
    first := store.IsDuplicate(sensorId, datetime, valor, t);
    second := store.IsDuplicate(sensorId, datetime, valor, t');
  }
}
