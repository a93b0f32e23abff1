/**
 * The statistics the meter keeps: a minimum/maximum pair over sample
 * durations, used both for the all-time ("absolute") statistics and for the
 * statistics of the current display interval ("transient").
 */
module Stats {
  import opened Clock

  /** The "no minimum yet" sentinel: 0xfffffff (28 bits), not a true infinity. */
  const MINVAL: Uint64 := 0xfff_ffff

  /** A minimum/maximum pair of durations in cycles. */
  datatype Range = Range(min: Uint64, max: Uint64)

  /** The pair as initialised and as reset: the sentinel minimum and a zero maximum. */
  const Empty: Range := Range(MINVAL, 0)

  /**
   * Records one duration: the minimum moves on a strictly smaller duration,
   * the maximum on a larger or equal one. Afterwards the duration lies
   * between the two, the minimum never grows, the maximum never shrinks, and
   * each bound is either the old one or the new duration.
   */
  function Record(r: Range, d: Uint64): (t: Range)
    ensures t.min <= d <= t.max
    ensures t.min <= r.min && r.max <= t.max
    ensures t.min == r.min || t.min == d
    ensures t.max == r.max || t.max == d
  {
    Range(if d < r.min then d else r.min, if d >= r.max then d else r.max)
  }

  /** Records the durations in order. */
  function RecordAll(r: Range, ds: seq<Uint64>): Range
  {
    if ds == [] then r else Record(RecordAll(r, ds[..|ds| - 1]), ds[|ds| - 1])
  }

  /**
   * After recording a series of durations, every one of them lies between the
   * minimum and the maximum, and each bound is either the starting bound or
   * one of the durations: the pair is exactly the minimum and maximum of the
   * starting pair and the series.
   */
  lemma {:induction false} RecordAllBounds(r: Range, ds: seq<Uint64>)
    ensures forall i :: 0 <= i < |ds| ==> RecordAll(r, ds).min <= ds[i] <= RecordAll(r, ds).max
    ensures RecordAll(r, ds).min <= r.min && r.max <= RecordAll(r, ds).max
    ensures RecordAll(r, ds).min == r.min || RecordAll(r, ds).min in ds
    ensures RecordAll(r, ds).max == r.max || RecordAll(r, ds).max in ds
  {
    if ds != [] {
      var init := ds[..|ds| - 1];
      RecordAllBounds(r, init);
      assert forall i :: 0 <= i < |init| ==> init[i] == ds[i];
      assert RecordAll(r, init).min in init ==> RecordAll(r, init).min in ds;
      assert RecordAll(r, init).max in init ==> RecordAll(r, init).max in ds;
    }
  }

  /**
   * From the reset pair, one duration below the sentinel becomes both the
   * minimum and the maximum; a duration at or above the sentinel leaves the
   * sentinel as the minimum.
   */
  lemma FirstRecord(d: Uint64)
    ensures d < MINVAL ==> Record(Empty, d) == Range(d, d)
    ensures d >= MINVAL ==> Record(Empty, d) == Range(MINVAL, d)
  {
  }

  /**
   * The pair is either still the reset pair or an ordered one; recording
   * keeps this, so the reported spread max - min of a pair that has recorded
   * at least one duration never underflows.
   */
  predicate Ordered(r: Range)
  {
    r == Empty || r.min <= r.max
  }

  /** Recording produces an ordered pair, whatever the pair before it. */
  lemma RecordOrdered(r: Range, d: Uint64)
    ensures Record(r, d).min <= Record(r, d).max
    ensures Ordered(Record(r, d))
  {
  }

  /** The durations 100, 50, 200, 75 give a minimum of 50 and a maximum of 200. */
  lemma ExampleInterval()
    ensures RecordAll(Empty, [100, 50, 200, 75]) == Range(50, 200)
  {
    var ds: seq<Uint64> := [100, 50, 200, 75];
    assert RecordAll(Empty, ds[..1]) == Range(100, 100) by {
      assert ds[..1][..0] == [];
    }
    assert RecordAll(Empty, ds[..2]) == Range(50, 100) by {
      assert ds[..2][..1] == ds[..1];
    }
    assert RecordAll(Empty, ds[..3]) == Range(50, 200) by {
      assert ds[..3][..2] == ds[..2];
    }
    assert ds[..4] == ds;
  }
}
