/**
 * Run metrics: the number of matches, the first few match records kept as
 * samples, and the elapsed time split into minutes and seconds. Clock
 * readings are parameters, in microseconds (the resolution of
 * `datetime.datetime`).
 */
module Metrics {
  import opened Wrappers
  import opened Records

  /** `_max_samples` */
  const MaxSamples: nat := 10

  /** Python's `int(a / b)` for a positive divisor: the quotient truncated
      toward zero (Dafny's `/` rounds down instead). */
  function TruncDiv(a: int, b: int): (q: int)
    requires b > 0
    ensures a >= 0 ==> q == a / b
    ensures a < 0 ==> q == -((-a) / b)
  {
    if a >= 0 then a / b else -((-a) / b)
  }

  datatype Duration = Duration(minutes: int, seconds: int)

  /** `_get_duration` from the whole number of elapsed seconds:
      `int(total / 60)` minutes and `int(total % 60)` seconds, where `%` is
      Python's floor remainder. For a non-negative total the two parts
      recombine to the total; when the clock went backwards they do not. */
  function DurationOf(totalSeconds: int): (d: Duration)
    ensures 0 <= d.seconds < 60
    ensures totalSeconds >= 0 ==> d.minutes * 60 + d.seconds == totalSeconds && d.minutes >= 0
    ensures totalSeconds < 0 && totalSeconds % 60 != 0 ==>
      d.minutes * 60 + d.seconds == totalSeconds + 60
  {
    Duration(TruncDiv(totalSeconds, 60), totalSeconds % 60)
  }

  /** `int(delta.total_seconds())` for two clock readings in microseconds. */
  function ElapsedSeconds(startMicros: int, endMicros: int): int {
    TruncDiv(endMicros - startMicros, 1000000)
  }

  /** One `add_sample_row`: kept while fewer than `MaxSamples` are held. */
  function SampleStep(samples: seq<Row>, row: Row): (r: seq<Row>)
    ensures |samples| < MaxSamples ==> r == samples + [row]
    ensures |samples| >= MaxSamples ==> r == samples
  {
    if |samples| < MaxSamples then samples + [row] else samples
  }

  /** `add_sample_row` for each of `rows`, in order. */
  function Samples(samples: seq<Row>, rows: seq<Row>): seq<Row>
    decreases |rows|
  {
    if rows == [] then samples
    else Samples(SampleStep(samples, rows[0]), rows[1..])
  }

  function Min(a: int, b: int): int {
    if a <= b then a else b
  }

  /** The samples are the first `MaxSamples` rows ever offered; the rest
      are ignored. */
  lemma {:induction false} SamplesArePrefix(samples: seq<Row>, rows: seq<Row>)
    requires |samples| <= MaxSamples
    ensures Samples(samples, rows) == (samples + rows)[..Min(MaxSamples, |samples| + |rows|)]
    decreases |rows|
  {
    if rows != [] {
      var next := SampleStep(samples, rows[0]);
      SamplesArePrefix(next, rows[1..]);
      if |samples| < MaxSamples {
        assert samples + rows == next + rows[1..];
      } else {
        assert (samples + rows)[..MaxSamples] == samples;
      }
    }
  }

  /** Offering one more row is one more `SampleStep`. */
  lemma {:induction false} SamplesSnoc(samples: seq<Row>, rows: seq<Row>, row: Row)
    ensures Samples(samples, rows + [row]) == SampleStep(Samples(samples, rows), row)
    decreases |rows|
  {
    if rows == [] {
      assert [] + [row] == [row];
    } else {
      assert (rows + [row])[1..] == rows[1..] + [row];
      SamplesSnoc(SampleStep(samples, rows[0]), rows[1..], row);
    }
  }

  /** The collector's test: twenty offers of the same row keep ten. */
  lemma TwentyOffersKeepTen(row: Row)
    ensures Samples([], seq(20, _ => row)) == seq(10, _ => row)
  {
    SamplesArePrefix([], seq(20, _ => row));
    assert ([] + seq(20, _ => row))[..10] == seq(10, _ => row);
  }

  class MetricsCollector {
    var startTime: int
    var endTime: Option<int>
    var numMatches: int
    var numSamples: int
    var sampleRows: seq<Row>

    /** `_num_samples == len(_sample_rows) <= _max_samples` */
    ghost predicate Valid()
      reads this
    {
      numSamples == |sampleRows| <= MaxSamples
    }

    /** `MetricsCollector()` at clock reading `now`. */
    constructor (now: int)
      ensures Valid()
      ensures startTime == now && endTime == None
      ensures numMatches == 0 && sampleRows == []
    {
      startTime := now;
      endTime := None;
      numMatches := 0;
      numSamples := 0;
      sampleRows := [];
    }

    /** `increment_matches` */
    method IncrementMatches()
      modifies this
      ensures numMatches == old(numMatches) + 1
      ensures numSamples == old(numSamples) && sampleRows == old(sampleRows)
      ensures startTime == old(startTime) && endTime == old(endTime)
    {
      numMatches := numMatches + 1;
    }

    /** `mark_end_time` at clock reading `now`. */
    method MarkEndTime(now: int)
      modifies this
      ensures endTime == Some(now)
      ensures numMatches == old(numMatches) && numSamples == old(numSamples)
      ensures sampleRows == old(sampleRows) && startTime == old(startTime)
    {
      endTime := Some(now);
    }

    /** `add_sample_row` */
    method AddSampleRow(row: Row)
      requires Valid()
      modifies this
      ensures Valid()
      ensures sampleRows == SampleStep(old(sampleRows), row)
      ensures numMatches == old(numMatches)
      ensures startTime == old(startTime) && endTime == old(endTime)
    {
      if numSamples < MaxSamples {
        sampleRows := sampleRows + [row];
        numSamples := numSamples + 1;
      }
    }

    /** `_get_duration`: `None` is the failed `assert self._end_time`. */
    method GetDuration() returns (r: Option<Duration>)
      ensures r.None? <==> endTime.None?
      ensures r.Some? ==> r.value == DurationOf(ElapsedSeconds(startTime, endTime.value))
    {
      if endTime.None? {
        return None;
      }
      var total := ElapsedSeconds(startTime, endTime.value);
      var minutes := TruncDiv(total, 60);
      var seconds := total % 60;
      return Some(Duration(minutes, seconds));
    }
  }
}
