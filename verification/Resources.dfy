/** The rolling resource figures of one process (src/lifecycle/mod.rs): what a run record can and
    cannot say about CPU and memory. */
module Resources {
  import opened Options

  /** One tick's reading; without a CPU figure on the first tick that sees the process. */
  datatype Reading = Reading(cpu: Option<real>, rss: nat, vram: Option<nat>)

  /** Where the sample counter stops. */
  const MAX_COUNT: nat := 0xFFFF_FFFF

  function NotNegative(x: real): real {
    if x > 0.0 then x else 0.0
  }

  function CpuSum(readings: seq<Reading>): real {
    if readings == [] then 0.0
    else
      var last := readings[|readings| - 1];
      CpuSum(readings[..|readings| - 1]) + if last.cpu.Some? then NotNegative(last.cpu.value) else 0.0
  }

  /** How many readings have a CPU figure. */
  function CpuReadings(readings: seq<Reading>): nat {
    if readings == [] then 0
    else CpuReadings(readings[..|readings| - 1]) + if readings[|readings| - 1].cpu.Some? then 1 else 0
  }

  /** `saturating_add` of that many ones. */
  function CpuCount(readings: seq<Reading>): nat {
    if CpuReadings(readings) <= MAX_COUNT then CpuReadings(readings) else MAX_COUNT
  }

  function AvgCpu(readings: seq<Reading>): real {
    if CpuCount(readings) == 0 then 0.0 else CpuSum(readings) / CpuCount(readings) as real
  }

  /** The largest CPU figure, and zero at least. */
  ghost predicate IsCpuPeak(peak: real, readings: seq<Reading>) {
    && peak >= 0.0
    && (forall r <- readings :: r.cpu.Some? ==> r.cpu.value <= peak)
    && (peak == 0.0 || exists r <- readings :: r.cpu == Some(peak))
  }

  ghost predicate IsRssPeak(peak: nat, readings: seq<Reading>) {
    && (forall r <- readings :: r.rss <= peak)
    && (peak == 0 || exists r <- readings :: r.rss == peak)
  }

  ghost predicate IsVramPeak(peak: nat, readings: seq<Reading>) {
    && (forall r <- readings :: r.vram.Some? ==> r.vram.value <= peak)
    && (peak == 0 || exists r <- readings :: r.vram == Some(peak))
  }

  class ResourceStats {
    var cpuSumPct: real
    var cpuPeakPct: real
    var rssPeakBytes: nat
    var vramPeakBytes: nat
    var sampleCount: nat

    /** The figures are those of `readings`. */
    ghost predicate Describes(readings: seq<Reading>)
      reads this
    {
      && cpuSumPct == CpuSum(readings) && sampleCount == CpuCount(readings)
      && IsCpuPeak(cpuPeakPct, readings) && IsRssPeak(rssPeakBytes, readings) && IsVramPeak(vramPeakBytes, readings)
    }

    constructor ()
      ensures Describes([])
    {
      cpuSumPct, cpuPeakPct, rssPeakBytes, vramPeakBytes, sampleCount := 0.0, 0.0, 0, 0, 0;
    }

    method Record(cpu: real, rss: nat, vram: Option<nat>, ghost before: seq<Reading>)
      requires Describes(before)
      modifies this
      ensures Describes(before + [Reading(Some(cpu), rss, vram)])
    {
      hide IsCpuPeak, IsRssPeak, IsVramPeak;
      ghost var r := Reading(Some(cpu), rss, vram);
      PeaksGrow(before, r, cpuPeakPct, rssPeakBytes, vramPeakBytes);
      cpuSumPct := cpuSumPct + NotNegative(cpu);
      if cpu > cpuPeakPct {
        cpuPeakPct := cpu;
      }
      RaisePeaks(rss, vram);
      sampleCount := if sampleCount < MAX_COUNT then sampleCount + 1 else MAX_COUNT;
      Grown(before, r);
    }

    method RecordPeaks(rss: nat, vram: Option<nat>, ghost before: seq<Reading>)
      requires Describes(before)
      modifies this
      ensures Describes(before + [Reading(None, rss, vram)])
    {
      hide IsCpuPeak, IsRssPeak, IsVramPeak;
      ghost var r := Reading(None, rss, vram);
      PeaksGrow(before, r, cpuPeakPct, rssPeakBytes, vramPeakBytes);
      RaisePeaks(rss, vram);
      Grown(before, r);
    }

    /** Both kinds of reading raise the memory peaks alike. */
    method RaisePeaks(rss: nat, vram: Option<nat>)
      modifies this`rssPeakBytes, this`vramPeakBytes
      ensures rssPeakBytes == if rss > old(rssPeakBytes) then rss else old(rssPeakBytes)
      ensures vramPeakBytes
              == if vram.Some? && vram.value > old(vramPeakBytes) then vram.value else old(vramPeakBytes)
    {
      if rss > rssPeakBytes {
        rssPeakBytes := rss;
      }
      if vram.Some? && vram.value > vramPeakBytes {
        vramPeakBytes := vram.value;
      }
    }

    method AvgCpuPct(ghost readings: seq<Reading>) returns (avg: real)
      requires Describes(readings)
      ensures avg == AvgCpu(readings)
    {
      avg := if sampleCount == 0 then 0.0 else cpuSumPct / sampleCount as real;
    }
  }

  lemma PeaksGrow(before: seq<Reading>, r: Reading, cpu: real, rss: nat, vram: nat)
    ensures IsCpuPeak(cpu, before) ==>
              IsCpuPeak(if r.cpu.Some? && r.cpu.value > cpu then r.cpu.value else cpu, before + [r])
    ensures IsRssPeak(rss, before) ==> IsRssPeak(if r.rss > rss then r.rss else rss, before + [r])
    ensures IsVramPeak(vram, before) ==>
              IsVramPeak(if r.vram.Some? && r.vram.value > vram then r.vram.value else vram, before + [r])
  {
    CpuPeakGrows(before, r, cpu);
    RssPeakGrows(before, r, rss);
    VramPeakGrows(before, r, vram);
    hide IsCpuPeak, IsRssPeak, IsVramPeak;
  }

  lemma CpuPeakGrows(before: seq<Reading>, r: Reading, cpu: real)
    ensures IsCpuPeak(cpu, before) ==>
              IsCpuPeak(if r.cpu.Some? && r.cpu.value > cpu then r.cpu.value else cpu, before + [r])
  {
    assert forall q :: q in before + [r] <==> q in before || q == r;
  }

  lemma RssPeakGrows(before: seq<Reading>, r: Reading, rss: nat)
    ensures IsRssPeak(rss, before) ==> IsRssPeak(if r.rss > rss then r.rss else rss, before + [r])
  {
    assert forall q :: q in before + [r] <==> q in before || q == r;
  }

  lemma VramPeakGrows(before: seq<Reading>, r: Reading, vram: nat)
    ensures IsVramPeak(vram, before) ==>
              IsVramPeak(if r.vram.Some? && r.vram.value > vram then r.vram.value else vram, before + [r])
  {
    assert forall q :: q in before + [r] <==> q in before || q == r;
  }

  lemma Grown(before: seq<Reading>, r: Reading)
    ensures CpuSum(before + [r]) == CpuSum(before) + if r.cpu.Some? then NotNegative(r.cpu.value) else 0.0
    ensures CpuReadings(before + [r]) == CpuReadings(before) + if r.cpu.Some? then 1 else 0
    ensures forall q :: q in before + [r] <==> q in before || q == r
  {
    assert (before + [r])[..|before|] == before;
  }

  // ---------------------------------------------------------------- the average and the peak

  lemma {:induction false} SumBelowPeaks(readings: seq<Reading>, peak: real)
    requires peak >= 0.0 && forall r <- readings :: r.cpu.Some? ==> r.cpu.value <= peak
    ensures 0.0 <= CpuSum(readings) <= CpuReadings(readings) as real * peak
  {
    if readings != [] {
      var n := |readings| - 1;
      SumBelowPeaks(readings[..n], peak);
      var k := CpuReadings(readings[..n]) as real;
      assert (k + 1.0) * peak == k * peak + peak;
      assert readings[n] in readings;
    }
  }

  lemma {:induction false} SumAboveEach(readings: seq<Reading>, r: Reading)
    requires r in readings && r.cpu.Some?
    ensures CpuSum(readings) >= r.cpu.value && CpuReadings(readings) >= 1
  {
    var n := |readings| - 1;
    SumNotNegative(readings[..n]);
    if readings[n] != r {
      assert readings == readings[..n] + [readings[n]];
      SumAboveEach(readings[..n], r);
    }
  }

  lemma {:induction false} SumNotNegative(readings: seq<Reading>)
    ensures CpuSum(readings) >= 0.0
  {
    if readings != [] {
      SumNotNegative(readings[..|readings| - 1]);
    }
  }

  lemma DivideBoth(sum: real, n: real, peak: real)
    requires n > 0.0
    ensures sum <= n * peak <==> sum / n <= peak
    ensures sum == 0.0 <==> sum / n == 0.0
  {
    var q := sum / n;
    assert q * n == sum;
    if q <= peak {
      assert (peak - q) * n >= 0.0;
    } else {
      assert (q - peak) * n > 0.0;
    }
  }

  function Steady(n: nat): (readings: seq<Reading>)
    ensures |readings| == n && forall r <- readings :: r == Reading(Some(1.0), 0, None)
  {
    seq(n, i => Reading(Some(1.0), 0, None))
  }

  lemma {:induction false} SteadySum(n: nat)
    ensures CpuSum(Steady(n)) == n as real && CpuReadings(Steady(n)) == n
  {
    if n > 0 {
      SteadySum(n - 1);
      assert Steady(n)[..n - 1] == Steady(n - 1);
      assert Steady(n)[n - 1] in Steady(n);
    }
  }

  /** No recorded average exceeds its peak as long as the sample counter has not stopped, and only then:
      past that, the sum goes on growing over a count that does not. */
  lemma AverageWithinPeakIff(n: nat)
    ensures (forall readings, peak :: CpuReadings(readings) == n && IsCpuPeak(peak, readings) ==> AvgCpu(readings) <= peak)
            <==> n < 0x1_0000_0000
  {
    if n <= MAX_COUNT {
      forall readings, peak | CpuReadings(readings) == n && IsCpuPeak(peak, readings)
        ensures AvgCpu(readings) <= peak
      {
        AverageWithinPeak(readings, peak);
      }
    } else {
      SteadySum(n);
      var readings := Steady(n);
      assert readings[0].cpu == Some(1.0) && readings[0] in readings;
      assert IsCpuPeak(1.0, readings);
      DivideBoth(n as real, MAX_COUNT as real, 1.0);
      assert AvgCpu(readings) > 1.0;
    }
  }

  lemma AverageWithinPeak(readings: seq<Reading>, peak: real)
    requires IsCpuPeak(peak, readings) && CpuReadings(readings) <= MAX_COUNT
    ensures AvgCpu(readings) <= peak
  {
    SumBelowPeaks(readings, peak);
    hide CpuSum, CpuReadings;
    if CpuReadings(readings) > 0 {
      DivideBoth(CpuSum(readings), CpuReadings(readings) as real, peak);
    }
  }

  /** A recorded average is zero exactly when the recorded peak is. */
  lemma AverageZeroIffPeakZero(readings: seq<Reading>, peak: real)
    requires IsCpuPeak(peak, readings)
    ensures AvgCpu(readings) >= 0.0 && (AvgCpu(readings) == 0.0 <==> peak == 0.0)
  {
    SumBelowPeaks(readings, peak);
    if r :| r in readings && r.cpu == Some(peak) {
      SumAboveEach(readings, r);
    }
    hide CpuSum, CpuReadings;
    if CpuCount(readings) > 0 {
      DivideBoth(CpuSum(readings), CpuCount(readings) as real, 0.0);
      DivideBoth(-CpuSum(readings), CpuCount(readings) as real, 0.0);
    }
  }
}
