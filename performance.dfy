/** The threshold rules of `PerformanceOptimizer` in
    backend/app/utils/performance.py. The machine readings (available
    memory in bytes, the CPU count) are parameters. */
module Performance {
  import opened PyStrings

  /** `optimize_faiss_index`: the FAISS index type for an expected number
      of vectors; the dimension plays no part. */
  function OptimizeFaissIndex(dimension: int, expectedVectors: int): (r: string)
    ensures r == "IndexFlatIP" <==> expectedVectors < 1000
    ensures r == "IndexIVFFlat" <==> 1000 <= expectedVectors < 10000
    ensures r == "IndexIVFPQ" <==> expectedVectors >= 10000
  {
    if expectedVectors < 1000 then "IndexFlatIP"
    else if expectedVectors < 10000 then "IndexIVFFlat"
    else "IndexIVFPQ"
  }

  /** The batch size for a memory reading, in the unit the thresholds
      6 and 4 are meant in. */
  function BatchSizeFor(memory: real): (r: nat)
    ensures r == 32 <==> memory > 6.0
    ensures r == 16 <==> 4.0 < memory <= 6.0
    ensures r == 8 <==> memory <= 4.0
  {
    if memory > 6.0 then 32 else if memory > 4.0 then 16 else 8
  }

  /** More memory never gives a smaller batch. */
  lemma {:induction false} BatchSizeMonotone(less: real, more: real)
    requires less <= more
    ensures BatchSizeFor(less) <= BatchSizeFor(more)
  {
  }

  /** `get_optimal_batch_size` as written: the available bytes are divided
      by `1024*3`, that is 3072, not by `1024**3`. */
  function BatchSizeAsWritten(availableBytes: nat): (r: nat)
    ensures r == 32 <==> availableBytes > 6 * 3072
    ensures r == 16 <==> 4 * 3072 < availableBytes <= 6 * 3072
    ensures r == 8 <==> availableBytes <= 4 * 3072
  {
    BatchSizeFor(availableBytes as real / 3072.0)
  }

  /** One gibibyte. */
  const GiB := 1024 * 1024 * 1024

  /** `get_optimal_batch_size` with the available memory in gibibytes, as
      its comment and thresholds (for an 8 GB machine) intend. */
  function BatchSize(availableBytes: nat): (r: nat)
    ensures r == 32 <==> availableBytes > 6 * GiB
    ensures r == 16 <==> 4 * GiB < availableBytes <= 6 * GiB
    ensures r == 8 <==> availableBytes <= 4 * GiB
  {
    BatchSizeFor(availableBytes as real / GiB as real)
  }

  /** As written, every machine with more than 18 KiB free gets the
      largest batch: one gibibyte free already gives 32, where the intended
      rule gives 8. */
  lemma {:induction false} BatchSizeUnitMismatch()
    ensures BatchSizeAsWritten(GiB) == 32
    ensures BatchSize(GiB) == 8
    ensures forall bytes: nat :: bytes > 18432 ==> BatchSizeAsWritten(bytes) == 32
  {
  }

  /** The corrected rule gives 8, 16 or 32 and never less for more memory. */
  lemma {:induction false} BatchSizeBounds(less: nat, more: nat)
    requires less <= more
    ensures BatchSize(less) in {8, 16, 32}
    ensures BatchSize(less) <= BatchSize(more)
  {
    BatchSizeMonotone(less as real / GiB as real, more as real / GiB as real);
  }

  /** `psutil.cpu_count()` may be unknown; comparing that with 4 raises a
      `TypeError`. */
  datatype CpuCountError = CpuCountUnknown

  /** `should_use_cpu_optimization`. */
  function ShouldUseCpuOptimization(cpuCount: Option<int>): (r: Result<bool, CpuCountError>)
    ensures r.Err? <==> cpuCount.None?
    ensures r.Ok? ==> (r.value <==> cpuCount.value >= 4)
  {
    match cpuCount
    case None => Err(CpuCountUnknown)
    case Some(n) => Ok(n >= 4)
  }
}
