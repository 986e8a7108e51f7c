/** What a plan buys a site (internal/site/resources.go). */
module SiteResources {
  import C = Capacity

  datatype Resources = Resources(workers: int, memoryLimitMB: int)

  const MIN_WORKERS := 1
  const MAX_WORKERS := 50
  const MIN_MEMORY_LIMIT_MB := 64
  const MAX_MEMORY_LIMIT_MB := 2048

  const DEFAULTS: Resources := Resources(5, 128)

  function WithDefaults(r: Resources): Resources {
    Resources(if r.workers == 0 then DEFAULTS.workers else r.workers,
              if r.memoryLimitMB == 0 then DEFAULTS.memoryLimitMB else r.memoryLimitMB)
  }

  predicate Valid(r: Resources) {
    && MIN_WORKERS <= r.workers <= MAX_WORKERS
    && MIN_MEMORY_LIMIT_MB <= r.memoryLimitMB <= MAX_MEMORY_LIMIT_MB
  }

  /** The host reservation a site asks for; the products are taken in int64. */
  function Reservation(r: Resources): C.Resources {
    var d := WithDefaults(r);
    C.Wrapped(C.Resources(d.workers * 50, d.workers * d.memoryLimitMB * 1024 * 1024, d.workers, d.workers + 8))
  }

  /** The largest reservation one site can hold. */
  const MOST: C.Resources := C.Resources(2500, 107_374_182_400, 50, 58)

  /** Defaults fill what was left at zero and touch nothing else; they are a tier that is sold, five workers of
      128 MB. */
  lemma DefaultsFillGapsOnly(r: Resources)
    ensures WithDefaults(Resources(0, 0)) == Resources(5, 128) && Valid(Resources(5, 128))
    ensures WithDefaults(WithDefaults(r)) == WithDefaults(r)
    ensures r.workers != 0 && r.memoryLimitMB != 0 ==> WithDefaults(r) == r
    ensures WithDefaults(Resources(r.workers, 0)).workers == WithDefaults(r).workers
    ensures WithDefaults(Resources(0, r.memoryLimitMB)).memoryLimitMB == WithDefaults(r).memoryLimitMB
  {
  }

  /** A validated request never wraps and never exceeds one maximal site: each worker takes 50 thousandths of a CPU, its
      memory limit and one process, and the site eight processes more. */
  lemma ValidReservationIsBounded(r: Resources)
    requires Valid(WithDefaults(r))
    ensures C.Between(C.ZERO, Reservation(r), MOST)
    ensures var d := WithDefaults(r);
            && Reservation(r).cpuMilli == 50 * d.workers
            && Reservation(r).memoryBytes == d.workers * d.memoryLimitMB * 1024 * 1024
            && Reservation(r).phpWorkers == d.workers
            && Reservation(r).pids == d.workers + 8
  {
    var d := WithDefaults(r);
    var exact := C.Resources(d.workers * 50, d.workers * d.memoryLimitMB * 1024 * 1024, d.workers, d.workers + 8);
    ProductBounds(d.workers, d.memoryLimitMB);
    assert C.Between(C.ZERO, exact, MOST);
    C.SmallIsExact(exact, MOST);
  }

  lemma ProductBounds(workers: int, memory: int)
    requires 1 <= workers <= 50 && 64 <= memory <= 2048
    ensures 64 <= workers * memory <= 102_400
  {
    NotNegative(workers - 1, memory);
    NotNegative(50 - workers, memory);
    Distributes(workers, -1, memory);
    Distributes(50, -workers, memory);
  }

  lemma NotNegative(a: int, b: int)
    requires 0 <= a && 0 <= b
    ensures 0 <= a * b
  {
  }

  lemma Distributes(a: int, b: int, c: int)
    ensures (a + b) * c == a * c + b * c
  {
  }
}
