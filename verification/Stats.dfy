/** Allocation statistics of one allocator, as a value. */
module StatsModel {

  /** Lifetime totals, the peak, and the bytes outstanding.  `live` is an integer so that an
      underflow of the source's unsigned counter would show as a negative number. */
  datatype Stats = Stats(requestedBytes: nat, allocatedBytes: nat, peak: nat, allocs: nat, frees: nat, live: int)

  const NO_STATS := Stats(0, 0, 0, 0, 0, 0)

  function RecordAlloc(s: Stats, req: nat, got: nat): Stats {
    Stats(s.requestedBytes + req, s.allocatedBytes + got,
          if s.live + got > s.peak then s.live + got else s.peak,
          s.allocs + 1, s.frees, s.live + got)
  }

  function RecordFree(s: Stats, req: nat, got: nat): Stats {
    s.(requestedBytes := s.requestedBytes + req, allocatedBytes := s.allocatedBytes + got,
       live := s.live - got, frees := s.frees + 1)
  }

  /** Less than half of all bytes handed out was lost to rounding and padding. */
  predicate Tight(s: Stats) {
    && s.requestedBytes <= s.allocatedBytes
    && (s.allocatedBytes > 0 ==> s.allocatedBytes < 2 * s.requestedBytes)
  }
}
