// Types shared by every module of the project.
module Domain {

  /** The cache's template parameters TKey and TValue. */
  type Key(==, 0, !new)
  type Value(==, 0, !new)

  datatype Option<+T> = None | Some(value: T)

  /** At most this many entries leave in one eviction pass of the batch type. */
  const MAX_EVICT_BATCH: nat := 64

  /** The constructor arguments of one cache; `batch` is the batch eviction type. */
  datatype Config = Config(maxSize: nat, timeout: nat, batch: bool)

  /** The test both `find` and the evictor use: the difference is compared, and timeout 0 is the caller's business. */
  predicate Expired(cfg: Config, now: int, stamp: int) {
    now - stamp > cfg.timeout
  }
}
