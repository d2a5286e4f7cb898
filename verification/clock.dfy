/** Epochs and cluster identities shared by the schedule and the callback. */
module Clock {

  /** The largest value of Rust's `u64`. */
  const U64_MAX: int := 0xFFFF_FFFF_FFFF_FFFF

  /** An epoch is a `u64`: the schedule only compares epochs, it never adds to them. */
  type Epoch = e: int | 0 <= e <= U64_MAX

  /** The epoch of the first block. */
  const GENESIS_EPOCH: Epoch := 0

  /** `Epoch::MAX`, used as the "scheduled by a future update" placeholder. */
  const EPOCH_MAX: Epoch := U64_MAX

  /** The deployment a node belongs to; fixed for the life of the process. */
  datatype ClusterType = Development | Devnet | Testnet | MainnetBeta
}
