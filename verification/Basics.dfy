/** Values shared by every part of the durable execution model. */
module Basics {

  datatype Option<+T> = None | Some(value: T)

  datatype Result<+T> = Ok(value: T) | Err(error: Error)

  /** The error sentinels of the runtime that the modelled code returns. */
  datatype Error =
    | ErrActivityConflict | ErrActivityUnknown | ErrActivityBusy | ErrActivityRetryPending
    | ErrActivityFailed | ErrActivityAttemptsExhausted | ErrActivityScheduleInvalid
    | ErrExecutionCorrupt | ErrExecutionCapability | ErrExecutionIncompatible
    | ErrConcurrencyConflict | ErrLeaseLost | ErrLeaseHeld | ErrThreadLeaseBusy
    | ErrThreadNotFound | ErrInvalidSnapshot | ErrInvalidLease
    | ErrExecutionCheckpointUnavailable | ErrExecutionTransferred | ErrExecutionRolloverConflict
    | ErrExecutionLifecycleUnsafe | ErrExecutionLifecycleLimit
    | ErrWaitInvalid | ErrWaitConflict | ErrWaitStale | ErrWaitUnresolved
    | ErrWaitNotArmed | ErrWaitUnknown | ErrWaitCanceled | ErrWaitExpired
    | ErrChildInvalid | ErrChildDuplicate | ErrChildRevision | ErrChildBusy
    | ErrChildrenUnresolved | ErrChildMergeConflict | ErrBudgetExceeded
    | ErrMigrationMissing | ErrMigrationInvalid | ErrExecutionImportInvalid
    | ErrReplyLost  // any transport error of a store whose commit took effect

  /** Opaque host payloads. */
  newtype byte = x: int | 0 <= x < 256
  type Bytes = seq<byte>

  /** Nanoseconds after the zero time; 0 is Go's zero time. */
  type Time = int

  /** 10000-01-01T00:00:00Z, the first instant whose year has five digits. */
  const END_OF_TIME: Time := 3_652_059 * 86_400 * 1_000_000_000

  const MAX_INT64 := 0x7FFF_FFFF_FFFF_FFFF
  const MAX_UINT64 := 0xFFFF_FFFF_FFFF_FFFF

  type int64 = x: int | -MAX_INT64 - 1 <= x <= MAX_INT64
  type uint64 = x: int | 0 <= x <= MAX_UINT64

  /** Unsigned increment with the wrap-around of the source's integer type. */
  function Increment(x: uint64): (r: uint64)
    ensures x < MAX_UINT64 ==> r == x + 1
  {
    (x + 1) % (MAX_UINT64 + 1)
  }

  /** A usable instant: not the zero time, and in a four-digit year. */
  predicate TimeValid(t: Time) {
    0 < t < END_OF_TIME
  }

  /** SHA-256 identities as injective constructors over the hashed tuples; any
      other text, including the empty one, is OtherText. */
  datatype Digest =
    | ActivityAddress(executionID: string, node: string, activation: uint64, key: string)
    | ChildAddress(parentID: string, node: string, activation: uint64, group: string, child: string)
    | WaitAddress(executionID: string, node: string, activation: uint64, waitID: string)
    | WaitGeneration(identity: Digest, revision: uint64)
    | PayloadHash(payload: Bytes)
    | OtherText(text: string)

  /** True of the canonical 32-byte hexadecimal digests. */
  predicate CanonicalDigest(d: Digest) {
    !d.OtherText?
  }
}
