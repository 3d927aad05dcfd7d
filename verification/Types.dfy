/**
 The values every broker stores and returns.

 Identifiers (job ids, receipts, lanes, unique keys, schedule ids) are only ever
 compared for equality by the broker, so they are plain integers here. Clock
 readings and durations are whole nanoseconds.
 */
module Types {

  datatype Option<+T> = None | Some(value: T)

  /** A call's answer, or a failure to make sense of the stored one. */
  datatype Result<+T> = Ok(value: T) | Err

  type JobId = int
  type Receipt = int
  type Lane = int
  type Key = int
  type ScheduleId = int

  const U32_MAX: nat := 0xFFFF_FFFF
  const I64_MAX: nat := 0x7FFF_FFFF_FFFF_FFFF
  const U64_MAX: nat := 0xFFFF_FFFF_FFFF_FFFF

  /** The largest `std::time::Duration`, in nanoseconds. */
  const DURATION_MAX: nat := U64_MAX * 1_000_000_000 + 999_999_999

  /** How many over-delivered jobs one `reserve` may bury before it yields. */
  const MAX_DEAD_LETTER_SWEEP: nat := 128

  /** A payload is carried inline or as a claim-check reference to an external blob. */
  datatype Payload = Inline(data: int) | Reference(blob: nat)

  datatype Envelope = Envelope(
    id: JobId, lane: Lane, kind: int, payload: Payload,
    attempts: nat, maxAttempts: nat, priority: nat)

  datatype NewJob = NewJob(
    id: JobId, lane: Lane, kind: int, payload: Payload,
    maxAttempts: nat, priority: nat, delay: nat, key: Option<Key>)

  /** Why a job was dead-lettered: a caller's message, or the delivery bound. */
  datatype Reason = Given(text: int) | OverDelivered(max: nat)

  datatype Job = Job(
    env: Envelope, availableAt: nat,
    leasedUntil: Option<nat>, receipt: Option<Receipt>,
    key: Option<Key>, deliveries: nat)

  datatype DeadRec = DeadRec(env: Envelope, reason: Reason, key: Option<Key>, deadAt: nat)

  datatype Letter = Letter(env: Envelope, reason: Reason)

  datatype Retention = Retention(maxAge: Option<nat>, maxCount: Option<nat>)

  /** What an operator sets on any broker. */
  datatype Settings = Settings(lease: nat, retention: Retention, maxDeliveries: Option<nat>)

  /** What a broker acts on; a `wide` delivery counter is a 64-bit column rather than a saturating `u32`. */
  datatype Config = Config(lease: nat, retention: Retention, maxDeliveries: Option<nat>, wide: bool)

  datatype Reservation = Reservation(env: Envelope, receipt: Receipt, lease: nat)

  datatype JobState = Live | DeadLettered | CompletedOrUnknown

  /** `u32::saturating_add(1)`. */
  function Bump(n: nat): nat {
    if n >= U32_MAX then U32_MAX else n + 1
  }

  /** The delivery count after one more delivery. */
  function Next(cfg: Config, n: nat): nat {
    if cfg.wide then n + 1 else Bump(n)
  }

  /** A count read back at `u32` width. */
  function Capped(n: nat): nat {
    if n > U32_MAX then U32_MAX else n
  }

  /** `Duration::saturating_add`. */
  function AddTime(a: nat, b: nat): nat {
    if a + b > DURATION_MAX then DURATION_MAX else a + b
  }

  /** `spi::nanos`: a duration as an `i64` count of nanoseconds, saturating. */
  function Nanos(d: nat): nat {
    if d > I64_MAX then I64_MAX else d
  }

  function InMemoryConfig(settings: Settings): Config {
    Config(settings.lease, settings.retention, settings.maxDeliveries, false)
  }

  /** `keep_count`: the count bound as an `i64`, saturating. */
  function KeepCount(ret: Retention): Retention {
    if ret.maxCount.Some? then ret.(maxCount := Some(Nanos(ret.maxCount.value))) else ret
  }

  function SqlConfig(settings: Settings): Config {
    Config(settings.lease, KeepCount(settings.retention), settings.maxDeliveries, true)
  }

  /** Zero stands for "no bound" in the scripts' arguments. */
  function ZeroIsNone(bound: Option<nat>): Option<nat> {
    if bound == Some(0) then None else bound
  }

  function RedisConfig(settings: Settings): Config {
    var sql := SqlConfig(settings);
    sql.(retention := sql.retention.(maxCount := ZeroIsNone(sql.retention.maxCount)),
         maxDeliveries := ZeroIsNone(sql.maxDeliveries))
  }

  function FreshEnvelope(job: NewJob): Envelope {
    Envelope(job.id, job.lane, job.kind, job.payload, 0, job.maxAttempts, job.priority)
  }
}
