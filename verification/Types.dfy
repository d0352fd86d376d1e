/** Data of the payment channel: cheques, squashes, stages and redeemers.
    Amounts, indexes and millisecond times are natural numbers; the methods that
    add them state where the u64 of the source must not overflow. */
module Types {
  const U64: nat := 0x1_0000_0000_0000_0000
  const MAX_UNSQUASHED: nat := 10
  const MAX_EXCLUDE_LENGTH: nat := 10

  type Byte = x: int | 0 <= x < 256
  type Bytes = seq<Byte>

  datatype Result<+T, +E> = Ok(value: T) | Err(error: E)
  datatype Option<+T> = None | Some(value: T)

  datatype Lock = Lock(bytes: Bytes)
  datatype Secret = Secret(bytes: Bytes)

  /** The cryptography the source calls: the hash behind a lock, and signature
      verification of (key, message, signature). Nothing is assumed of either. */
  datatype Crypto = Crypto(hash: Secret -> Lock, verify: (Bytes, Bytes, Bytes) -> bool)

  datatype SquashBody = SquashBody(amount: nat, index: nat, exclude: seq<nat>)
  datatype Squash = Squash(body: SquashBody, signature: Bytes)

  datatype ChequeBody<+T> = ChequeBody(index: nat, amount: nat, timeout: nat, latch: T)
  datatype Signed<+T> = Signed(body: ChequeBody<T>, signature: Bytes)
  type Locked = Signed<Lock>
  type Unlocked = Signed<Secret>

  datatype Cheque = UnlockedCheque(unlocked: Unlocked) | LockedCheque(locked: Locked) {
    function Index(): nat {
      match this
      case UnlockedCheque(u) => u.body.index
      case LockedCheque(l) => l.body.index
    }

    function Amount(): nat {
      match this
      case UnlockedCheque(u) => u.body.amount
      case LockedCheque(l) => l.body.amount
    }

    function Timeout(): nat {
      match this
      case UnlockedCheque(u) => u.body.timeout
      case LockedCheque(l) => l.body.timeout
    }
  }

  datatype Used = Used(index: nat, amount: nat)
  datatype Pending = Pending(amount: nat, timeout: nat, lock: Lock)

  datatype Stage =
    | Opened(subbed: nat, useds: seq<Used>)
    | Closed(subbed: nat, useds: seq<Used>, elapseAt: nat)
    | Responded(pendingsAmount: nat, pendings: seq<Pending>)

  datatype Constants = Constants(tag: Bytes, addVkey: Bytes, subVkey: Bytes, closePeriod: nat)

  datatype Unpend = Continue | Expire | Unlock(secret: Secret)

  datatype Eol = EolEnd | EolElapse
  datatype Cont =
    | ContAdd
    | ContSub(squash: Squash, unlockeds: seq<Unlocked>)
    | ContClose
    | ContRespond(squash: Squash, cheques: seq<Cheque>)
    | ContUnlock(unpends: seq<Unpend>)
    | ContExpire(unpends: seq<Unpend>)
  datatype Step = StepCont(cont: Cont) | StepEol(eol: Eol)
  datatype Redeemer = Defer | Main(steps: seq<Step>) | Mutual

  function Min(a: nat, b: nat): nat {
    if a <= b then a else b
  }

  function Max(a: nat, b: nat): nat {
    if a <= b then b else a
  }

  function SaturatingSub(a: nat, b: nat): nat {
    if b <= a then a - b else 0
  }

  function Last<T>(s: seq<T>): T
    requires s != []
  {
    s[|s| - 1]
  }

  function Init<T>(s: seq<T>): seq<T>
    requires s != []
  {
    s[..|s| - 1]
  }
}
