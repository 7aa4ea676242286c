/** The values every other module shares: optional values, half-open time
    windows, and the meter reading with its fourteen registers. A time is a
    number of nanoseconds since Go's zero time, so 0 is "no timestamp". */
module Readings {

  datatype Option<+T> = None | Some(value: T)

  /** One nanosecond is the unit of every time and duration. */
  const MICROSECOND: int := 1_000
  const SECOND: int := 1_000_000_000
  const MINUTE: int := 60 * SECOND
  const HOUR: int := 60 * MINUTE
  const DAY: int := 24 * HOUR

  /** A half-open time range. */
  datatype Window = Window(from: int, to: int)

  predicate In(t: int, w: Window) {
    w.from <= t < w.to
  }

  datatype Kind = LoadProfile | Daily | Billing | Reset | CurrentIndex

  const ALL_REGISTERS: nat := 14
  /** The cumulative import and export registers come first. */
  const CUMULATIVE_REGISTERS: nat := 12

  /** Every register may be absent. */
  type Registers = s: seq<Option<real>> | |s| == ALL_REGISTERS
    witness seq(ALL_REGISTERS, _ => None)

  /** `extra` stands for the columns no check reads: meter serial, applied
      multiplier, source provider and ingestion time. */
  datatype Reading = Reading(analyzer: nat, ts: int, kind: Kind, regs: Registers, extra: int)

  /** The primary key of the readings table. */
  datatype Key = Key(analyzer: nat, ts: int, kind: Kind)

  function KeyOf(r: Reading): Key {
    Key(r.analyzer, r.ts, r.kind)
  }

  /** Rows share a key exactly when all three of its columns agree. */
  lemma SameKeyIff(a: Reading, b: Reading)
    ensures KeyOf(a) == KeyOf(b) <==> a.analyzer == b.analyzer && a.ts == b.ts && a.kind == b.kind
  {
  }

  predicate DistinctKeys(rows: seq<Reading>) {
    forall i, j :: 0 <= i < j < |rows| ==> KeyOf(rows[i]) != KeyOf(rows[j])
  }

  datatype Reason =
    | UnparseableTs
    | Future
    | AllNull
    | Negative
    | SanityJump
    | ConflictingDuplicate
    | WrongAnalyzer
    | WrongKind

  /** `Sustained` marks a kept row; `Name(i)` names register i. */
  datatype RegisterLabel = NoRegister | Name(index: nat) | Sustained

  datatype Rejection = Rejection(ts: int, kind: Kind, reason: Reason, register: RegisterLabel)

  function Reject(r: Reading, reason: Reason, register: RegisterLabel): Rejection {
    Rejection(r.ts, r.kind, reason, register)
  }

  function Min(a: int, b: int): int {
    if a <= b then a else b
  }

  function Max(a: int, b: int): int {
    if a <= b then b else a
  }

  /** Selects the rows whose index is listed, in the order listed. */
  function Select<T>(rows: seq<T>, idx: seq<nat>): (s: seq<T>)
    requires forall k :: 0 <= k < |idx| ==> idx[k] < |rows|
    ensures |s| == |idx|
    ensures forall k :: 0 <= k < |idx| ==> s[k] == rows[idx[k]]
  {
    seq(|idx|, k requires 0 <= k < |idx| => rows[idx[k]])
  }

  /** Peels the last element off a concatenation. */
  lemma ConcatLast<T>(a: seq<T>, b: seq<T>)
    requires b != []
    ensures a + b == (a + b[..|b| - 1]) + [b[|b| - 1]]
  {
  }

  ghost predicate Increasing(idx: seq<nat>) {
    forall i, j :: 0 <= i < j < |idx| ==> idx[i] < idx[j]
  }
}
