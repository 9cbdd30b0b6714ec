/** Failure values shared by every module, and two integer helpers that spell out Python's operators. */
module Prelude {

  datatype Option<+T> = None | Some(value: T)

  /** What the source raises as ValueError, in the order in which the checks are made. */
  datatype Error =
    | NoInputs | NoOutputs | TooManyInputs | TooManyOutputs | TxTooLarge | UnexpectedCoinbase | BadTxId
    | DuplicateInput | MissingInput | NoCreationHeight | ImmatureCoinbase | WrongOwner | BadSignature
    | NonPositiveOutput | BadAddress | NegativeTotals | OutputsExceedInputs | NegativeFees
    | MempoolFull
    | WrongHeight | WrongPrevHash | TimestampTooOld | TimestampTooNew | BlockTooLarge | BadVersion | WrongDifficulty
    | NoTransactions | TooManyTransactions | BadMerkleRoot | BadStoredHash | NoWork
    | NoCoinbase | BadCoinbaseId | BadCoinbaseOutputs | NegativeCoinbase | BadCoinbaseAddress
    | DuplicateTx | BadReward
    | EmptyChain | GenesisMismatch | NotHeavier | BadTarget | BadLegacyDifficulty
    | EmptyText | BadCharacter
    | RequestFailed | NoBlocks | WrongDownloadHeight

  datatype Result<+T> = Ok(value: T) | Err(error: Error) {
    predicate IsFailure() {
      Err?
    }

    function PropagateFailure<U>(): Result<U>
      requires Err?
    {
      Err(error)
    }

    function Extract(): T
      requires Ok?
    {
      value
    }
  }

  function Max(a: int, b: int): int {
    if a < b then b else a
  }

  function Min(a: int, b: int): int {
    if a < b then a else b
  }

  /** `int(x / 2)` in Python: truncation toward zero. */
  function TruncHalf(x: int): int {
    if x >= 0 then x / 2 else -((-x) / 2)
  }

  /** `part` is `whole` at the rising positions `at`: a subsequence in order. */
  ghost predicate Picks<T>(part: seq<T>, whole: seq<T>, at: seq<nat>) {
    && |at| == |part|
    && (forall i, j :: 0 <= i < j < |at| ==> at[i] < at[j])
    && forall i :: 0 <= i < |at| ==> at[i] < |whole| && whole[at[i]] == part[i]
  }

  lemma {:induction false} PicksNext<T>(part: seq<T>, whole: seq<T>, at: seq<nat>, x: T)
    requires Picks(part, whole, at)
    ensures Picks(part, whole + [x], at) && Picks(part + [x], whole + [x], at + [|whole|])
  {
  }

  lemma {:induction false} PickedAreIn<T>(part: seq<T>, whole: seq<T>, at: seq<nat>)
    requires Picks(part, whole, at)
    ensures forall j :: j in at ==> j < |whole| && whole[j] in part
    ensures forall x :: x in part ==> x in whole
  {
    forall j | j in at ensures j < |whole| && whole[j] in part {
      var i :| 0 <= i < |at| && at[i] == j;
      assert part[i] == whole[j];
    }
  }

  lemma {:induction false} MulMonotone(a: int, b: int, k: int)
    requires a <= b && k >= 0
    ensures a * k <= b * k
  {
  }

  lemma {:induction false} LessByProduct(a: int, b: int, k: int)
    requires k > 0 && a * k < b * k
    ensures a < b
  {
  }

  lemma {:induction false} DivisionBounds(n: nat, d: nat)
    requires d > 0
    ensures n / d * d <= n < (n / d + 1) * d
  {
  }

  lemma {:induction false} DivisionUnique(n: nat, d: nat, q: nat)
    requires d > 0 && q * d <= n < (q + 1) * d
    ensures n / d == q
  {
    DivisionBounds(n, d);
    LessByProduct(q, n / d + 1, d);
    LessByProduct(n / d, q + 1, d);
  }
}
