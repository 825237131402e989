/**
 * The signed roll record the oracle returns, and the quantities the verifier
 * derives from it: the account identity key, the roll total and whether the
 * roll counts as "high".
 */
module Rolls {

  /** Number of leading characters of `hashedApiKey` that identify an account. */
  const KeyLength: nat := 16

  /** A die value at or above this makes the roll a high roll. */
  const HighRoll: int := 18

  /**
   * The oracle's `random` object, as far as the verifier reads it. A missing
   * `data` field is the empty roll and a missing `hashedApiKey` the empty string.
   * `userData` and `completionTime` are passed through untouched.
   */
  datatype RollRecord = RollRecord(
    data: seq<int>,
    serialNumber: int,
    hashedApiKey: string,
    userData: map<string, string>,
    completionTime: string)

  /** The ledger key of an account: the first `KeyLength` characters of its hash. */
  function IdentityKey(hashedApiKey: string): (key: string)
    ensures |key| == if |hashedApiKey| < KeyLength then |hashedApiKey| else KeyLength
    ensures key <= hashedApiKey
  {
    if |hashedApiKey| <= KeyLength then hashedApiKey else hashedApiKey[..KeyLength]
  }

  /** True when some die value reaches `HighRoll`; the empty roll is never high. */
  function IsHighRoll(roll: seq<int>): (high: bool)
    ensures high <==> exists i :: 0 <= i < |roll| && roll[i] >= HighRoll
  {
    if roll == [] then false
    else if roll[0] >= HighRoll then true
    else
      var rest := IsHighRoll(roll[1..]);
      assert forall i :: 1 <= i < |roll| ==> roll[i] == roll[1..][i - 1];
      rest
  }

  /** The sum of the die values, 0 for the empty roll. */
  function Total(roll: seq<int>): (sum: int)
    ensures roll == [] ==> sum == 0
    ensures |roll| == 1 ==> sum == roll[0]
    ensures (forall i :: 0 <= i < |roll| ==> roll[i] >= 1) ==> sum >= |roll|
    ensures (forall i :: 0 <= i < |roll| ==> roll[i] >= 0) ==> sum >= 0
  {
    if roll == [] then 0
    else
      assert forall i :: 0 <= i < |roll| - 1 ==> roll[1..][i] == roll[i + 1];
      roll[0] + Total(roll[1..])
  }

  /** Summing a concatenation sums the parts: the total does not depend on how the roll is split. */
  lemma {:induction false} TotalAppend(a: seq<int>, b: seq<int>)
    ensures Total(a + b) == Total(a) + Total(b)
  {
    if a == [] {
      assert a + b == b;
    } else {
      assert (a + b)[1..] == a[1..] + b;
      TotalAppend(a[1..], b);
    }
  }
}
