/**
 * `verify_roll` and the exit status of `main`: ask the oracle whether the
 * signed roll is authentic and, only if it is, record its serial, analyse it
 * and report one of four verdicts.
 */
module Verification {

  import opened Wrappers
  import opened Rolls
  import opened SerialAnalysis
  import opened Ledger
  import opened SerialStore

  /**
   * The oracle's reply to `verifySignature`: an error message (the HTTP and
   * connection errors caught at `scripts/dm-verify.py:69-72`, or an `error`
   * member of the reply), or a `result` whose `authenticity` may be absent.
   */
  datatype OracleResponse =
    | RpcError(error: string)
    | RpcResult(authenticity: Option<bool>)

  /** The oracle vouched for the roll. */
  predicate Authentic(response: OracleResponse)
    ensures Authentic(response) ==> response.RpcResult? && response.authenticity == Some(true)
  {
    response.RpcResult? && response.authenticity == Some(true)
  }

  /** Why a roll was not verified: the oracle could not answer, or said the signature does not match. */
  datatype Failure = OracleError(message: string) | SignatureMismatch

  /** The verdict message of a verified roll. */
  datatype Verdict =
    | Warning(reason: Reason)
    | FirstRoll
    | SequenceOk
    | WithinTolerance(gap: int)

  /** What `verify_roll` returns. */
  datatype VerifyResult =
    | Unverified(failure: Failure, player: string, roll: seq<int>, serial: int)
    | Verified(
        player: string,
        roll: seq<int>,
        total: int,
        serial: int,
        hashedApiKey: string,
        completionTime: string,
        userData: map<string, string>,
        previousSerial: Option<int>,
        gap: int,
        suspicion: Option<Reason>,
        recentSerials: seq<int>,
        message: Verdict)

  /** The message for an analysis: the warning, else by the gap 0, 1 or other. */
  function ChooseMessage(a: Analysis): (v: Verdict)
    ensures v.Warning? <==> a.Suspicious()
    ensures v.Warning? ==> v.reason == a.suspicion.value
    ensures v.WithinTolerance? ==> v.gap == a.gap
    ensures !a.Suspicious() ==> (v == FirstRoll <==> a.gap == 0) && (v == SequenceOk <==> a.gap == 1)
    ensures !a.Suspicious() && a.gap != 0 && a.gap != 1 ==> v == WithinTolerance(a.gap)
  {
    if a.Suspicious() then Warning(a.suspicion.value)
    else if a.gap == 0 then FirstRoll
    else if a.gap == 1 then SequenceOk
    else WithinTolerance(a.gap)
  }

  /**
   * `verify_roll`. On an oracle error or a missing or false authenticity the
   * tracker file is neither read nor written. Otherwise the file's tracker is
   * loaded, the serial recorded under the hash prefix, the tracker saved and
   * the analysis reported.
   */
  method VerifyRoll(store: Store, roll: RollRecord, player: string, response: OracleResponse) returns (r: VerifyResult)
    modifies store
    ensures !Authentic(response) ==> store.file == old(store.file)
    ensures response.RpcError? ==>
      r == Unverified(OracleError(response.error), player, roll.data, roll.serialNumber)
    ensures response.RpcResult? && !Authentic(response) ==>
      r == Unverified(SignatureMismatch, player, roll.data, roll.serialNumber)
    ensures Authentic(response) ==>
      var key := IdentityKey(roll.hashedApiKey);
      var before := Loaded(old(store.file));
      var a := Analyze(SerialsOf(before, key), roll.serialNumber, roll.data);
      && store.file == Saved(Recorded(before, key, player, roll.serialNumber))
      && r == Verified(player, roll.data, Total(roll.data), roll.serialNumber, key + "...",
                       roll.completionTime, roll.userData, a.previousSerial, a.gap, a.suspicion,
                       a.serialHistory, ChooseMessage(a))
  {
    if response.RpcError? {
      return Unverified(OracleError(response.error), player, roll.data, roll.serialNumber);
    }
    if response.authenticity != Some(true) {
      return Unverified(SignatureMismatch, player, roll.data, roll.serialNumber);
    }
    var tracker := store.Load();
    ghost var before := tracker.Contents();
    var a := tracker.AnalyzeSerial(player, roll.hashedApiKey, roll.serialNumber, roll.data);
    var after: Table := tracker.Contents();
    store.Save(after);
    r := Verified(player, roll.data, Total(roll.data), roll.serialNumber,
                  IdentityKey(roll.hashedApiKey) + "...", roll.completionTime, roll.userData,
                  a.previousSerial, a.gap, a.suspicion, a.serialHistory, ChooseMessage(a));
  }

  /** The exit status of `main`: 1 when not verified, 2 when suspicious, 0 when clean. */
  function ExitCode(r: VerifyResult): (code: int)
    ensures code == 1 <==> r.Unverified?
    ensures code == 2 <==> r.Verified? && r.suspicion.Some?
    ensures code == 0 <==> r.Verified? && r.suspicion.None?
  {
    if r.Unverified? then 1
    else if r.suspicion.Some? then 2
    else 0
  }

  /**
   * What each clean verdict means about the serials. "First roll" is shown
   * whenever the gap is 0: no history, a stored serial of 0, or the same
   * serial again. "Sequence OK" is exactly a serial one past a nonzero
   * previous one, and "within tolerance" is a gap of 2 to 5 with no high roll.
   */
  lemma VerdictMeaning(stored: seq<int>, serial: int, roll: seq<int>)
    ensures var previous := LastSerial(stored);
      var v := ChooseMessage(Analyze(stored, serial, roll));
      && (v == FirstRoll <==> previous == None || previous == Some(0) || previous == Some(serial))
      && (v == SequenceOk <==> previous.Some? && previous.value != 0 && serial == previous.value + 1)
      && (v.WithinTolerance? ==> HighRollGap < v.gap <= LargeGapLimit && !IsHighRoll(roll))
  {
  }

  /**
   * The exit status tells apart a roll that could not be or was not verified,
   * one verified with a warning, and one verified clean.
   */
  lemma ExitCodeFollowsVerdict(r: VerifyResult, stored: seq<int>, roll: RollRecord, player: string)
    requires var a := Analyze(stored, roll.serialNumber, roll.data);
      r == Verified(player, roll.data, Total(roll.data), roll.serialNumber,
                    IdentityKey(roll.hashedApiKey) + "...", roll.completionTime, roll.userData,
                    a.previousSerial, a.gap, a.suspicion, a.serialHistory, ChooseMessage(a))
    ensures ExitCode(r) == 2 <==> r.message.Warning?
    ensures ExitCode(r) == 0 <==> !r.message.Warning?
  {
  }

  // Four rolls from one account, as an account would post them: a first roll,
  // the next serial, a high roll four serials later, and a serial that went
  // backwards. Each is analysed against the serials the ledger holds for the
  // account after the earlier rolls were recorded from an empty tracker.

  lemma ScenarioFirstRoll(key: string)
    ensures var a := Analyze(SerialsOf(EmptyTable, key), 1000, [15]);
      && a.previousSerial == None
      && a.gap == 0
      && ChooseMessage(a) == FirstRoll
  {
  }

  lemma ScenarioNextSerial(key: string, name: string)
    ensures var a := Analyze(SerialsOf(RecordedAll(EmptyTable, key, name, [1000]), key), 1001, [20]);
      && a.previousSerial == Some(1000)
      && a.gap == 1
      && ChooseMessage(a) == SequenceOk
  {
    FreshHistory(key, name, [1000]);
  }

  lemma ScenarioHighRollAfterGap(key: string, name: string)
    ensures var a := Analyze(SerialsOf(RecordedAll(EmptyTable, key, name, [1000, 1001]), key), 1005, [20]);
      && a.gap == 4
      && ChooseMessage(a) == Warning(GapBeforeHighRoll(4, [20]))
  {
    FreshHistory(key, name, [1000, 1001]);
    assert IsHighRoll([20]);
  }

  lemma ScenarioBackwards(key: string, name: string)
    ensures var a := Analyze(SerialsOf(RecordedAll(EmptyTable, key, name, [1000, 1001, 1005]), key), 1003, [3]);
      && a.gap == -2
      && ChooseMessage(a) == Warning(WentBackwards(1005, 1003))
      && a.serialHistory == [1000, 1001, 1005, 1003]
  {
    FreshHistory(key, name, [1000, 1001, 1005]);
  }
}
