# dm-verify: serial tracking and roll verification

This project models the verification side of the dice-roll tool in
`scripts/dm-verify.py`. A dungeon master passes it a signed roll record from
random.org. The tool asks the random.org oracle whether the signature is
authentic. Only for an authentic roll does it load the serial tracker, record
the roll's serial under the account's identity key, and save the tracker.
The identity key is the first 16 characters of `hashedApiKey`. The tool then
reports one of four verdicts, classifying the roll against the serial the
account used last. The tool can also look up an identity's history by player
name and clear the tracker.

Modules:

- `Wrappers`: `Option`.
- `Rolls`: the roll record, the identity key, the high-roll test and the total.
- `SerialAnalysis`: the gap and the three-rule, first-match-wins classification.
- `Ledger`: the tracker as a value.
  - `Snapshot` holds the `players` keys in insertion order and the map from key to name and serials.
  - `Table` is the valid snapshot.
  - `Recorded` is the update `analyze_serial` makes.
  - `Analyze` is what it returns.
  - The lemmas say how repeated updates behave.
- `SerialStore`: the in-memory tracker and the tracker file.
  - `Tracker` is a class whose methods update `keys`/`players` in place, as `analyze_serial` does, and whose `FindPlayer` is the loop of `show_history`.
  - `Store` is the tracker file, with load and save of the whole tracker.
  - `Clear` and `ShowHistory` are the `--clear` and `--history` actions.
- `Verification`:
  - the oracle reply as a value;
  - `verify_roll`, the verdict message and the exit status of `main`;
  - four rolls of one account worked through.

Behaviour of the source that the model keeps on purpose:

- `gap` is computed with `if previous_serial`, so a stored serial of 0 behaves like "no history": the gap is 0 and the roll is never suspicious.
- The stored name is written only when the identity key is first seen; later calls under another name update the same entry and keep the first name.
- The "first roll" message is chosen whenever the gap is 0, which includes a repeated serial.
- The reported history is the last 10 of the list *before* trimming, because the local alias keeps pointing at it. `Ledger.RecentSerialsAreStoredTail` shows it equals the last 10 of the stored, trimmed list.
- A missing tracker file, or one that fails to parse as JSON or raises an I/O error while read, loads as the empty tracker.

## Model

| member | source | states |
|---|---|---|
| Rolls.IdentityKey | scripts/dm-verify.py:99 | the key is the first `min(16, n)` characters of the hash, a prefix of it |
| Rolls.IsHighRoll | scripts/dm-verify.py:126 | a roll is high exactly when some die value is at least 18; the empty roll is not high |
| Rolls.Total | scripts/dm-verify.py:190 | the total of the empty roll is 0 and of a one-value roll that value (with TotalAppend this fixes the sum); the total of a roll with values ≥ 1 is at least its length, and of one with values ≥ 0 is non-negative |
| Rolls.TotalAppend | scripts/dm-verify.py:190 | the total of a concatenation is the sum of the totals |
| SerialAnalysis.Gap | scripts/dm-verify.py:112 | a nonzero gap needs a truthy previous serial, and then the serial is previous + gap; a missing or zero previous serial gives 0 |
| SerialAnalysis.Classify | scripts/dm-verify.py:121-136 | suspicious exactly when gap < 0, gap > 5, or gap > 1 before a high roll, and only with a truthy previous serial; the first rule that applies gives the reason: gap before a high roll with the gap and roll, else a large gap with the gap, else going backwards with the previous and new serial, previous > new |
| SerialAnalysis.RuleOrder | scripts/dm-verify.py:128-133 | the rule order stated on its own: a gap above 1 before any die value of 18 or more is reported as the high-roll reason even when the gap is also above 5 |
| SerialAnalysis.RollMattersOnlyInWindow | scripts/dm-verify.py:128-136 | outside gaps 2..5 the roll values do not change whether the roll is suspicious |
| Ledger.LastN | scripts/dm-verify.py:119 | as many elements as `n` or the length of `s`, whichever is smaller, which are the last ones of `s` in order; for the positive `n` it is called with, this is `s[-n:]` |
| Ledger.LastSerial | scripts/dm-verify.py:111 | None exactly for an empty list, otherwise its last element |
| Ledger.Recorded | scripts/dm-verify.py:99-119 | after an update the key is present, its key order grows only for a new key, its name is the stored one or the caller's for a new key, and its serials are the last 50 of old serials ++ [serial], at least one and at most 50 |
| Ledger.WithEntry | scripts/dm-verify.py:101-105 | an existing key leaves the tracker as it was; a new key is appended to the insertion order and mapped to the caller's name with no serials |
| Ledger.Extended | scripts/dm-verify.py:102-105 | a new key is added at the end of the insertion order and to the map, and the order still lists each map key once |
| Ledger.ExtendedIsValid | scripts/dm-verify.py:101-105 | inserting an absent key keeps the insertion order and the key set in step, without duplicates |
| Ledger.Appended | scripts/dm-verify.py:114-119 | the key order is unchanged, the key's serials become the last 50 of old ++ [serial] with its name kept, and every other entry is unchanged |
| Ledger.RecordedKeepsOthers | scripts/dm-verify.py:101-119 | every other identity is present exactly when it was before and keeps its entry |
| Ledger.Analyze | scripts/dm-verify.py:107-144 | previous serial is None exactly when the identity has no serials, and then the gap is 0 and the roll is not suspicious; the history has 1 to 10 serials and ends with the new one |
| Ledger.LastNAppend | scripts/dm-verify.py:115-119 | trimming after every append keeps the same list as trimming once at the end |
| Ledger.TrimmedAppend | scripts/dm-verify.py:115-119 | the trimmed list plus one serial, trimmed again, is the trim of the whole history |
| Ledger.LastNOfLastN | scripts/dm-verify.py:119 | the last 10 of the last 50 are the last 10 |
| Ledger.RecentSerialsAreStoredTail | scripts/dm-verify.py:115-143 | the reported history (taken before trimming) is the last 10 of the serials stored after the update |
| Ledger.PreviousIsLastRecorded | scripts/dm-verify.py:107-111 | the next analysis for the same identity sees the serial just recorded as its previous serial |
| Ledger.IdentityIgnoresName | scripts/dm-verify.py:99-108 | two updates with the same hash and different names give the same serials, and identical trackers once the entry exists |
| Ledger.RecordedAppendsBelowCapacity | scripts/dm-verify.py:115-119 | below 50 stored serials the new serial is simply appended |
| Ledger.RecordedAllKeepsLatest | scripts/dm-verify.py:101-119 | after any non-empty run of updates the identity holds exactly the last 50 of old ++ new serials, in arrival order, under the name it was created with |
| Ledger.FreshHistory | scripts/dm-verify.py:101-119 | up to 50 serials recorded for a new identity are all kept, in arrival order |
| Ledger.RecordedAllKeepsOthers | scripts/dm-verify.py:101-119 | any run of updates for one identity leaves every other identity's entry unchanged |
| SerialStore.Tracker.constructor | scripts/dm-verify.py:81 | the tracker holds the loaded table |
| SerialStore.Tracker.AnalyzeSerial | scripts/dm-verify.py:95-144 | updates the tracker in place to `Recorded` of the old one under `hashed_key[:16]`, keeps it valid, and returns `Analyze` of the serials stored before |
| SerialStore.Tracker.AddPlayerIfNew | scripts/dm-verify.py:101-105 | the tracker becomes `WithEntry` of the old one: a new key gets the caller's name and no serials, an existing entry is left alone |
| SerialStore.Tracker.AppendSerial | scripts/dm-verify.py:107-119 | the key's list gets the serial appended and is trimmed to 50 in the tracker; the returned list is the untrimmed old list ++ [serial] |
| SerialStore.Tracker.FindPlayer | scripts/dm-verify.py:219-230 | not found exactly when no stored name matches case-insensitively; otherwise the record of the first match in insertion order |
| SerialStore.Lower | scripts/dm-verify.py:221 | lowering keeps the length, turns each ASCII capital into its own lowercase letter, and leaves every other character as it was |
| SerialStore.LowerIsIdempotent | scripts/dm-verify.py:221 | lowering twice is lowering once, so a lowered name matches the name |
| SerialStore.NameMatches | scripts/dm-verify.py:221 | a stored name matches the query when both lowered are equal; only a name of the query's length can match |
| SerialStore.NameMatchesIsEquivalence | scripts/dm-verify.py:221 | the case-insensitive match is reflexive, symmetric and transitive |
| SerialStore.NameMatchesIgnoresCase | scripts/dm-verify.py:221 | names of equal length whose characters agree after lowering match |
| SerialStore.HistoryOf | scripts/dm-verify.py:222-228 | the record carries the stored name and serials, the key with "...", the number of serials, and the last serial or None exactly when there is none |
| SerialStore.HistoryReportsEntry | scripts/dm-verify.py:222-228 | a found record is a stored entry whose name matches, with `serialCount` its length, the key with "...", and `lastSerial` its last serial or None when empty |
| SerialStore.Loaded | scripts/dm-verify.py:78-84 | a saved file loads as its tracker; a missing or unparseable one loads as the tracker with no players |
| SerialStore.Store.Load | scripts/dm-verify.py:75-84 | the loaded tracker is fresh, valid and is the saved table, or empty for a missing file or one that fails to parse or read |
| SerialStore.Store.Save | scripts/dm-verify.py:87-92 | the file holds exactly the saved table |
| SerialStore.SaveLoadRoundTrip | scripts/dm-verify.py:75-92 | the round trip stated on its own: loading a saved tracker gives it back |
| SerialStore.Clear | scripts/dm-verify.py:245-248 | the file holds the empty tracker, which is what it loads as |
| SerialStore.ShowHistory | scripts/dm-verify.py:215-230 | answers the lookup against the tracker in the file; the file is not written |
| Verification.Authentic | scripts/dm-verify.py:160-171 | a roll counts as authentic only for a result reply whose authenticity flag is present and true; an error reply never does |
| Verification.VerifyRoll | scripts/dm-verify.py:147-212 | an oracle error or a missing or false authenticity returns an unverified result with that cause and leaves the file as it was; an authentic roll saves `Recorded` of the loaded tracker and returns the total, the truncated key + "...", the analysis and the message |
| Verification.ChooseMessage | scripts/dm-verify.py:202-210 | the message is a warning exactly when the roll is suspicious, carrying its reason; otherwise "first roll" exactly at gap 0, "sequence OK" exactly at gap 1, and "within tolerance" carrying the gap for any other gap |
| Verification.VerdictMeaning | scripts/dm-verify.py:112-210 | "first roll" exactly when there is no history, the stored serial is 0 or the serial repeats; "sequence OK" exactly when the serial follows a truthy previous one by 1; "within tolerance" means a gap of 2 to 5 with no high roll |
| Verification.ExitCode | scripts/dm-verify.py:288-292 | 1 exactly for an unverified result, 2 exactly for a suspicious verified one, 0 exactly for a clean verified one |
| Verification.ExitCodeFollowsVerdict | scripts/dm-verify.py:203-292 | for a verified result, the status is 2 exactly when the message is a warning |
| Verification.ScenarioFirstRoll | scripts/dm-verify.py:111-206 | the first roll of an account in an empty tracker has no previous serial, gap 0 and the first-roll message |
| Verification.ScenarioNextSerial | scripts/dm-verify.py:112-208 | after 1000 was recorded from an empty tracker, 1001 gives gap 1 and "sequence OK" |
| Verification.ScenarioHighRollAfterGap | scripts/dm-verify.py:128-130 | after 1000 and 1001 were recorded, a 20 at serial 1005 is flagged as a gap of 4 before a high roll |
| Verification.ScenarioBackwards | scripts/dm-verify.py:134-143 | after 1000, 1001 and 1005 were recorded, 1003 is flagged as going backwards from 1005, and the history shows all four |

## Left out

- The random.org `verifySignature` call (`scripts/dm-verify.py:47-72`): HTTP, timeouts and JSON decoding are not modelled. Its reply is a parameter, `OracleResponse`, either an error message (the HTTP and connection errors caught at `scripts/dm-verify.py:69-72`, or an `error` member of the reply) or a result with an optional authenticity flag.
- A time-out while waiting for or reading the oracle's reply, or a reply that is not JSON, is not modelled. The source does not catch these (`scripts/dm-verify.py:66-72`), so it builds no result and stops with exit status 1; the model has no such path, and neither touches the tracker file on it.
- A reply holding both `error` and `result` is not representable. The source takes the error path for it, and so would `RpcError`.
- Authenticity values other than booleans are not modelled. Python would judge them by truthiness; the model only has absent, true and false.
- JSON reading and writing, the tracker path and directory creation (`scripts/dm-verify.py:75-92`) are not modelled. The file is a `StoredFile` value, loaded and saved whole.
- A tracker document that is valid JSON but lacks `players` or an entry's `serials` is not modelled; the source raises `KeyError` on it. An entry without `name` is read as the empty name when matching, and `show_history` would raise `KeyError` only when it matches, on an empty query.
- Extra top-level keys besides `players`, and extra fields in an entry besides `name` and `serials`, are not modelled. The source loads the file's whole JSON object and writes it back on save (`scripts/dm-verify.py:81`, `:92`), so it keeps them; a `Table` cannot hold them, so a load and save in the model drops them.
- A tracker file whose bytes are not valid text is not modelled. `json.load` raises `UnicodeDecodeError`, which the `except` at `scripts/dm-verify.py:82` does not catch, so the program stops instead of loading the empty tracker.
- Command-line and stdin parsing in `main` (`scripts/dm-verify.py:234-282`) is not modelled, nor its exit status 1 for malformed input. It is plumbing before `verify_roll`.
- The text and emoji of messages and reasons are not modelled. They are the `Verdict` and `Reason` kinds carrying the values the text quotes.
- Printing the results as JSON is not modelled.
- Rolls.RollRecord: a missing `serialNumber` (Python `None`) is not modelled; the serial is always an integer. `completionTime` is a string, not an optional one.
- SerialStore.Lower: case folding maps the ASCII capitals to their lowercase letters only. Python's `str.lower()` also lowers other letters, and can change a string's length.
- SerialStore.NameMatches: because of `Lower`, names differing only in non-ASCII letter case do not match in the model, and matching names always have the same length.
- Two runs writing the tracker file at the same time are not modelled. The source has no locking, and the last save wins.
- `scripts/verify.py` and `scripts/roll.py` are not part of this model. They are network clients with console output and hold no tracker state.
