/**
 * The serial tracker as a value: the `players` mapping from identity key to
 * stored name and serial history, in insertion order, and the update and
 * analysis that `analyze_serial` performs on it.
 */
module Ledger {

  import opened Wrappers
  import opened Rolls
  import opened SerialAnalysis

  /** At most this many serials are kept per identity. */
  const Capacity: nat := 50

  /** The number of serials a verification reports back. */
  const RecentCount: nat := 10

  /** One identity's entry: the name seen when it was created and its serials in arrival order. */
  datatype PlayerData = PlayerData(name: string, serials: seq<int>)

  /**
   * The `players` dictionary. Python dictionaries remember insertion order,
   * which decides which entry a history lookup finds first, so the keys are
   * kept as a sequence beside the map.
   */
  datatype Snapshot = Snapshot(keys: seq<string>, players: map<string, PlayerData>)
  {
    /**
     * The key sequence lists each key of the map, and each only once. The
     * last conjunct follows from the first; it is kept so that lookups by
     * position need no lemma.
     */
    predicate Valid()
    {
      && players.Keys == KeySet(keys)
      && |players.Keys| == |keys|
      && (forall i :: 0 <= i < |keys| ==> keys[i] in players)
    }
  }

  /** The keys listed in `keys`. */
  function KeySet(keys: seq<string>): set<string>
  {
    if keys == [] then {} else KeySet(keys[..|keys| - 1]) + {keys[|keys| - 1]}
  }

  /** Every key of the set is listed at some position. */
  lemma {:induction false} KeySetIndex(keys: seq<string>, k: string) returns (i: nat)
    requires k in KeySet(keys)
    ensures i < |keys| && keys[i] == k
  {
    if keys[|keys| - 1] == k {
      i := |keys| - 1;
    } else {
      i := KeySetIndex(keys[..|keys| - 1], k);
    }
  }

  type Table = t: Snapshot | t.Valid() witness Snapshot([], map[])

  /** The tracker a missing or unreadable file loads as, and the one `--clear` writes. */
  const EmptyTable: Table := Snapshot([], map[])

  /**
   * The last `n` elements, or all of `s` when it is shorter. For the positive
   * `n` it is used with (`Capacity`, `RecentCount`) this is Python's `s[-n:]`;
   * for `n == 0` Python would give all of `s`, which never arises here.
   */
  function LastN(s: seq<int>, n: nat): (tail: seq<int>)
    ensures |tail| == if |s| < n then |s| else n
    ensures forall i :: 0 <= i < |tail| ==> tail[i] == s[|s| - |tail| + i]
  {
    if |s| <= n then s else s[|s| - n..]
  }

  /** The serials stored for `key`, empty when the identity is unknown. */
  function SerialsOf(t: Table, key: string): seq<int>
  {
    if key in t.players then t.players[key].serials else []
  }

  /** `serials[-1] if serials else None`. */
  function LastSerial(serials: seq<int>): (last: Option<int>)
    ensures last == None <==> serials == []
    ensures last.Some? ==> last.value == serials[|serials| - 1]
  {
    if serials == [] then None else Some(serials[|serials| - 1])
  }

  /**
   * The tracker after `analyze_serial` has recorded `serial` for `key`: a new
   * key is appended with the caller's name, an existing entry keeps its name,
   * the serial is appended and the list trimmed to the last `Capacity`, and
   * every other identity is left as it was.
   */
  function Recorded(t: Table, key: string, name: string, serial: int): (u: Table)
    ensures u.keys == if key in t.players then t.keys else t.keys + [key]
    ensures key in u.players
    ensures u.players[key].name == if key in t.players then t.players[key].name else name
    ensures u.players[key].serials == LastN(SerialsOf(t, key) + [serial], Capacity)
    ensures 0 < |u.players[key].serials| <= Capacity
  {
    Appended(WithEntry(t, key, name), key, serial)
  }

  /** Recording a serial for one identity leaves every other identity as it was. */
  lemma RecordedKeepsOthers(t: Table, key: string, name: string, serial: int, other: string)
    requires other != key
    ensures other in Recorded(t, key, name, serial).players <==> other in t.players
    ensures other in t.players ==> Recorded(t, key, name, serial).players[other] == t.players[other]
  {
  }

  /** Lines 101-105: a key seen for the first time gets an entry with the caller's name and no serials. */
  function WithEntry(t: Table, key: string, name: string): (u: Table)
    ensures key in u.players
    ensures key in t.players ==> u == t
    ensures key !in t.players ==> u.keys == t.keys + [key] && u.players == t.players[key := PlayerData(name, [])]
  {
    if key in t.players then t else Extended(t, key, PlayerData(name, []))
  }

  /** A new key added to the map and at the end of the order. */
  function Extended(t: Table, key: string, entry: PlayerData): (u: Table)
    requires key !in t.players
    ensures u.keys == t.keys + [key] && u.players == t.players[key := entry]
  {
    ExtendedIsValid(t, key, entry);
    Snapshot(t.keys + [key], t.players[key := entry])
  }

  /** Adding a key that is not yet in the map keeps the order and the map in step. */
  lemma ExtendedIsValid(t: Table, key: string, entry: PlayerData)
    requires key !in t.players
    ensures Snapshot(t.keys + [key], t.players[key := entry]).Valid()
  {
    var keys := t.keys + [key];
    var players := t.players[key := entry];
    assert keys[..|keys| - 1] == t.keys;
    assert players.Keys == KeySet(keys);
    assert forall i :: 0 <= i < |keys| ==> keys[i] in players by {
      forall i | 0 <= i < |keys| ensures keys[i] in players {
        if i < |t.keys| { assert keys[i] == t.keys[i]; }
      }
    }
  }

  /** Lines 115-119: the serial is appended to the key's list, which is then trimmed to the last `Capacity`. */
  function Appended(t: Table, key: string, serial: int): (u: Table)
    requires key in t.players
    ensures u.keys == t.keys && key in u.players
    ensures u.players[key] == t.players[key].(serials := LastN(t.players[key].serials + [serial], Capacity))
    ensures forall k :: k in t.players && k != key ==> k in u.players && u.players[k] == t.players[k]
  {
    var entry := t.players[key];
    Snapshot(t.keys, t.players[key := entry.(serials := LastN(entry.serials + [serial], Capacity))])
  }

  /** What `analyze_serial` returns. */
  datatype Analysis = Analysis(
    previousSerial: Option<int>,
    gap: int,
    suspicion: Option<Reason>,
    serialHistory: seq<int>)
  {
    predicate Suspicious() { suspicion.Some? }
  }

  /**
   * The analysis of a roll with serial `serial` for an identity whose stored
   * serials are `stored`. The history is taken from the appended list before
   * trimming, as the source's local alias does.
   */
  function Analyze(stored: seq<int>, serial: int, roll: seq<int>): (a: Analysis)
    ensures a.previousSerial == None <==> stored == []
    ensures a.previousSerial == None ==> !a.Suspicious() && a.gap == 0
    ensures 0 < |a.serialHistory| <= RecentCount && a.serialHistory[|a.serialHistory| - 1] == serial
  {
    var previous := LastSerial(stored);
    Analysis(previous, Gap(previous, serial), Classify(previous, serial, roll),
             LastN(stored + [serial], RecentCount))
  }

  /** Trimming after each append keeps the same tail as trimming once at the end. */
  lemma LastNAppend(s: seq<int>, x: int, n: nat)
    requires n > 0
    ensures LastN(LastN(s, n) + [x], n) == LastN(s + [x], n)
  {
    var t := LastN(s, n);
    if |s| >= n {
      assert |t| == n;
      assert forall i :: 0 <= i < n ==> LastN(t + [x], n)[i] == LastN(s + [x], n)[i];
    }
  }

  /** A shorter tail of a tail is the shorter tail of the whole. */
  lemma LastNOfLastN(s: seq<int>, m: nat, n: nat)
    requires m <= n
    ensures LastN(LastN(s, n), m) == LastN(s, m)
  {
  }

  /**
   * The serials a verification reports are the last `RecentCount` of those
   * the tracker stores afterwards, even though they are read from the list
   * before it was trimmed.
   */
  lemma RecentSerialsAreStoredTail(t: Table, key: string, name: string, serial: int, roll: seq<int>)
    ensures Analyze(SerialsOf(t, key), serial, roll).serialHistory
         == LastN(Recorded(t, key, name, serial).players[key].serials, RecentCount)
  {
    LastNOfLastN(SerialsOf(t, key) + [serial], RecentCount, Capacity);
  }

  /**
   * The previous serial of the next analysis is the serial just recorded,
   * whatever name either call carried.
   */
  lemma PreviousIsLastRecorded(t: Table, key: string, name: string, first: int, second: int, roll: seq<int>)
    ensures Analyze(SerialsOf(Recorded(t, key, name, first), key), second, roll).previousSerial == Some(first)
  {
  }

  /**
   * The identity is the hash prefix only: two calls with the same hash and
   * different names update the same entry, and once it exists, identically.
   */
  lemma IdentityIgnoresName(t: Table, hashedApiKey: string, name: string, other: string, serial: int)
    ensures var key := IdentityKey(hashedApiKey);
      && Recorded(t, key, name, serial).players[key].serials == Recorded(t, key, other, serial).players[key].serials
      && (key in t.players ==> Recorded(t, key, name, serial) == Recorded(t, key, other, serial))
  {
  }

  /** Below the capacity nothing is trimmed: the serial is simply appended. */
  lemma RecordedAppendsBelowCapacity(t: Table, key: string, name: string, serial: int)
    requires |SerialsOf(t, key)| < Capacity
    ensures SerialsOf(Recorded(t, key, name, serial), key) == SerialsOf(t, key) + [serial]
  {
  }

  /** Records `serials` for one identity, one call after another. */
  function RecordedAll(t: Table, key: string, name: string, serials: seq<int>): Table
  {
    if serials == [] then t
    else Recorded(RecordedAll(t, key, name, serials[..|serials| - 1]), key, name, serials[|serials| - 1])
  }

  /**
   * After any number of updates the identity holds exactly the most recent
   * `Capacity` serials in arrival order and keeps the name it was created with.
   */
  lemma {:induction false} RecordedAllKeepsLatest(t: Table, key: string, name: string, serials: seq<int>)
    requires serials != []
    ensures key in RecordedAll(t, key, name, serials).players
    ensures RecordedAll(t, key, name, serials).players[key]
         == PlayerData(if key in t.players then t.players[key].name else name,
                       LastN(SerialsOf(t, key) + serials, Capacity))
  {
    var init := serials[..|serials| - 1];
    var x := serials[|serials| - 1];
    assert serials == init + [x];
    var u := RecordedAll(t, key, name, init);
    assert RecordedAll(t, key, name, serials) == Recorded(u, key, name, x);
    if init != [] {
      RecordedAllKeepsLatest(t, key, name, init);
      TrimmedAppend(SerialsOf(t, key), init, x);
    }
  }

  /** Trimming, then appending one more and trimming again, is trimming the whole. */
  lemma TrimmedAppend(before: seq<int>, init: seq<int>, x: int)
    ensures LastN(LastN(before + init, Capacity) + [x], Capacity) == LastN(before + (init + [x]), Capacity)
  {
    LastNAppend(before + init, x, Capacity);
    assert (before + init) + [x] == before + (init + [x]);
  }

  /** Up to `Capacity` serials recorded for a new identity are all kept, in arrival order. */
  lemma FreshHistory(key: string, name: string, serials: seq<int>)
    requires 0 < |serials| <= Capacity
    ensures SerialsOf(RecordedAll(EmptyTable, key, name, serials), key) == serials
  {
    RecordedAllKeepsLatest(EmptyTable, key, name, serials);
    assert SerialsOf(EmptyTable, key) + serials == serials;
  }

  /** Any number of updates for one identity leave every other identity as it was. */
  lemma {:induction false} RecordedAllKeepsOthers(t: Table, key: string, name: string, serials: seq<int>, other: string)
    requires other != key && other in t.players
    ensures other in RecordedAll(t, key, name, serials).players
    ensures RecordedAll(t, key, name, serials).players[other] == t.players[other]
  {
    if serials != [] {
      var init := serials[..|serials| - 1];
      RecordedAllKeepsOthers(t, key, name, init, other);
      RecordedKeepsOthers(RecordedAll(t, key, name, init), key, name, serials[|serials| - 1], other);
    }
  }
}
