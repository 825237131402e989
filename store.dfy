/**
 * The tracker as the program holds it: the in-memory `tracker` dictionary
 * that `analyze_serial` updates in place, the tracker file it is loaded from
 * and saved to, and the read-only history lookup.
 */
module SerialStore {

  import opened Wrappers
  import opened Rolls
  import opened SerialAnalysis
  import opened Ledger

  /** The loaded `tracker` dictionary: the `players` keys in insertion order and their entries. */
  class Tracker {
    var keys: seq<string>
    var players: map<string, PlayerData>

    function Contents(): Snapshot
      reads this
    {
      Snapshot(keys, players)
    }

    ghost predicate Valid()
      reads this
    {
      Contents().Valid()
    }

    constructor (init: Table)
      ensures Valid() && Contents() == init
    {
      keys := init.keys;
      players := init.players;
    }

    /**
     * `analyze_serial`: creates the entry for the hash prefix if it is new,
     * appends `serial` to its list, trims the list to the last `Capacity`
     * and classifies the roll against the serial that was last before.
     */
    method AnalyzeSerial(player: string, hashedApiKey: string, serial: int, roll: seq<int>) returns (a: Analysis)
      requires Valid()
      modifies this
      ensures Valid()
      ensures Contents() == Recorded(old(Contents()), IdentityKey(hashedApiKey), player, serial)
      ensures a == Analyze(SerialsOf(old(Contents()), IdentityKey(hashedApiKey)), serial, roll)
    {
      var key := IdentityKey(hashedApiKey);
      AddPlayerIfNew(key, player);
      var serials := players[key].serials;
      var previous := LastSerial(serials);
      var gap := Gap(previous, serial);
      serials := AppendSerial(key, serial);
      var suspicion := Classify(previous, serial, roll);
      a := Analysis(previous, gap, suspicion, LastN(serials, RecentCount));
    }

    /** Creates the entry for `key`, with the name `player`, when there is none yet. */
    method AddPlayerIfNew(key: string, player: string)
      requires Valid()
      modifies this
      ensures Valid()
      ensures Contents() == WithEntry(old(Contents()), key, player)
    {
      if key !in players {
        players := players[key := PlayerData(player, [])];
        keys := keys + [key];
      }
    }

    /**
     * Appends `serial` to the list of `key` and trims the stored list to the
     * last `Capacity`. Returns the list as appended, before trimming: the
     * source keeps using that list after the entry has been given the trimmed one.
     */
    method AppendSerial(key: string, serial: int) returns (appended: seq<int>)
      requires Valid() && key in players
      modifies this
      ensures Valid()
      ensures Contents() == Appended(old(Contents()), key, serial)
      ensures appended == old(players[key].serials) + [serial]
    {
      var data := players[key];
      appended := data.serials + [serial];
      players := players[key := data.(serials := appended)];
      if |appended| > Capacity {
        players := players[key := data.(serials := appended[|appended| - Capacity..])];
      }
      assert players.Keys == old(players.Keys);
    }

    /**
     * The loop of `show_history`: the first entry, in insertion order, whose
     * stored name equals `query` ignoring case.
     */
    method FindPlayer(query: string) returns (r: HistoryResult)
      requires Valid()
      ensures AnswersHistory(Contents(), query, r)
    {
      var i := 0;
      while i < |keys|
        invariant 0 <= i <= |keys|
        invariant forall j :: 0 <= j < i ==> !NameMatches(players[keys[j]].name, query)
      {
        var data := players[keys[i]];
        if NameMatches(data.name, query) {
          r := HistoryOf(keys[i], data);
          assert IsFirstMatch(Contents(), query, i);
          return;
        }
        i := i + 1;
      }
      r := NotFound(query);
      forall k | k in players
        ensures !NameMatches(players[k].name, query)
      {
        var j := KeySetIndex(keys, k);
      }
    }
  }

  /** Python's `str.lower()` on one character, for the ASCII letters. */
  function LowerChar(c: char): char
  {
    if 'A' <= c <= 'Z' then (c as int + 32) as char else c
  }

  function Lower(s: string): (lowered: string)
    ensures |lowered| == |s|
    ensures forall i :: 0 <= i < |s| ==> !('A' <= lowered[i] <= 'Z')
    ensures forall i :: 0 <= i < |s| && !('A' <= s[i] <= 'Z') ==> lowered[i] == s[i]
    ensures forall i :: 0 <= i < |s| && 'A' <= s[i] <= 'Z' ==> lowered[i] == (s[i] as int + 32) as char
  {
    seq(|s|, i requires 0 <= i < |s| => LowerChar(s[i]))
  }

  /** `name.lower() == player.lower()`: only names of the query's length can match. */
  predicate NameMatches(name: string, query: string)
    ensures NameMatches(name, query) ==> |name| == |query|
  {
    Lower(name) == Lower(query)
  }

  /** Lowering is idempotent: a lowered name matches the name itself. */
  lemma LowerIsIdempotent(s: string)
    ensures Lower(Lower(s)) == Lower(s)
    ensures NameMatches(Lower(s), s)
  {
    assert forall i :: 0 <= i < |s| ==> Lower(Lower(s))[i] == Lower(s)[i];
  }

  /** Matching is an equivalence: reflexive, symmetric and transitive. */
  lemma NameMatchesIsEquivalence(a: string, b: string, c: string)
    ensures NameMatches(a, a)
    ensures NameMatches(a, b) ==> NameMatches(b, a)
    ensures NameMatches(a, b) && NameMatches(b, c) ==> NameMatches(a, c)
  {
  }

  /** Names of the same length that differ only in the case of ASCII letters match. */
  lemma NameMatchesIgnoresCase(name: string, query: string)
    requires |name| == |query|
    requires forall i :: 0 <= i < |name| ==> LowerChar(name[i]) == LowerChar(query[i])
    ensures NameMatches(name, query)
  {
  }

  /** What `show_history` prints. */
  datatype HistoryResult =
    | Found(player: string, hashedApiKey: string, serialCount: nat, serials: seq<int>, lastSerial: Option<int>)
    | NotFound(query: string)

  /** The record `show_history` builds for a matching entry. */
  function HistoryOf(key: string, data: PlayerData): (r: HistoryResult)
    ensures r.Found? && r.player == data.name && r.serials == data.serials
    ensures r.hashedApiKey == key + "..."
    ensures r.serialCount == |data.serials|
    ensures r.lastSerial == None <==> data.serials == []
    ensures r.lastSerial.Some? ==> r.lastSerial.value == data.serials[|data.serials| - 1]
  {
    Found(data.name, key + "...", |data.serials|, data.serials, LastSerial(data.serials))
  }

  /** The entry at position `i` matches and none before it does. */
  ghost predicate IsFirstMatch(t: Table, query: string, i: int)
  {
    && 0 <= i < |t.keys|
    && NameMatches(t.players[t.keys[i]].name, query)
    && forall j :: 0 <= j < i ==> !NameMatches(t.players[t.keys[j]].name, query)
  }

  /**
   * A correct answer to a history query: not found exactly when no stored
   * name matches, and otherwise the record of the first match in insertion order.
   */
  ghost predicate AnswersHistory(t: Table, query: string, r: HistoryResult)
  {
    && (r.NotFound? <==> forall k :: k in t.players ==> !NameMatches(t.players[k].name, query))
    && (r.NotFound? ==> r.query == query)
    && (r.Found? ==> exists i :: IsFirstMatch(t, query, i) && r == HistoryOf(t.keys[i], t.players[t.keys[i]]))
  }

  /** The found record counts the stored serials and names the last one, if any. */
  lemma HistoryReportsEntry(t: Table, query: string, r: HistoryResult)
    requires AnswersHistory(t, query, r) && r.Found?
    ensures exists k :: && k in t.players && NameMatches(t.players[k].name, query)
                        && r.player == t.players[k].name && r.serials == t.players[k].serials
                        && r.hashedApiKey == k + "..."
    ensures r.serialCount == |r.serials|
    ensures r.lastSerial == None <==> r.serials == []
    ensures r.lastSerial.Some? ==> r.lastSerial.value == r.serials[|r.serials| - 1]
  {
    var i :| IsFirstMatch(t, query, i) && r == HistoryOf(t.keys[i], t.players[t.keys[i]]);
    var k := t.keys[i];
    assert k in t.players && NameMatches(t.players[k].name, query);
    var h := HistoryOf(k, t.players[k]);
    assert r == h;
    assert r.player == t.players[k].name && r.serials == t.players[k].serials && r.hashedApiKey == k + "...";
  }

  /**
   * The tracker file: absent, one that fails to parse as JSON or to be read
   * (`JSONDecodeError`, `IOError`), or a saved tracker.
   */
  datatype StoredFile = Missing | Corrupt | Saved(table: Table)

  /** `load_tracker`: an absent file, or one that fails to parse or read, loads as the empty tracker. */
  function Loaded(f: StoredFile): (t: Table)
    ensures f.Saved? ==> t == f.table
    ensures !f.Saved? ==> t.keys == [] && t.players == map[]
  {
    if f.Saved? then f.table else EmptyTable
  }

  /**
   * The round trip stated on its own: saving a tracker and loading it again
   * gives the same tracker back. It is the first clause of `Loaded` for a
   * saved file.
   */
  lemma SaveLoadRoundTrip(t: Table)
    ensures Loaded(Saved(t)) == t
  {
  }

  /** The durable tracker file at the configured path. */
  class Store {
    var file: StoredFile

    constructor (initial: StoredFile)
      ensures file == initial
    {
      file := initial;
    }

    /** `load_tracker`. */
    method Load() returns (t: Tracker)
      ensures fresh(t) && t.Valid() && t.Contents() == Loaded(file)
    {
      match file
      case Saved(table) =>
        t := new Tracker(table);
      case _ =>
        t := new Tracker(EmptyTable);
    }

    /** `save_tracker`: the whole tracker replaces the file. */
    method Save(data: Table)
      modifies this
      ensures file == Saved(data)
    {
      file := Saved(data);
    }
  }

  /** The `--clear` branch of `main`: the file is overwritten with an empty tracker. */
  method Clear(store: Store)
    modifies store
    ensures store.file == Saved(EmptyTable)
    ensures Loaded(store.file) == EmptyTable
  {
    store.Save(EmptyTable);
  }

  /** `show_history`: loads the tracker and looks the name up; the file is never written. */
  method ShowHistory(store: Store, player: string) returns (r: HistoryResult)
    ensures AnswersHistory(Loaded(store.file), player, r)
  {
    var tracker := store.Load();
    r := tracker.FindPlayer(player);
  }
}
