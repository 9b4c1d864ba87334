/**
  The persistence hook: it mirrors the three slices into an on-device record
  store. On its first render the save effects write the initial slices; the
  start-up load then reads the stored settings, today's log and the content
  record, in that order, and applies each to its slice; after every change of a
  slice it writes the slice back.

  The record store is three tables, each a map from primary key to record:
  `user_profile` (settings, keyed by an integer), `logs` (keyed by each log's own
  `date`) and `content` (keyed by an integer). The declared database schema has
  no `content` table, so `hasContentTable` records whether the table exists;
  without it every content read and write throws.

  `Session` is the value of everything the hook touches, and the functions over
  it are the specification; class `Adapter` holds the same state in fields and
  its methods are proved against those functions.
*/
module Persistence {
  import opened Wrappers
  import Settings
  import DailyLog
  import Content

  /** Saved settings and content records carry `id: 1`. */
  const SingletonKey: int := 1

  /** The three reads of the start-up load, in the order they are awaited. */
  datatype Read = SettingsRead | LogRead | ContentRead

  datatype Store = Store(
    profiles: map<int, Settings.Patch>,
    logs: map<string, DailyLog.DailyLogState>,
    contents: map<int, Content.ContentState>,
    hasContentTable: bool)

  datatype Session = Session(
    store: Store,
    settings: Settings.SettingsState,
    dailyLog: DailyLog.DailyLogState,
    content: Content.ContentState)

  /**
    A store as this hook leaves it: the singleton tables hold at most key 1,
    there is no content without a content table, and every log sits under its own date.
  */
  predicate WellFormed(st: Store) {
    st.profiles.Keys <= {SingletonKey} &&
    st.contents.Keys <= {SingletonKey} &&
    (!st.hasContentTable ==> st.contents == map[]) &&
    forall d :: d in st.logs ==> st.logs[d].date == d
  }

  /** The session at start-up: the stored records, and every slice at its initial state. */
  function Start(st: Store, today: string): (ss: Session)
    ensures ss.store == st
    ensures ss.settings == Settings.Initial() && ss.dailyLog == DailyLog.Initial(today) && ss.content == Content.Initial()
    ensures !ss.settings.isSetupComplete && ss.dailyLog.date == today && ss.content.duaList == []
  {
    Session(st, Settings.Initial(), DailyLog.Initial(today), Content.Initial())
  }

  // ---------------------------------------------------------------------------
  // Reading a table: `toCollection().first()`

  lemma PickKey<K>(keys: set<K>) returns (k: K)
    requires keys != {}
    ensures k in keys
  {
    k :| k in keys;
  }

  /** Every non-empty finite set of keys has a least element. */
  lemma {:induction false} LeastKeyExists(keys: set<int>)
    requires keys != {}
    ensures exists k :: k in keys && forall j :: j in keys ==> k <= j
  {
    var x := PickKey(keys);
    var rest := keys - {x};
    if rest == {} {
      assert keys == {x};
      assert x in keys && forall j :: j in keys ==> x <= j;
    } else {
      LeastKeyExists(rest);
      var m :| m in rest && forall j :: j in rest ==> m <= j;
      var k := if x < m then x else m;
      assert forall j :: j in keys ==> j == x || j in rest;
      assert k in keys && forall j :: j in keys ==> k <= j;
    }
  }

  function LeastKey(keys: set<int>): (k: int)
    requires keys != {}
    ensures k in keys && forall j :: j in keys ==> k <= j
  {
    LeastKeyExists(keys);
    var k :| k in keys && forall j :: j in keys ==> k <= j; k
  }

  /** The first record of a table in primary-key order, if the table has any. */
  function First<V>(table: map<int, V>): (r: Option<V>)
    ensures r.None? <==> table.Keys == {}
    ensures r.Some? ==> exists k :: k in table && table[k] == r.value && forall j :: j in table ==> k <= j
    ensures table.Keys <= {SingletonKey} ==> r == if SingletonKey in table then Some(table[SingletonKey]) else None
  {
    if table.Keys == {} then None else Some(table[LeastKey(table.Keys)])
  }

  // ---------------------------------------------------------------------------
  // The save effects: each runs after its slice changes and sees the new value.

  /** Settings are upserted under key 1, and only once setup is complete. */
  function SaveSettings(st: Store, s: Settings.SettingsState): (r: Store)
    ensures r.logs == st.logs && r.contents == st.contents && r.hasContentTable == st.hasContentTable
    ensures !s.isSetupComplete ==> r == st
    ensures s.isSetupComplete ==> SingletonKey in r.profiles && r.profiles[SingletonKey] == Settings.ToPatch(s)
    ensures r.profiles.Keys <= st.profiles.Keys + {SingletonKey}
    ensures forall k :: k in st.profiles && k != SingletonKey ==> k in r.profiles && r.profiles[k] == st.profiles[k]
  {
    if s.isSetupComplete then st.(profiles := st.profiles[SingletonKey := Settings.ToPatch(s)]) else st
  }

  /** The log is upserted under its own date, unless that date is empty. */
  function SaveLog(st: Store, log: DailyLog.DailyLogState): (r: Store)
    ensures r.profiles == st.profiles && r.contents == st.contents && r.hasContentTable == st.hasContentTable
    ensures log.date == "" ==> r == st
    ensures log.date != "" ==> log.date in r.logs && r.logs[log.date] == log
    ensures r.logs.Keys <= st.logs.Keys + {log.date}
    ensures forall d :: d in st.logs && d != log.date ==> d in r.logs && r.logs[d] == st.logs[d]
  {
    if log.date != "" then st.(logs := st.logs[log.date := log]) else st
  }

  /** Content is upserted under key 1 on every change; without a content table the write throws. */
  function SaveContent(st: Store, c: Content.ContentState): (r: Store)
    ensures r.profiles == st.profiles && r.logs == st.logs && r.hasContentTable == st.hasContentTable
    ensures !st.hasContentTable ==> r == st
    ensures st.hasContentTable ==> SingletonKey in r.contents && r.contents[SingletonKey] == c
    ensures r.contents.Keys <= st.contents.Keys + {SingletonKey}
    ensures forall k :: k in st.contents && k != SingletonKey ==> k in r.contents && r.contents[k] == st.contents[k]
  {
    if st.hasContentTable then st.(contents := st.contents[SingletonKey := c]) else st
  }

  /** Every save is a whole-record upsert: saving the same value twice is saving it once. */
  lemma SavesAreIdempotent(st: Store, s: Settings.SettingsState, log: DailyLog.DailyLogState, c: Content.ContentState)
    ensures SaveSettings(SaveSettings(st, s), s) == SaveSettings(st, s)
    ensures SaveLog(SaveLog(st, log), log) == SaveLog(st, log)
    ensures SaveContent(SaveContent(st, c), c) == SaveContent(st, c)
  {
  }

  // ---------------------------------------------------------------------------
  // Dispatching an action: the slice's reducer, then that slice's save effect.

  /** A settings dispatch changes only the settings slice and the settings table. */
  function SettingsStep(ss: Session, a: Settings.Action): (r: Session)
    ensures r.settings == Settings.Reduce(ss.settings, a)
    ensures r.dailyLog == ss.dailyLog && r.content == ss.content
    ensures r.store.logs == ss.store.logs && r.store.contents == ss.store.contents
    ensures r.store.hasContentTable == ss.store.hasContentTable
    ensures r.store.profiles.Keys <= ss.store.profiles.Keys + {SingletonKey}
    ensures forall k :: k in ss.store.profiles && k != SingletonKey ==> k in r.store.profiles && r.store.profiles[k] == ss.store.profiles[k]
  {
    var s := Settings.Reduce(ss.settings, a);
    ss.(settings := s, store := SaveSettings(ss.store, s))
  }

  /** A log dispatch changes only the log slice and the logs table, and that under the log's date. */
  function LogStep(ss: Session, a: DailyLog.Action): (r: Session)
    ensures r.dailyLog == DailyLog.Reduce(ss.dailyLog, a)
    ensures r.settings == ss.settings && r.content == ss.content
    ensures r.store.profiles == ss.store.profiles && r.store.contents == ss.store.contents
    ensures r.store.hasContentTable == ss.store.hasContentTable
    ensures r.store.logs.Keys <= ss.store.logs.Keys + {r.dailyLog.date}
    ensures forall d :: d in ss.store.logs && d != r.dailyLog.date ==> d in r.store.logs && r.store.logs[d] == ss.store.logs[d]
  {
    var log := DailyLog.Reduce(ss.dailyLog, a);
    ss.(dailyLog := log, store := SaveLog(ss.store, log))
  }

  /** A content dispatch changes only the content slice and the content table. */
  function ContentStep(ss: Session, a: Content.Action): (r: Session)
    ensures r.content == Content.Reduce(ss.content, a)
    ensures r.settings == ss.settings && r.dailyLog == ss.dailyLog
    ensures r.store.profiles == ss.store.profiles && r.store.logs == ss.store.logs
    ensures r.store.hasContentTable == ss.store.hasContentTable
    ensures r.store.contents.Keys <= ss.store.contents.Keys + {SingletonKey}
    ensures forall k :: k in ss.store.contents && k != SingletonKey ==> k in r.store.contents && r.store.contents[k] == ss.store.contents[k]
  {
    var c := Content.Reduce(ss.content, a);
    ss.(content := c, store := SaveContent(ss.store, c))
  }

  /** Every dispatch keeps the store well formed. */
  lemma StepsKeepWellFormed(ss: Session, sa: Settings.Action, la: DailyLog.Action, ca: Content.Action)
    requires WellFormed(ss.store)
    ensures WellFormed(SettingsStep(ss, sa).store)
    ensures WellFormed(LogStep(ss, la).store)
    ensures WellFormed(ContentStep(ss, ca).store)
  {
  }

  // ---------------------------------------------------------------------------
  // The start-up load

  /**
    `loadData`: the three reads run one after the other inside one `try`. A
    read listed in `failing` throws; the exception skips every later read and
    is swallowed. The stored settings are merged into the slice through
    `updateSettings`; today's log and the content record replace their slices.
  */
  function Load(ss: Session, today: string, failing: set<Read>): (r: Session)
    ensures SettingsRead in failing ==> r == ss
    ensures r.store.hasContentTable == ss.store.hasContentTable
    ensures WellFormed(ss.store) ==> r.store.logs == ss.store.logs && r.store.contents == ss.store.contents
    ensures WellFormed(ss.store) ==> r.store.profiles.Keys <= {SingletonKey}
  {
    if SettingsRead in failing then ss
    else
      var profile := First(ss.store.profiles);
      var s1 := if profile.Some? then SettingsStep(ss, Settings.UpdateSettingsAction(profile.value)) else ss;
      if LogRead in failing then s1
      else
        var s2 := if today in s1.store.logs then LogStep(s1, DailyLog.SetDailyLogAction(s1.store.logs[today])) else s1;
        if ContentRead in failing || !s2.store.hasContentTable then s2
        else
          var stored := First(s2.store.contents);
          if stored.Some? then ContentStep(s2, Content.SetContentAction(stored.value)) else s2
  }

  /**
    A stored settings record is merged field by field: the fields it carries
    overwrite the slice and the others keep their current value. When no
    record is stored, or the read throws, the slice is untouched.
  */
  lemma LoadMergesSettings(ss: Session, today: string, failing: set<Read>)
    ensures var r := Load(ss, today, failing);
      var profile := First(ss.store.profiles);
      r.settings == if SettingsRead !in failing && profile.Some?
        then Settings.UpdateSettings(ss.settings, profile.value) else ss.settings
    ensures var r := Load(ss, today, failing);
      var profile := First(ss.store.profiles);
      SettingsRead !in failing && profile.Some? ==> Settings.Diff(ss.settings, r.settings) <= Settings.Patched(profile.value)
  {
  }

  /**
    Today's log replaces the slice exactly when the settings and log reads both
    succeed and a log is stored under today's date.
  */
  lemma LoadReplacesLog(ss: Session, today: string, failing: set<Read>)
    ensures Load(ss, today, failing).dailyLog ==
      if SettingsRead !in failing && LogRead !in failing && today in ss.store.logs
      then ss.store.logs[today] else ss.dailyLog
  {
  }

  /**
    The content record replaces the slice exactly when all three reads succeed,
    the content table exists and holds a record.
  */
  lemma LoadReplacesContent(ss: Session, today: string, failing: set<Read>)
    ensures Load(ss, today, failing).content ==
      if SettingsRead !in failing && LogRead !in failing && ContentRead !in failing &&
         ss.store.hasContentTable && First(ss.store.contents).Some?
      then First(ss.store.contents).value else ss.content
  {
    var r := Load(ss, today, failing);
    if SettingsRead !in failing {
      var profile := First(ss.store.profiles);
      var s1 := if profile.Some? then SettingsStep(ss, Settings.UpdateSettingsAction(profile.value)) else ss;
      assert s1.store.contents == ss.store.contents && s1.content == ss.content;
      if LogRead !in failing {
        var s2 := if today in s1.store.logs then LogStep(s1, DailyLog.SetDailyLogAction(s1.store.logs[today])) else s1;
        assert s2.store.contents == ss.store.contents && s2.content == ss.content;
        assert s2.store.hasContentTable == ss.store.hasContentTable;
      }
    }
  }

  /** A read that throws leaves its own slice and every later one as they were. */
  lemma FailedReadSkipsTheRest(ss: Session, today: string, failing: set<Read>)
    ensures SettingsRead in failing ==> Load(ss, today, failing) == ss
    ensures LogRead in failing ==>
      Load(ss, today, failing).dailyLog == ss.dailyLog && Load(ss, today, failing).content == ss.content
  {
  }

  /** Load keeps the store well formed. */
  lemma LoadKeepsWellFormed(ss: Session, today: string, failing: set<Read>)
    requires WellFormed(ss.store)
    ensures WellFormed(Load(ss, today, failing).store)
  {
    if SettingsRead !in failing {
      var profile := First(ss.store.profiles);
      var s1 := if profile.Some? then SettingsStep(ss, Settings.UpdateSettingsAction(profile.value)) else ss;
      assert WellFormed(s1.store);
      if LogRead !in failing {
        var s2 := if today in s1.store.logs then LogStep(s1, DailyLog.SetDailyLogAction(s1.store.logs[today])) else s1;
        assert WellFormed(s2.store);
      }
    }
  }

  /**
    Fresh install: nothing is stored, so every slice keeps its initial state.
    The load by itself writes nothing; the start-up as a whole leaves the
    scaffold log under today's date and, with a content table, the initial
    content under key 1.
  */
  lemma FreshInstall(today: string, hasContentTable: bool, failing: set<Read>)
    ensures var st := Store(map[], map[], map[], hasContentTable);
      Load(Start(st, today), today, failing) == Start(st, today)
    ensures var r := StartUpAsWritten(Store(map[], map[], map[], hasContentTable), today, failing);
      r.settings == Settings.Initial() && r.dailyLog == DailyLog.Initial(today) && r.content == Content.Initial() &&
      r.store.profiles == map[] &&
      r.store.logs == (if today != "" then map[today := DailyLog.Initial(today)] else map[]) &&
      r.store.contents == (if hasContentTable then map[SingletonKey := Content.Initial()] else map[])
  {
  }

  /**
    Loading a stored, completed settings record, today's log and the content
    record, and writing each slice back as the save effects do, reproduces the
    stored records exactly; the settings slice becomes the stored settings.
  */
  lemma LoadThenSaveRoundTrip(ss: Session, today: string, t: Settings.SettingsState)
    requires WellFormed(ss.store)
    requires ss.store.profiles == map[SingletonKey := Settings.ToPatch(t)] && t.isSetupComplete
    ensures Load(ss, today, {}).store == ss.store
    ensures Load(ss, today, {}).settings == t
  {
    Settings.MergeFullRecord(ss.settings, t);
    var s1 := SettingsStep(ss, Settings.UpdateSettingsAction(Settings.ToPatch(t)));
    assert s1.store == ss.store;
    if today in s1.store.logs {
      var s2 := LogStep(s1, DailyLog.SetDailyLogAction(s1.store.logs[today]));
      assert s2.store == ss.store;
    }
  }

  // ---------------------------------------------------------------------------
  // Start-up: the first render, then the load

  /**
    The hook's first render. The load effect runs first and sends its first
    read, of the settings; then the three save effects run once on the initial
    slices. The settings are not written, since setup is not complete; the
    scaffold log is written under today's date, and the initial content under
    key 1 when the content table exists. The settings read sees no write of this
    run, and every later read is sent after it, so the load can be taken to
    start once this run is over.
  */
  function Mount(st: Store, today: string): (ss: Session)
    ensures ss.settings == Settings.Initial() && ss.dailyLog == DailyLog.Initial(today) && ss.content == Content.Initial()
    ensures ss.store.profiles == st.profiles && ss.store.hasContentTable == st.hasContentTable
    ensures ss.store.logs == if today != "" then st.logs[today := DailyLog.Initial(today)] else st.logs
    ensures ss.store.contents == if st.hasContentTable then st.contents[SingletonKey := Content.Initial()] else st.contents
    ensures WellFormed(st) ==> WellFormed(ss.store)
  {
    var s0 := Start(st, today);
    s0.(store := SaveContent(SaveLog(SaveSettings(s0.store, s0.settings), s0.dailyLog), s0.content))
  }

  /** The start-up as written: the mount-time saves, then the load. */
  function StartUpAsWritten(st: Store, today: string, failing: set<Read>): (r: Session)
    ensures SettingsRead in failing ==> r == Mount(st, today)
    ensures r.store.hasContentTable == st.hasContentTable
    ensures WellFormed(st) ==> WellFormed(r.store)
  {
    Load(Mount(st, today), today, failing)
  }

  /**
    The start-up as evidently intended: the load runs on the stored records
    before any save, and only then do the save effects write the loaded slices.
  */
  function StartUp(st: Store, today: string, failing: set<Read>): (r: Session)
    ensures SettingsRead in failing ==> r == Mount(st, today)
    ensures r.store.hasContentTable == st.hasContentTable
    ensures WellFormed(st) ==> WellFormed(r.store)
  {
    var loaded := Load(Start(st, today), today, failing);
    loaded.(store := SaveContent(SaveLog(SaveSettings(loaded.store, loaded.settings), loaded.dailyLog), loaded.content))
  }

  /**
    As written, every start-up loses the log stored for today: the mount-time
    save overwrites it with the empty scaffold before the load reads it back.
    With a content table the stored content is lost the same way.
  */
  lemma MountWipesTodaysLog(st: Store, today: string, failing: set<Read>)
    requires WellFormed(st) && today != ""
    ensures var r := StartUpAsWritten(st, today, failing);
      r.dailyLog == DailyLog.Initial(today) &&
      today in r.store.logs && r.store.logs[today] == DailyLog.Initial(today)
    ensures var r := StartUpAsWritten(st, today, failing);
      st.hasContentTable ==>
        r.content == Content.Initial() &&
        SingletonKey in r.store.contents && r.store.contents[SingletonKey] == Content.Initial()
  {
    var m := Mount(st, today);
    LoadReplacesLog(m, today, failing);
    LoadReplacesContent(m, today, failing);
  }

  /**
    With the load ahead of the saves, a start-up whose reads succeed restores
    what is stored: today's log, the content record and the settings merged
    over their defaults; and today's stored log stays in the store.
  */
  lemma StartUpRestores(st: Store, today: string)
    requires WellFormed(st)
    ensures var r := StartUp(st, today, {});
      r.dailyLog == (if today in st.logs then st.logs[today] else DailyLog.Initial(today)) &&
      r.content == (if st.hasContentTable && SingletonKey in st.contents then st.contents[SingletonKey] else Content.Initial()) &&
      r.settings == (if SingletonKey in st.profiles then Settings.UpdateSettings(Settings.Initial(), st.profiles[SingletonKey]) else Settings.Initial())
    ensures var r := StartUp(st, today, {});
      today in st.logs ==> today in r.store.logs && r.store.logs[today] == st.logs[today]
  {
    var s0 := Start(st, today);
    LoadMergesSettings(s0, today, {});
    LoadReplacesLog(s0, today, {});
    LoadReplacesContent(s0, today, {});
  }

  // ---------------------------------------------------------------------------
  // Runs of dispatches

  function RunSettings(ss: Session, acts: seq<Settings.Action>): Session
    decreases |acts|
  {
    if acts == [] then ss else RunSettings(SettingsStep(ss, acts[0]), acts[1..])
  }

  function RunLog(ss: Session, acts: seq<DailyLog.Action>): Session
    decreases |acts|
  {
    if acts == [] then ss else RunLog(LogStep(ss, acts[0]), acts[1..])
  }

  /** An action that raises the setup flag. */
  predicate Completes(a: Settings.Action) {
    a.CompleteSetupAction? || (a.UpdateSettingsAction? && a.patch.isSetupComplete == Some(true))
  }

  /**
    While setup is incomplete, no run of settings changes that never completes
    setup writes anything: the store stays as it was and setup stays incomplete.
  */
  lemma {:induction false} IncompleteSettingsAreNeverSaved(ss: Session, acts: seq<Settings.Action>)
    requires !ss.settings.isSetupComplete
    requires forall i :: 0 <= i < |acts| ==> !Completes(acts[i])
    ensures RunSettings(ss, acts).store == ss.store
    ensures !RunSettings(ss, acts).settings.isSetupComplete
    decreases |acts|
  {
    if acts != [] {
      var s1 := SettingsStep(ss, acts[0]);
      assert !s1.settings.isSetupComplete;
      assert forall i :: 0 <= i < |acts[1..]| ==> !Completes(acts[1..][i]) by {
        forall i | 0 <= i < |acts[1..]| ensures !Completes(acts[1..][i]) {
          assert acts[1..][i] == acts[i + 1];
        }
      }
      IncompleteSettingsAreNeverSaved(s1, acts[1..]);
    }
  }

  /** Completing setup writes the settings, with the flag raised, under key 1 and nowhere else. */
  lemma CompletionSaves(ss: Session)
    requires !ss.settings.isSetupComplete
    ensures var r := SettingsStep(ss, Settings.CompleteSetupAction);
      r.store.profiles == ss.store.profiles[SingletonKey := Settings.ToPatch(r.settings)] &&
      r.store.profiles[SingletonKey].isSetupComplete == Some(true)
  {
  }

  /** The reset clears setup in the slice but writes nothing, so the stored record survives. */
  lemma ResetIsNotSaved(ss: Session)
    ensures var r := SettingsStep(ss, Settings.UpdateSettingsAction(Settings.ResetPatch()));
      r.store == ss.store && !r.settings.isSetupComplete && r.settings.location == None
  {
  }

  /**
    A consequence of the gate: after a reset, if the app is closed before setup
    is completed again, the next start-up loads the old completed settings, so
    the reset is undone.
  */
  lemma ReloadAfterResetRestoresSetup(ss: Session, t: Settings.SettingsState,
                                      acts: seq<Settings.Action>, today: string)
    requires WellFormed(ss.store) && t.isSetupComplete
    requires ss.store.profiles == map[SingletonKey := Settings.ToPatch(t)]
    requires forall i :: 0 <= i < |acts| ==> !Completes(acts[i])
    ensures var reset := SettingsStep(ss, Settings.UpdateSettingsAction(Settings.ResetPatch()));
      var closed := RunSettings(reset, acts);
      StartUpAsWritten(closed.store, today, {}).settings == t
  {
    var reset := SettingsStep(ss, Settings.UpdateSettingsAction(Settings.ResetPatch()));
    Settings.ResetClearsSetup(ss.settings);
    IncompleteSettingsAreNeverSaved(reset, acts);
    var closed := RunSettings(reset, acts);
    assert closed.store == ss.store;
    LoadThenSaveRoundTrip(Mount(closed.store, today), today, t);
  }

  /**
    Without `setDailyLog`, a run of log changes writes only under the log's own
    date: no other date is created or altered, the other tables are untouched,
    and after at least one change the stored log is the slice.
  */
  lemma {:induction false} LogWritesOnlyItsDate(ss: Session, acts: seq<DailyLog.Action>)
    requires DailyLog.NoReplacement(acts)
    ensures var r := RunLog(ss, acts);
      r.store.profiles == ss.store.profiles && r.store.contents == ss.store.contents &&
      r.dailyLog.date == ss.dailyLog.date &&
      r.store.logs.Keys <= ss.store.logs.Keys + {ss.dailyLog.date} &&
      (forall d :: d in ss.store.logs && d != ss.dailyLog.date ==> d in r.store.logs && r.store.logs[d] == ss.store.logs[d]) &&
      (acts != [] && ss.dailyLog.date != "" ==>
         ss.dailyLog.date in r.store.logs && r.store.logs[ss.dailyLog.date] == r.dailyLog)
    decreases |acts|
  {
    if acts != [] {
      var s1 := LogStep(ss, acts[0]);
      assert DailyLog.NoReplacement(acts[1..]) by {
        forall i | 0 <= i < |acts[1..]| ensures !acts[1..][i].SetDailyLogAction? {
          assert acts[1..][i] == acts[i + 1];
        }
      }
      LogWritesOnlyItsDate(s1, acts[1..]);
    }
  }

  /**
    Three cups of water from a fresh start: the store ends with exactly one
    log, under today's date, with a water count of 3.
  */
  lemma WaterScenario(today: string, hasContentTable: bool)
    requires today != ""
    ensures var r := RunLog(Start(Store(map[], map[], map[], hasContentTable), today),
                            [DailyLog.IncrementWaterAction, DailyLog.IncrementWaterAction, DailyLog.IncrementWaterAction]);
      r.store.logs.Keys == {today} && r.store.logs[today].wellness.waterCount == 3
  {
    var acts := [DailyLog.IncrementWaterAction, DailyLog.IncrementWaterAction, DailyLog.IncrementWaterAction];
    var s0 := Start(Store(map[], map[], map[], hasContentTable), today);
    var s1 := LogStep(s0, acts[0]);
    var s2 := LogStep(s1, acts[1]);
    var s3 := LogStep(s2, acts[2]);
    assert acts[1..][1..][1..] == [];
    assert RunLog(s0, acts) == s3;
  }

  /** With a content table, after every content change the stored record is the slice. */
  lemma ContentMirrorsSlice(ss: Session, a: Content.Action)
    requires ss.store.hasContentTable
    ensures var r := ContentStep(ss, a); SingletonKey in r.store.contents && r.store.contents[SingletonKey] == r.content
  {
  }

  /** Without a content table, no content change ever reaches the store. */
  lemma NoContentTableNoContentWrites(ss: Session, a: Content.Action)
    requires !ss.store.hasContentTable
    ensures ContentStep(ss, a).store == ss.store
  {
  }

  /**
    With the schema as declared (no content table), a dua added in one session
    is gone after the next start-up: the content comes back as the initial one.
  */
  lemma ContentLostOnReload(ss: Session, d: Content.Dua, today: string, failing: set<Read>)
    requires WellFormed(ss.store) && !ss.store.hasContentTable
    ensures var added := ContentStep(ss, Content.AddDuaAction(d));
      added.content.duaList == ss.content.duaList + [d] &&
      StartUpAsWritten(added.store, today, failing).content == Content.Initial()
  {
    var added := ContentStep(ss, Content.AddDuaAction(d));
    LoadReplacesContent(Mount(added.store, today), today, failing);
  }

  /**
    With a content table, and with the load ahead of the saves, whatever content
    change was made last, the next start-up whose reads succeed restores that
    content exactly.
  */
  lemma ContentSurvivesReload(ss: Session, a: Content.Action, today: string)
    requires WellFormed(ss.store) && ss.store.hasContentTable
    ensures var changed := ContentStep(ss, a);
      StartUp(changed.store, today, {}).content == changed.content
  {
    var changed := ContentStep(ss, a);
    assert WellFormed(changed.store);
    StartUpRestores(changed.store, today);
  }

  /**
    Adding a dua to an empty list and removing it by its id leaves an empty
    list, in the slice and, when the content table exists, in the stored record.
  */
  lemma DuaScenario(st: Store, today: string, d: Content.Dua)
    ensures var r := ContentStep(ContentStep(Start(st, today), Content.AddDuaAction(d)), Content.RemoveDuaAction(d.id));
      r.content.duaList == [] &&
      (st.hasContentTable ==> SingletonKey in r.store.contents && r.store.contents[SingletonKey].duaList == [])
  {
    Content.AddThenRemove(Content.Initial(), d);
  }

  // ---------------------------------------------------------------------------
  // The hook's state, updated in place

  class Adapter {
    var profiles: map<int, Settings.Patch>
    var logs: map<string, DailyLog.DailyLogState>
    var contents: map<int, Content.ContentState>
    const hasContentTable: bool
    var settings: Settings.SettingsState
    var dailyLog: DailyLog.DailyLogState
    var content: Content.ContentState

    function Snapshot(): Session
      reads this
    {
      Session(Store(profiles, logs, contents, hasContentTable), settings, dailyLog, content)
    }

    ghost predicate Valid()
      reads this
    {
      WellFormed(Snapshot().store)
    }

    /**
      The hook's first render over the records a previous session left behind:
      the slices at their initial states, then the first run of the save
      effects. The settings effect writes nothing, since setup is not complete.
    */
    constructor (stored: Store, today: string)
      requires WellFormed(stored)
      ensures Valid() && Snapshot() == Mount(stored, today)
    {
      profiles, logs, contents, hasContentTable := stored.profiles, stored.logs, stored.contents, stored.hasContentTable;
      settings, dailyLog, content := Settings.Initial(), DailyLog.Initial(today), Content.Initial();
      new;
      if dailyLog.date != "" {
        logs := logs[dailyLog.date := dailyLog];
      }
      if hasContentTable {
        contents := contents[SingletonKey := content];
      }
    }

    /** Dispatches a settings action; the save effect then writes the new settings if setup is complete. */
    method DispatchSettings(a: Settings.Action)
      requires Valid()
      modifies this
      ensures Valid()
      ensures Snapshot() == SettingsStep(old(Snapshot()), a)
    {
      settings := Settings.Reduce(settings, a);
      if settings.isSetupComplete {
        profiles := profiles[SingletonKey := Settings.ToPatch(settings)];
      }
    }

    /** Dispatches a log action; the save effect then writes the log under its date. */
    method DispatchDailyLog(a: DailyLog.Action)
      requires Valid()
      modifies this
      ensures Valid()
      ensures Snapshot() == LogStep(old(Snapshot()), a)
    {
      dailyLog := DailyLog.Reduce(dailyLog, a);
      if dailyLog.date != "" {
        logs := logs[dailyLog.date := dailyLog];
      }
    }

    /** Dispatches a content action; the save effect then writes the content under key 1. */
    method DispatchContent(a: Content.Action)
      requires Valid()
      modifies this
      ensures Valid()
      ensures Snapshot() == ContentStep(old(Snapshot()), a)
    {
      content := Content.Reduce(content, a);
      if hasContentTable {
        contents := contents[SingletonKey := content];
      }
    }

    /** `loadData`: the reads in order, each applied by a dispatch; a throwing read ends the load. */
    method LoadData(today: string, failing: set<Read>)
      requires Valid()
      modifies this
      ensures Valid()
      ensures Snapshot() == Load(old(Snapshot()), today, failing)
    {
      if SettingsRead in failing {
        return;
      }
      var profile := First(profiles);
      if profile.Some? {
        DispatchSettings(Settings.UpdateSettingsAction(profile.value));
      }
      if LogRead in failing {
        return;
      }
      if today in logs {
        DispatchDailyLog(DailyLog.SetDailyLogAction(logs[today]));
      }
      if ContentRead in failing || !hasContentTable {
        return;
      }
      var stored := First(contents);
      if stored.Some? {
        DispatchContent(Content.SetContentAction(stored.value));
      }
    }
  }
}
