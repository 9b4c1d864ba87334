# Ramadan journal: state slices and local persistence

This project models the state layer of a Ramadan companion app in Dafny.

The app keeps three slices of in-memory state:

- **settings**: the setup flag, the calculation method, the madhab, the location and the theme;
- **daily log**: the day's five prayers, the optional Taraweeh entry, the water and sleep counters, the journal fields and the sunnah flag;
- **content**: Quran reading progress and the list of saved duas.

Each slice has a fixed set of reducers. A persistence hook mirrors the slices into an on-device store of three tables (`user_profile`, `logs`, `content`). At start-up it loads the stored records into the slices, but its save effects have already written the initial slices by then (see Findings). After every change to a slice it writes that slice back. No page of the app mounts the hook yet (`App.tsx` renders placeholder pages); the model covers the hook as it behaves once mounted. The model also covers two rules from the dashboard page: which prayer is announced as "next", and what tapping a prayer's button records.

Files:

- `wrappers.dfy`: `Option`.
- `settings.dfy`, `daily_log.dfy`, `content.dfy`: one module per slice. Each slice has its records, an `Action` datatype (one constructor per reducer), the reducers as functions, and `Reduce`, the slice reducer that dispatches on the action.
  - The source writes its reducers against copy-on-write drafts, so a reducer is a function from the old state to the new one.
  - `Diff(s, t)` is the set of fields on which two states differ. Contracts use it to say "nothing else changes".
- `dashboard.dfy`: the next-prayer cascade and the prayed/pending toggle.
- `persistence.dfy`: the persistence hook, in two layers.
  - A value-level specification: `Store` holds the three tables. `Session` holds the store plus the three slices. The three save effects are `SaveSettings`, `SaveLog` and `SaveContent`. `SettingsStep`, `LogStep` and `ContentStep` each dispatch one action, which runs the reducer and then that slice's save effect. `Load` is the start-up load.
  - The lemmas about that specification.
  - Class `Adapter`: holds the three tables and the three slices as fields. Its methods are proved to change them exactly as the specification functions say.

Some decisions about how the hook is modelled:

- Each save runs right after each dispatch, on the state that dispatch produced. React batches dispatches and runs an effect once, on the final state of the batch. The two give the same final store except for two kinds of batch. A settings batch that passes through a completed state and ends incomplete writes an intermediate record in the model and nothing in the app, since the gated save sees only the final state. A log batch that changes the log and then its date writes the changed log under the old date in the model and not in the app. The content save, a whole-record upsert under one key, always agrees. No page dispatches either kind of batch: the reset is a single dispatch, and setup ends complete.
- The load dispatches through the same reducers, so the save effects also fire after each record is loaded. This makes the load-then-save round trip provable.
- The first render is `Persistence.Mount`: the save effects run once on the initial slices. The settings are not written, since setup is not complete. The scaffold log is written under today's date. The initial content is written under key 1 when the content table exists. The load's first read, of the settings, is sent before this run, but no write of this run touches the settings table, and every later read is sent after it. So the start-up as written is `StartUpAsWritten`: `Mount`, then `Load`. `StartUp` is the start-up as evidently intended: `Load` on the stored records, then the saves.
- `toCollection().first()` is the record under the least primary key (`Persistence.First`).
- A read that throws is an input to the model: `failing`, a set of the three reads.
- The database schema declares no `content` table (`src/db/db.ts:5-15`), yet the hook reads and writes `db.content`. `Store.hasContentTable` says whether that table exists. Without it, every content read and write throws. See Findings.
- One consequence of the settings gate is proved as `ReloadAfterResetRestoresSetup`:
  - The reset button sends `{isSetupComplete: false, location: null}`.
  - The hook does not write settings while setup is incomplete, so the stored record keeps the completed setup.
  - If the app is closed before setup is completed again, the next start-up loads that record, and the reset is undone.
- `Persistence.Load` follows the code, not an idealised load:
  - the stored settings are merged into the slice through `updateSettings`, not substituted for it;
  - the three reads run one after another inside one `try`, so a failed read skips every read after it.

## Model

| member | source | states |
|---|---|---|
| `Settings.Initial` | src/features/settings/settingsSlice.ts:15-21 | first-run settings: setup incomplete, method ISNA, madhab Hanafi, no location, system theme |
| `Settings.CompleteSetup` | src/features/settings/settingsSlice.ts:27-29 | the setup flag is raised and no other field changes |
| `Settings.UpdateLocation` | src/features/settings/settingsSlice.ts:30-32 | the location becomes the payload and no other field changes |
| `Settings.UpdateSettings` | src/features/settings/settingsSlice.ts:33-35 | each field the patch carries takes the patch's value; fields absent from the patch keep theirs |
| `Settings.Reduce` | src/features/settings/settingsSlice.ts:26-36 | each action changes only its own fields; only `updateSettings` can lower the setup flag or clear the location |
| `Settings.ToPatch` | src/hooks/usePersistence.ts:47 | the record saved for the settings carries every field |
| `Settings.ResetPatch` | src/pages/Settings.tsx:14 | the reset patch carries exactly the setup flag and the location |
| `Settings.CompleteSetupIdempotent` | src/features/settings/settingsSlice.ts:27-29 | completing setup twice is completing it once |
| `Settings.UpdateSettingsIdempotent` | src/features/settings/settingsSlice.ts:33-35 | merging the same patch twice is merging it once |
| `Settings.MergeFullRecord` | src/features/settings/settingsSlice.ts:33-35 | merging a record that has every field replaces the state by it |
| `Settings.ResetClearsSetup` | src/pages/Settings.tsx:12-16 | the reset leaves setup incomplete and no location, and keeps the preferences |
| `DailyLog.Initial` | src/features/dailyLog/dailyLogSlice.ts:32-53 | the start-of-day log: five pending prayers without jamaah, no Taraweeh entry, zero water and sleep, empty journal, sunnah not done |
| `DailyLog.UpdatePrayer` | src/features/dailyLog/dailyLogSlice.ts:62-66 | a present prayer key gets the new status; an absent key stays absent; nothing else changes |
| `DailyLog.IncrementWater` | src/features/dailyLog/dailyLogSlice.ts:67-69 | the water count rises by exactly one and is the only change |
| `DailyLog.UpdateJournal` | src/features/dailyLog/dailyLogSlice.ts:70-72 | the journal fields in the patch are overwritten; all other fields, journal or not, keep their values |
| `DailyLog.Reduce` | src/features/dailyLog/dailyLogSlice.ts:58-73 | `setDailyLog` replaces the log; every other action keeps date, Hijri date, sleep hours and sunnah flag, never lowers the water count and never creates Taraweeh |
| `DailyLog.RunKeepsIdentity` | src/features/dailyLog/dailyLogSlice.ts:58-73 | any run of actions without `setDailyLog` keeps the identity fields and never lowers the water count |
| `DailyLog.WaterNeverNegative` | src/features/dailyLog/dailyLogSlice.ts:43-69 | from the start-of-day log, the water count stays at least 0 and the date stays today under the non-load reducers |
| `DailyLog.TaraweehAbsentIsNoOp` | src/features/dailyLog/dailyLogSlice.ts:62-66 | updating the absent Taraweeh entry leaves the log unchanged |
| `DailyLog.UpdateJournalIdempotent` | src/features/dailyLog/dailyLogSlice.ts:70-72 | applying the same journal patch twice is applying it once |
| `Content.Initial` | src/features/content/contentSlice.ts:18-25 | initial progress juz 1, surah 1, ayah 1, and an empty dua list |
| `Content.WithoutId` | src/features/content/contentSlice.ts:38 | the filtered list has no entry with the id and keeps exactly the other entries |
| `Content.UpdateQuranProgress` | src/features/content/contentSlice.ts:31-33 | patched progress fields take the patch's values, unclamped; nothing else changes |
| `Content.AddDua` | src/features/content/contentSlice.ts:34-36 | the list grows by one, earlier entries are unchanged and the last entry is the payload |
| `Content.RemoveDua` | src/features/content/contentSlice.ts:37-39 | no entry with the id remains, every other entry does, and progress is unchanged |
| `Content.Reduce` | src/features/content/contentSlice.ts:30-43 | `setContent` replaces the state; progress updates keep the list; dua actions keep the progress |
| `Content.WithoutIdAppend` | src/features/content/contentSlice.ts:38 | removal preserves relative order: it distributes over concatenation |
| `Content.WithoutIdUnchanged` | src/features/content/contentSlice.ts:38 | removal leaves the list unchanged if and only if no entry has the id |
| `Content.WithoutIdCounts` | src/features/content/contentSlice.ts:38 | each entry keeps its multiplicity unless it has the removed id, in which case none remain |
| `Content.WithoutIdIdempotent` | src/features/content/contentSlice.ts:37-39 | removing the same id twice is removing it once |
| `Content.AddThenRemove` | src/features/content/contentSlice.ts:34-39 | adding a dua with a fresh id and then removing that id restores the state |
| `Content.AddDuaKeepsDuplicates` | src/features/content/contentSlice.ts:34-36 | adding a dua whose id is taken yields two entries with that id |
| `Dashboard.NextPrayerAt` | src/pages/Dashboard.tsx:32-38 | the first prayer in the fixed order whose time is strictly after now, else Fajr at today's Fajr time |
| `Dashboard.BeforeFajr` | src/pages/Dashboard.tsx:33 | before Fajr the next prayer is Fajr at its own time |
| `Dashboard.AtPrayerTimeIsSkipped` | src/pages/Dashboard.tsx:33-38 | a prayer whose time equals now is never announced, except as the Fajr fallback once all times have come |
| `Dashboard.AfterIshaIsPastFajr` | src/pages/Dashboard.tsx:38 | on an ordinary day, from Isha on the announced time is today's Fajr, already past |
| `Dashboard.Toggle` | src/pages/Dashboard.tsx:108-140 | the payload: prayed becomes pending, anything else becomes prayed, jamaah always false |
| `Dashboard.Tap` | src/pages/Dashboard.tsx:137-140 | a tap records the toggled status under that prayer and changes nothing else |
| `Dashboard.TapTwice` | src/pages/Dashboard.tsx:137-140 | two taps give prayed for a prayed prayer and pending otherwise, with jamaah cleared |
| `Dashboard.MissedTappedTwiceIsPending` | src/pages/Dashboard.tsx:139 | a missed prayer tapped twice ends pending, not missed |
| `Persistence.Start` | src/app/store.ts:6-12 | at start-up each slice equals its initial state, over the stored records unchanged |
| `Persistence.First` | src/hooks/usePersistence.ts:20 | the first record of a table is the one under the least key, none for an empty table |
| `Persistence.SaveSettings` | src/hooks/usePersistence.ts:45-49 | settings are upserted under key 1 only when setup is complete; no other key or table changes |
| `Persistence.SaveLog` | src/hooks/usePersistence.ts:52-56 | the log is upserted under its own non-empty date; no other date or table changes |
| `Persistence.SaveContent` | src/hooks/usePersistence.ts:59-61 | content is upserted under key 1 on every change if the table exists; nothing else changes |
| `Persistence.SettingsStep` | src/hooks/usePersistence.ts:44-49 | a settings dispatch gives the reducer's result and touches no other slice, no other table, and no settings key but 1: every other key keeps its record |
| `Persistence.LogStep` | src/hooks/usePersistence.ts:51-56 | a log dispatch gives the reducer's result and touches no other slice, no other table, and no date but the new log's: every other date keeps its record |
| `Persistence.ContentStep` | src/hooks/usePersistence.ts:58-61 | a content dispatch gives the reducer's result and touches no other slice, no other table, and no content key but 1: every other key keeps its record |
| `Persistence.SavesAreIdempotent` | src/hooks/usePersistence.ts:45-61 | saving the same value twice leaves the store as saving it once |
| `Persistence.StepsKeepWellFormed` | src/hooks/usePersistence.ts:44-61 | dispatches never create a second settings or content record and keep each log under its own date |
| `Persistence.Load` | src/hooks/usePersistence.ts:17-40 | a failed settings read leaves everything as it was; over a well-formed store the load never changes the stored logs or content and leaves at most one settings record |
| `Persistence.LoadMergesSettings` | src/hooks/usePersistence.ts:20-23 | a stored settings record is merged through `updateSettings`: only the fields it carries change |
| `Persistence.LoadReplacesLog` | src/hooks/usePersistence.ts:26-30 | today's stored log replaces the slice exactly when the earlier reads succeed and it exists |
| `Persistence.LoadReplacesContent` | src/hooks/usePersistence.ts:33-36 | the stored content replaces the slice exactly when all reads succeed and the record exists |
| `Persistence.FailedReadSkipsTheRest` | src/hooks/usePersistence.ts:18-39 | a throwing read leaves its slice and every later slice untouched |
| `Persistence.LoadKeepsWellFormed` | src/hooks/usePersistence.ts:17-40 | the load keeps the store well formed |
| `Persistence.FreshInstall` | src/hooks/usePersistence.ts:17-61 | with nothing stored, the load changes nothing; the whole start-up keeps every slice at its default and leaves only the scaffold log under today and, with a content table, the initial content |
| `Persistence.LoadThenSaveRoundTrip` | src/hooks/usePersistence.ts:17-61 | loading a stored completed setup and saving it back reproduces the stored records; the slice becomes the stored settings |
| `Persistence.IncompleteSettingsAreNeverSaved` | src/hooks/usePersistence.ts:45-49 | while setup is incomplete, no number of settings changes that do not complete it writes anything |
| `Persistence.CompletionSaves` | src/hooks/usePersistence.ts:45-49 | completing setup writes one record with the flag raised, under key 1 |
| `Persistence.ResetIsNotSaved` | src/hooks/usePersistence.ts:45-49 | the reset changes the slice but leaves the stored settings as they were |
| `Persistence.ReloadAfterResetRestoresSetup` | src/hooks/usePersistence.ts:20-49 | after a reset and an incomplete session, the next start-up as written restores the completed settings |
| `Persistence.Mount` | src/hooks/usePersistence.ts:44-61 | the first run of the save effects: settings untouched, the scaffold log stored under today's date, the initial content under key 1 when the table exists; the store stays well formed |
| `Persistence.MountWipesTodaysLog` | src/hooks/usePersistence.ts:26-30 | as written, every start-up ends with the empty scaffold as today's log in the slice and in the store, whatever was stored; with a content table, the same for the content |
| `Persistence.StartUpAsWritten` | src/hooks/usePersistence.ts:9-42 | the start-up as written, `Mount` then `Load`: keeps the store well formed and the content-table flag, and is just `Mount` when the first read throws |
| `Persistence.StartUp` | src/hooks/usePersistence.ts:17-61 | the corrected start-up, the load ahead of the saves, used by `StartUpRestores` and `ContentSurvivesReload`: keeps the store well formed and the content-table flag, and is just `Mount` when the first read throws |
| `Persistence.StartUpRestores` | src/hooks/usePersistence.ts:17-40 | with the load ahead of the saves, a start-up restores today's stored log, the stored content and the stored settings merged over the defaults, and keeps today's stored log |
| `Persistence.LogWritesOnlyItsDate` | src/hooks/usePersistence.ts:52-56 | log changes write only under the log's date; no other date is created or altered |
| `Persistence.WaterScenario` | src/hooks/usePersistence.ts:52-56 | three water increments from a fresh store leave one log, today's, with water count 3 |
| `Persistence.ContentMirrorsSlice` | src/hooks/usePersistence.ts:59-61 | with a content table, the stored content always equals the slice after a change |
| `Persistence.NoContentTableNoContentWrites` | src/hooks/usePersistence.ts:60 | without a content table, content changes never reach the store |
| `Persistence.ContentLostOnReload` | src/hooks/usePersistence.ts:33-60 | without a content table, a dua added in one session is gone after the next start-up as written: the content is the initial one |
| `Persistence.ContentSurvivesReload` | src/hooks/usePersistence.ts:33-61 | with a content table and the load ahead of the saves, the next start-up restores the last content exactly |
| `Persistence.DuaScenario` | src/hooks/usePersistence.ts:59-61 | adding a dua and removing it by id leaves an empty list in the slice and, when the content table exists, in the stored record |
| `Persistence.Adapter.constructor` | src/hooks/usePersistence.ts:9-61 | the first render: initial slices over the stored records, then the first run of the save effects, exactly as `Mount` |
| `Persistence.Adapter.DispatchSettings` | src/hooks/usePersistence.ts:44-49 | the reducer runs, then the gated settings save, exactly as `SettingsStep` |
| `Persistence.Adapter.DispatchDailyLog` | src/hooks/usePersistence.ts:51-56 | the reducer runs, then the log save under its date, exactly as `LogStep` |
| `Persistence.Adapter.DispatchContent` | src/hooks/usePersistence.ts:58-61 | the reducer runs, then the content save, exactly as `ContentStep` |
| `Persistence.Adapter.LoadData` | src/hooks/usePersistence.ts:17-40 | the reads in order, each applied by a dispatch, stopping at the first that throws, exactly as `Load` |

## Findings

| source | as written | input that shows it | evidently intended | confidence | as-written member | corrected member |
|---|---|---|---|---|---|---|
| src/db/db.ts:5-15 | the database class and its schema declare only `logs` and `user_profile`, yet src/hooks/usePersistence.ts:33 and :60 use `db.content`, which does not exist. The read at :33 throws inside the `try` and is swallowed. The write at :60 throws a TypeError synchronously inside an effect, which nothing catches; the model treats that write as writing nothing | add a dua, then restart the app | the content record is stored under key 1 and restored at the next start-up; the corrected half also assumes the load runs before any save (next row) | not executed; relies on Dexie exposing only declared tables as properties | `Persistence.ContentLostOnReload` | `Persistence.ContentSurvivesReload` |
| src/hooks/usePersistence.ts:51-56 | the log save effect also runs on the first render, with the empty scaffold for today. It writes the scaffold under today's date before the load sends `db.logs.get(today)` at :27, which is sent only after the settings read returns. The load then reads the scaffold back, so the log stored for today is replaced on every start-up. The content save at :58-61 does the same to the stored content, when the table exists | record a prayer, then restart the app on the same day | the load reads the stored records before any save writes over them | not executed; relies on IndexedDB running the log write, issued first, before the later read of the same table | `Persistence.MountWipesTodaysLog` | `Persistence.StartUpRestores` |

## Left out

- Rendering, layout, theming and routing: the markup of every page, `App.tsx`, `LandingPage.tsx`, `main.tsx` and `theme.ts`.
- Prayer-time computation by the `adhan` library, with its calculation-method and madhab lookup. The five times are integer inputs to `Dashboard.NextPrayerAt`.
- Date handling:
  - Hijri and Gregorian date formatting is left out.
  - The UTC "today" string is a parameter. The scaffold's date is computed once, when the slice module is evaluated, and the load computes its own; the model takes both to be the same date, so a start-up across midnight is not modelled.
- Dexie and IndexedDB themselves. The store is three maps, and `first()` is the least-key lookup.
  - A read that throws is an input (`failing`).
  - A failed or rejected `put` is not modelled.
- Dispatch batching: each save runs after each dispatch, where React runs it once per batch on the final state. A settings batch that passes through a completed state and ends incomplete writes an intermediate settings record in the model and none in the app. A log batch that changes the log and then its date writes the changed log under the old date in the model and not in the app. No page dispatches either kind of batch.
- Unchanged references: the save effects run only when the slice object changes, and the reducers return the same object for a no-op (`completeSetup` when already complete, `updatePrayer` on an absent Taraweeh entry). The model saves after every dispatch. In every state the hook reaches after `Mount` the stored record already equals the slice, so the extra save leaves the store as it was.
- Persistence.SaveContent: without the content table, `db.content.put` throws a TypeError synchronously inside a React effect. The `try` of the load does not cover it, and with no error boundary React would unmount the app. The model treats that write as leaving the store unchanged and does not model the uncaught error.
- The extra `id: 1` field: it is added to saved settings and content, and merged into the settings slice, and carried into the content slice, on load. It is dropped in this typed model.
- Patches are typed: a key is either absent or present with a value. A key present with the value `undefined`, which the spread would copy, is not modelled.
- Malformed stored records, for example after a schema change, are not modelled: a stored record always has the slice's type.
- React effect scheduling and `async`/`await`:
  - The load is a sequential method, and each save runs right after its change.
  - The first run of the save effects is modelled as complete before the load, which matches what every read but the first sees (see `Persistence.Mount`). Finer interleavings of the load's reads with the writes are not modelled.
  - Dispatches from the UI during the load, and out-of-order completion of writes, are not modelled.
- Number widths:
  - `waterCount` and the Quran progress numbers are unbounded integers. JavaScript's floating-point numbers lose precision above 2^53; that is not modelled.
  - `sleepHours`, `lat` and `lng` are reals and are never computed on.
- Browser calls: geolocation, `alert` and `confirm` in the setup and settings pages.
- Page-local UI state: the `Date.now()` dua id, the focus-mode index, and the Quran page's percentage and `parseInt` fallback.
- The journal habit switches: they are not wired to `habitsAvoided`, and no reducer updates that list.
