/**
  The daily-log slice: one day's prayers, wellness counters and journal,
  with the slice's four reducers as functions from the old state to the new one.
*/
module DailyLog {
  import opened Wrappers

  datatype Status = Prayed | Missed | Pending

  datatype PrayerStatus = PrayerStatus(status: Status, jamaah: bool)

  /** The keys of the `prayers` record; only `Taraweeh` is optional. */
  datatype Prayer = Fajr | Dhuhr | Asr | Maghrib | Isha | Taraweeh

  const AllPrayers: set<Prayer> := {Fajr, Dhuhr, Asr, Maghrib, Isha, Taraweeh}

  datatype Prayers = Prayers(
    fajr: PrayerStatus,
    dhuhr: PrayerStatus,
    asr: PrayerStatus,
    maghrib: PrayerStatus,
    isha: PrayerStatus,
    taraweeh: Option<PrayerStatus>)

  /**
    `waterCount` is a JavaScript number that only ever grows by one; it is an
    unbounded integer here. `sleepHours` is stored and never computed on.
  */
  datatype Wellness = Wellness(waterCount: int, sleepHours: real)

  datatype Journal = Journal(intention: string, reflection: string, mood: string, habitsAvoided: seq<string>)

  datatype DailyLogState = DailyLogState(
    date: string,       // the day's key, `YYYY-MM-DD`
    hijriDate: string,
    prayers: Prayers,
    wellness: Wellness,
    journal: Journal,
    sunnahDidDo: bool)

  /** A partial journal record: None where the key is absent. */
  datatype JournalPatch = JournalPatch(
    intention: Option<string>,
    reflection: Option<string>,
    mood: Option<string>,
    habitsAvoided: Option<seq<string>>)

  /** The actions the slice accepts, one per reducer. */
  datatype Action =
    | SetDailyLogAction(log: DailyLogState)
    | UpdatePrayerAction(prayer: Prayer, status: PrayerStatus)
    | IncrementWaterAction
    | UpdateJournalAction(patch: JournalPatch)

  /** The names of the slice's fields, down to each prayer and each journal entry. */
  datatype Field =
    | Date | HijriDate | PrayerOf(prayer: Prayer) | WaterCount | SleepHours
    | Intention | Reflection | Mood | HabitsAvoided | SunnahDidDo

  /** The status recorded under a prayer key; None when the optional key is absent. */
  function StatusOf(p: Prayers, k: Prayer): Option<PrayerStatus> {
    match k
    case Fajr => Some(p.fajr)
    case Dhuhr => Some(p.dhuhr)
    case Asr => Some(p.asr)
    case Maghrib => Some(p.maghrib)
    case Isha => Some(p.isha)
    case Taraweeh => p.taraweeh
  }

  /** Assigns `st` under key `k`. */
  function WithStatus(p: Prayers, k: Prayer, st: PrayerStatus): (r: Prayers)
    ensures StatusOf(r, k) == Some(st)
    ensures forall j :: j != k ==> StatusOf(r, j) == StatusOf(p, j)
  {
    match k
    case Fajr => p.(fajr := st)
    case Dhuhr => p.(dhuhr := st)
    case Asr => p.(asr := st)
    case Maghrib => p.(maghrib := st)
    case Isha => p.(isha := st)
    case Taraweeh => p.(taraweeh := Some(st))
  }

  /** The fields on which two logs differ. */
  function Diff(s: DailyLogState, t: DailyLogState): (fs: set<Field>)
    ensures fs == {} <==> s == t
  {
    (if s.date != t.date then {Date} else {}) +
    (if s.hijriDate != t.hijriDate then {HijriDate} else {}) +
    (if s.prayers.fajr != t.prayers.fajr then {PrayerOf(Fajr)} else {}) +
    (if s.prayers.dhuhr != t.prayers.dhuhr then {PrayerOf(Dhuhr)} else {}) +
    (if s.prayers.asr != t.prayers.asr then {PrayerOf(Asr)} else {}) +
    (if s.prayers.maghrib != t.prayers.maghrib then {PrayerOf(Maghrib)} else {}) +
    (if s.prayers.isha != t.prayers.isha then {PrayerOf(Isha)} else {}) +
    (if s.prayers.taraweeh != t.prayers.taraweeh then {PrayerOf(Taraweeh)} else {}) +
    (if s.wellness.waterCount != t.wellness.waterCount then {WaterCount} else {}) +
    (if s.wellness.sleepHours != t.wellness.sleepHours then {SleepHours} else {}) +
    (if s.journal.intention != t.journal.intention then {Intention} else {}) +
    (if s.journal.reflection != t.journal.reflection then {Reflection} else {}) +
    (if s.journal.mood != t.journal.mood then {Mood} else {}) +
    (if s.journal.habitsAvoided != t.journal.habitsAvoided then {HabitsAvoided} else {}) +
    (if s.sunnahDidDo != t.sunnahDidDo then {SunnahDidDo} else {})
  }

  /** The journal fields whose keys a patch carries. */
  function Patched(p: JournalPatch): set<Field> {
    (if p.intention.Some? then {Intention} else {}) +
    (if p.reflection.Some? then {Reflection} else {}) +
    (if p.mood.Some? then {Mood} else {}) +
    (if p.habitsAvoided.Some? then {HabitsAvoided} else {})
  }

  /**
    `t` agrees with `s` on the fields only `setDailyLog` may change: the date,
    the Hijri date, the sleep hours and the sunnah flag.
  */
  predicate SameIdentity(s: DailyLogState, t: DailyLogState) {
    s.date == t.date && s.hijriDate == t.hijriDate &&
    s.wellness.sleepHours == t.wellness.sleepHours && s.sunnahDidDo == t.sunnahDidDo
  }

  /**
    The scaffold the slice starts from: the log for `today` (the UTC calendar
    date at start-up, given here as a parameter) with nothing recorded yet.
  */
  function Initial(today: string): (r: DailyLogState)
    ensures r.date == today && r.hijriDate == ""
    ensures forall k :: k in AllPrayers && k != Taraweeh ==> StatusOf(r.prayers, k) == Some(PrayerStatus(Pending, false))
    ensures StatusOf(r.prayers, Taraweeh) == None
    ensures r.wellness.waterCount == 0 && r.wellness.sleepHours == 0.0
    ensures r.journal.intention == "" && r.journal.reflection == "" && r.journal.mood == ""
    ensures r.journal.habitsAvoided == [] && !r.sunnahDidDo
  {
    var none := PrayerStatus(Pending, false);
    DailyLogState(today, "", Prayers(none, none, none, none, none, None), Wellness(0, 0.0), Journal("", "", "", []), false)
  }

  /**
    `updatePrayer`: replaces the status under a key that is present, and does
    nothing when the key is absent, so the optional Taraweeh entry is never created.
  */
  function UpdatePrayer(s: DailyLogState, k: Prayer, st: PrayerStatus): (r: DailyLogState)
    ensures StatusOf(r.prayers, k) == if StatusOf(s.prayers, k).Some? then Some(st) else None
    ensures Diff(s, r) <= {PrayerOf(k)}
  {
    if StatusOf(s.prayers, k).Some? then s.(prayers := WithStatus(s.prayers, k, st)) else s
  }

  /** `incrementWater`: one more cup. */
  function IncrementWater(s: DailyLogState): (r: DailyLogState)
    ensures r.wellness.waterCount == s.wellness.waterCount + 1
    ensures Diff(s, r) == {WaterCount}
  {
    s.(wellness := s.wellness.(waterCount := s.wellness.waterCount + 1))
  }

  /** `updateJournal`: the spread `{ ...state.journal, ...patch }`. */
  function UpdateJournal(s: DailyLogState, p: JournalPatch): (r: DailyLogState)
    ensures Diff(s, r) <= Patched(p)
    ensures p.intention.Some? ==> r.journal.intention == p.intention.value
    ensures p.reflection.Some? ==> r.journal.reflection == p.reflection.value
    ensures p.mood.Some? ==> r.journal.mood == p.mood.value
    ensures p.habitsAvoided.Some? ==> r.journal.habitsAvoided == p.habitsAvoided.value
  {
    s.(journal := Journal(
      p.intention.GetOr(s.journal.intention),
      p.reflection.GetOr(s.journal.reflection),
      p.mood.GetOr(s.journal.mood),
      p.habitsAvoided.GetOr(s.journal.habitsAvoided)))
  }

  /**
    The slice reducer. `setDailyLog` replaces the whole log; every other action
    keeps the date, the Hijri date, the sleep hours and the sunnah flag, never
    lowers the water count and never creates the Taraweeh entry.
  */
  function Reduce(s: DailyLogState, a: Action): (r: DailyLogState)
    ensures a.SetDailyLogAction? ==> r == a.log
    ensures !a.SetDailyLogAction? ==> SameIdentity(s, r)
    ensures !a.SetDailyLogAction? ==> r.wellness.waterCount >= s.wellness.waterCount
    ensures !a.SetDailyLogAction? && StatusOf(s.prayers, Taraweeh) == None ==> StatusOf(r.prayers, Taraweeh) == None
  {
    match a
    case SetDailyLogAction(log) => log
    case UpdatePrayerAction(k, st) => UpdatePrayer(s, k, st)
    case IncrementWaterAction => IncrementWater(s)
    case UpdateJournalAction(p) => UpdateJournal(s, p)
  }

  /** The state after dispatching `acts` in order. */
  function ReduceAll(s: DailyLogState, acts: seq<Action>): DailyLogState
    decreases |acts|
  {
    if acts == [] then s else ReduceAll(Reduce(s, acts[0]), acts[1..])
  }

  /** True when no action in `acts` is a `setDailyLog`. */
  predicate NoReplacement(acts: seq<Action>) {
    forall i :: 0 <= i < |acts| ==> !acts[i].SetDailyLogAction?
  }

  /**
    Without `setDailyLog`, any run of actions keeps the day's identity fields and
    never lowers the water count.
  */
  lemma {:induction false} RunKeepsIdentity(s: DailyLogState, acts: seq<Action>)
    requires NoReplacement(acts)
    ensures var r := ReduceAll(s, acts);
      SameIdentity(s, r) && r.wellness.waterCount >= s.wellness.waterCount
    decreases |acts|
  {
    if acts != [] {
      var s1 := Reduce(s, acts[0]);
      assert NoReplacement(acts[1..]) by {
        forall i | 0 <= i < |acts[1..]| ensures !acts[1..][i].SetDailyLogAction? {
          assert acts[1..][i] == acts[i + 1];
        }
      }
      RunKeepsIdentity(s1, acts[1..]);
    }
  }

  /** From the start-of-day scaffold, the water count is never negative without `setDailyLog`. */
  lemma WaterNeverNegative(today: string, acts: seq<Action>)
    requires NoReplacement(acts)
    ensures ReduceAll(Initial(today), acts).wellness.waterCount >= 0
    ensures ReduceAll(Initial(today), acts).date == today
  {
    RunKeepsIdentity(Initial(today), acts);
  }

  /** An update of the absent Taraweeh entry leaves the log as it was. */
  lemma TaraweehAbsentIsNoOp(s: DailyLogState, st: PrayerStatus)
    requires StatusOf(s.prayers, Taraweeh) == None
    ensures UpdatePrayer(s, Taraweeh, st) == s
  {
  }

  lemma UpdateJournalIdempotent(s: DailyLogState, p: JournalPatch)
    ensures UpdateJournal(UpdateJournal(s, p), p) == UpdateJournal(s, p)
  {
  }
}
