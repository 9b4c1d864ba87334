/**
  The two rules the dashboard page applies to the daily log: which prayer is
  announced as the next one, and what tapping a prayer's button records.
  Prayer times are instants given as integers (they come from an astronomical
  library that is not part of this model).
*/
module Dashboard {
  import opened Wrappers
  import opened DailyLog

  /** Today's five obligatory prayer times. */
  datatype PrayerTimes = PrayerTimes(fajr: int, dhuhr: int, asr: int, maghrib: int, isha: int)

  datatype NextPrayer = NextPrayer(name: Prayer, time: int)

  /** The prayers the cascade visits, in the order it visits them. */
  const Order: seq<Prayer> := [Fajr, Dhuhr, Asr, Maghrib, Isha]

  /** The time of one of the five obligatory prayers. */
  function TimeOf(t: PrayerTimes, k: Prayer): int
    requires k != Taraweeh
  {
    match k
    case Fajr => t.fajr
    case Dhuhr => t.dhuhr
    case Asr => t.asr
    case Maghrib => t.maghrib
    case Isha => t.isha
  }

  /**
    The next-prayer cascade: the first prayer in the order Fajr, Dhuhr, Asr,
    Maghrib, Isha whose time is strictly after `now`; when there is none, Fajr
    with today's Fajr time. The order decides, not which time is earliest.
  */
  function NextPrayerAt(t: PrayerTimes, now: int): (r: NextPrayer)
    ensures r.name in Order && r.time == TimeOf(t, r.name)
    ensures forall i :: 0 <= i < |Order| && Order[i] == r.name && now < r.time ==>
              forall j :: 0 <= j < i ==> TimeOf(t, Order[j]) <= now
    ensures (exists i :: 0 <= i < |Order| && now < TimeOf(t, Order[i])) ==> now < r.time
    ensures (forall i :: 0 <= i < |Order| ==> TimeOf(t, Order[i]) <= now) ==> r == NextPrayer(Fajr, t.fajr)
  {
    if now < t.fajr then NextPrayer(Fajr, t.fajr)
    else if now < t.dhuhr then NextPrayer(Dhuhr, t.dhuhr)
    else if now < t.asr then NextPrayer(Asr, t.asr)
    else if now < t.maghrib then NextPrayer(Maghrib, t.maghrib)
    else if now < t.isha then NextPrayer(Isha, t.isha)
    else NextPrayer(Fajr, t.fajr)
  }

  /** Before Fajr, the next prayer is Fajr at its own time. */
  lemma BeforeFajr(t: PrayerTimes, now: int)
    requires now < t.fajr
    ensures NextPrayerAt(t, now) == NextPrayer(Fajr, t.fajr)
  {
  }

  /**
    A prayer whose time is exactly `now` is skipped, since the comparison is
    strict; it can only be announced as the fallback Fajr once every time has come.
  */
  lemma AtPrayerTimeIsSkipped(t: PrayerTimes, now: int, i: nat)
    requires i < |Order| && TimeOf(t, Order[i]) == now
    ensures NextPrayerAt(t, now).name == Order[i] ==>
      i == 0 && forall j :: 0 <= j < |Order| ==> TimeOf(t, Order[j]) <= now
  {
  }

  /**
    On a day whose times are in the usual order, from Isha onwards the page
    announces Fajr at today's Fajr time, which has already passed.
  */
  lemma AfterIshaIsPastFajr(t: PrayerTimes, now: int)
    requires t.fajr <= t.dhuhr <= t.asr <= t.maghrib <= t.isha <= now
    ensures NextPrayerAt(t, now) == NextPrayer(Fajr, t.fajr)
    ensures NextPrayerAt(t, now).time <= now
  {
    assert forall i :: 0 <= i < |Order| ==> TimeOf(t, Order[i]) <= now;
  }

  /**
    The payload a tap records: a prayed prayer goes back to pending, a pending
    or missed one (or one with no entry) becomes prayed; jamaah is always cleared.
  */
  function Toggle(current: Option<PrayerStatus>): (r: PrayerStatus)
    ensures !r.jamaah
    ensures r.status == Pending <==> current.Some? && current.value.status == Prayed
    ensures r.status == Prayed <==> !(current.Some? && current.value.status == Prayed)
  {
    var isPrayed := current.Some? && current.value.status == Prayed;
    PrayerStatus(if isPrayed then Pending else Prayed, false)
  }

  /** The log after tapping the button of prayer `k`. */
  function Tap(log: DailyLogState, k: Prayer): (r: DailyLogState)
    requires k in Order
    ensures StatusOf(r.prayers, k) == Some(Toggle(StatusOf(log.prayers, k)))
    ensures Diff(log, r) <= {PrayerOf(k)}
  {
    DailyLog.Reduce(log, UpdatePrayerAction(k, Toggle(StatusOf(log.prayers, k))))
  }

  /**
    Two taps bring a prayed prayer back to prayed and any other to pending, and
    the jamaah flag is lost either way: a missed prayer does not return to missed.
  */
  lemma TapTwice(log: DailyLogState, k: Prayer)
    requires k in Order
    ensures var before := StatusOf(log.prayers, k).value;
      StatusOf(Tap(Tap(log, k), k).prayers, k) ==
        Some(PrayerStatus(if before.status == Prayed then Prayed else Pending, false))
  {
    var once := Tap(log, k);
    assert StatusOf(once.prayers, k) == Some(Toggle(StatusOf(log.prayers, k)));
  }

  /** A missed prayer tapped twice ends up pending. */
  lemma MissedTappedTwiceIsPending(log: DailyLogState, k: Prayer)
    requires k in Order && StatusOf(log.prayers, k).Some? && StatusOf(log.prayers, k).value.status == Missed
    ensures StatusOf(Tap(Tap(log, k), k).prayers, k) == Some(PrayerStatus(Pending, false))
  {
    TapTwice(log, k);
  }
}
