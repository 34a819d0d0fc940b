/**
  The casual-transaction batch: for today and each of the five days before
  it, a number of drawn parking events; each event enters at a drawn time
  of day, stays a drawn number of minutes, and becomes one transaction row
  unless it would end after "now".
*/
module CasualSeeding {
  import opened Options
  import opened CalendarMath
  import opened Identifiers
  import opened Fees
  import opened Records

  /** Days before today covered by the batch. */
  const DAYS_BACK := 5

  /** The three-way split that picks the entry hour. */
  datatype HourBand = MorningRush | AfternoonRush | OpenHours

  /** The two-way split that picks the length of a stay. */
  datatype StayKind = ShortStay | LongStay

  /** Every draw made for one event. */
  datatype EventDraw = EventDraw(
    band: HourBand,
    hourIn: int,
    minuteIn: int,
    secondIn: int,
    stay: StayKind,
    durationMinutes: int,
    plate: PlateDraw,
    card: (Byte, Byte, Byte, Byte))

  predicate ValidEventDraw(e: EventDraw) {
    && (match e.band
        case MorningRush => 7 <= e.hourIn <= 9
        case AfternoonRush => 13 <= e.hourIn <= 15
        case OpenHours => 7 <= e.hourIn <= 21)
    && 0 <= e.minuteIn <= 59
    && 0 <= e.secondIn <= 59
    && (match e.stay
        case ShortStay => 30 <= e.durationMinutes <= 120
        case LongStay => 240 <= e.durationMinutes <= 540)
    && ValidPlateDraw(e.plate)
  }

  /** The four bytes of `generate_hex_card_id`, in drawing order. */
  function CardBytes(card: (Byte, Byte, Byte, Byte)): (bytes: seq<Byte>)
    ensures |bytes| == 4
  {
    [card.0, card.1, card.2, card.3]
  }

  predicate IsWeekend(t: int) {
    Weekday(t) >= 5
  }

  /** `daily_cars`: 30..50 events on a Saturday or Sunday, 15..30 otherwise. */
  predicate ValidDailyCount(day: int, count: int) {
    if IsWeekend(day) then 30 <= count <= 50 else 15 <= count <= 30
  }

  /** `now - timedelta(days=i)`. */
  function DayTime(now: int, i: int): int {
    now - i * SECONDS_PER_DAY
  }

  /** The day `days[k]` of a batch is for: `k` runs forward while `i` counts down. */
  function DayOfBatch(now: int, k: int): int {
    DayTime(now, DAYS_BACK - k)
  }

  /** The draws for a whole batch: one sequence of events per day, oldest day first. */
  predicate ValidBatchDraws(now: int, days: seq<seq<EventDraw>>) {
    && |days| == DAYS_BACK + 1
    && (forall k :: 0 <= k < |days| ==> ValidDailyCount(DayOfBatch(now, k), |days[k]|))
    && (forall k, j :: 0 <= k < |days| && 0 <= j < |days[k]| ==> ValidEventDraw(days[k][j]))
  }

  /** `current_date.replace(hour=.., minute=.., second=..)`. */
  function EntryTime(current: int, e: EventDraw): int {
    current - current % SECONDS_PER_DAY + e.hourIn * 3600 + e.minuteIn * 60 + e.secondIn
  }

  function ExitTime(current: int, e: EventDraw): int {
    EntryTime(current, e) + e.durationMinutes * 60
  }

  /** The row inserted for an event that is kept. */
  function EventRow(current: int, hourlyFee: int, e: EventDraw): Transaction {
    Transaction(
      GenerateHexCardId(CardBytes(e.card)),
      GenerateVietnamPlate(e.plate),
      EntryTime(current, e),
      ExitTime(current, e),
      CasualFee(e.durationMinutes, hourlyFee),
      PLACEHOLDER_SNAPSHOT,
      PLACEHOLDER_SNAPSHOT,
      SEED_USER)
  }

  predicate Kept(now: int, current: int, e: EventDraw) {
    ExitTime(current, e) <= now
  }

  /** Rows for the events of one day: those ending after `now` are skipped. */
  function DayRows(now: int, current: int, hourlyFee: int, events: seq<EventDraw>): seq<Transaction> {
    if events == [] then []
    else
      var last := events[|events| - 1];
      DayRows(now, current, hourlyFee, events[..|events| - 1])
        + (if Kept(now, current, last) then [EventRow(current, hourlyFee, last)] else [])
  }

  /** Rows for the first `|days|` days of a batch, oldest day first. */
  function BatchRows(now: int, hourlyFee: int, days: seq<seq<EventDraw>>): seq<Transaction> {
    if days == [] then []
    else
      BatchRows(now, hourlyFee, days[..|days| - 1])
        + DayRows(now, DayOfBatch(now, |days| - 1), hourlyFee, days[|days| - 1])
  }

  /** The run aborts (Python raises `OverflowError`) when a day or an exit
      time falls outside the range of `datetime`. */
  predicate BatchOverflows(now: int, days: seq<seq<EventDraw>>) {
    || now < DAYS_BACK * SECONDS_PER_DAY
    || exists k :: 0 <= k < |days| && DayOverflows(DayOfBatch(now, k), days[k])
  }

  /** Some event of the day starting at `current` would leave after the last `datetime`. */
  predicate DayOverflows(current: int, events: seq<EventDraw>) {
    exists j :: 0 <= j < |events| && ExitTime(current, events[j]) > MAX_SECONDS
  }

  /** What every generated transaction satisfies. */
  predicate SeededRow(now: int, hourlyFee: int, t: Transaction) {
    && t.entryTime < t.exitTime <= now
    && (t.exitTime - t.entryTime) % 60 == 0
    && t.fee == CasualFee((t.exitTime - t.entryTime) / 60, hourlyFee)
    && (hourlyFee >= 0 ==> t.fee >= hourlyFee)
    && t.securityUser == SEED_USER
    && t.entrySnapshot == PLACEHOLDER_SNAPSHOT && t.exitSnapshot == PLACEHOLDER_SNAPSHOT
    && IsCardCode(t.cardId)
    && (IsDottedPlate(t.licensePlate) || IsPlainPlate(t.licensePlate))
  }

  lemma EventRowIsSeeded(now: int, current: int, hourlyFee: int, e: EventDraw)
    requires ValidEventDraw(e) && Kept(now, current, e)
    ensures SeededRow(now, hourlyFee, EventRow(current, hourlyFee, e))
  {
    var t := EventRow(current, hourlyFee, e);
    var minutes := e.durationMinutes;
    assert t.exitTime - t.entryTime == minutes * 60;
    assert (t.exitTime - t.entryTime) % 60 == 0 && t.fee == CasualFee((t.exitTime - t.entryTime) / 60, hourlyFee) by {
      assert (minutes * 60) / 60 == minutes && (minutes * 60) % 60 == 0;
    }
    assert hourlyFee >= 0 ==> t.fee >= hourlyFee by {
      if hourlyFee >= 0 {
        CasualFeeBounds(minutes, hourlyFee);
      }
    }
    assert IsCardCode(t.cardId) by {
      CardCodeShape(CardBytes(e.card));
    }
    assert IsDottedPlate(t.licensePlate) || IsPlainPlate(t.licensePlate) by {
      PlateRoundTrip(e.plate);
    }
  }

  /** Every row of a day's events ends after it starts, no later than `now`,
      and carries the fee for its length, the seed tag and well-formed identifiers. */
  lemma {:induction false} DayRowsAreSeeded(now: int, current: int, hourlyFee: int, events: seq<EventDraw>)
    requires forall j :: 0 <= j < |events| ==> ValidEventDraw(events[j])
    ensures forall t :: t in DayRows(now, current, hourlyFee, events) ==> SeededRow(now, hourlyFee, t)
  {
    if events != [] {
      var last := events[|events| - 1];
      DayRowsAreSeeded(now, current, hourlyFee, events[..|events| - 1]);
      if Kept(now, current, last) {
        EventRowIsSeeded(now, current, hourlyFee, last);
      }
    }
  }

  /** A day yields one row per event that ends by `now` and none for the others. */
  lemma {:induction false} DayRowsCount(now: int, current: int, hourlyFee: int, events: seq<EventDraw>)
    ensures |DayRows(now, current, hourlyFee, events)| == KeptCount(now, current, events)
  {
    if events != [] {
      var init, last := events[..|events| - 1], events[|events| - 1];
      var rows, initRows := DayRows(now, current, hourlyFee, events), DayRows(now, current, hourlyFee, init);
      assert rows == initRows + (if Kept(now, current, last) then [EventRow(current, hourlyFee, last)] else []);
      DayRowsCount(now, current, hourlyFee, init);
      assert events == init + [last];
      assert KeptCount(now, current, events) == KeptCount(now, current, init) + if Kept(now, current, last) then 1 else 0 by {
        CountLast(init, last, e => Kept(now, current, e));
      }
    }
  }

  /** The number of events of a day that end by `now`. */
  function KeptCount(now: int, current: int, events: seq<EventDraw>): nat {
    Count(events, e => Kept(now, current, e))
  }

  lemma CountLast<T(!new)>(init: seq<T>, last: T, p: T -> bool)
    ensures Count(init + [last], p) == Count(init, p) + if p(last) then 1 else 0
  {
    FilterAppend(init, [last], p);
    assert Filter([last], p) == if p(last) then [last] else [];
  }

  /** Every row of the whole batch satisfies `SeededRow`. */
  lemma {:induction false} BatchRowsAreSeeded(now: int, hourlyFee: int, days: seq<seq<EventDraw>>)
    requires forall k, j :: 0 <= k < |days| && 0 <= j < |days[k]| ==> ValidEventDraw(days[k][j])
    ensures forall t :: t in BatchRows(now, hourlyFee, days) ==> SeededRow(now, hourlyFee, t)
  {
    if days != [] {
      BatchRowsAreSeeded(now, hourlyFee, days[..|days| - 1]);
      DayRowsAreSeeded(now, DayOfBatch(now, |days| - 1), hourlyFee, days[|days| - 1]);
    }
  }

  /** A batch never holds more rows than events were drawn: at most 50 a day. */
  lemma {:induction false} BatchRowsBound(now: int, hourlyFee: int, days: seq<seq<EventDraw>>)
    requires forall k :: 0 <= k < |days| ==> |days[k]| <= 50
    ensures |BatchRows(now, hourlyFee, days)| <= 50 * |days|
  {
    if days != [] {
      var k := |days| - 1;
      BatchRowsBound(now, hourlyFee, days[..k]);
      DayRowsCount(now, DayOfBatch(now, k), hourlyFee, days[k]);
    }
  }

  /** The events of a day are processed in order: one more event adds at most its own row. */
  lemma DayRowsStep(now: int, current: int, hourlyFee: int, events: seq<EventDraw>, j: int)
    requires 0 <= j < |events|
    ensures DayRows(now, current, hourlyFee, events[..j + 1])
         == DayRows(now, current, hourlyFee, events[..j])
            + (if Kept(now, current, events[j]) then [EventRow(current, hourlyFee, events[j])] else [])
  {
    assert events[..j + 1][..j] == events[..j];
  }

  /** Days are processed oldest first: one more day appends that day's rows. */
  lemma BatchRowsStep(now: int, hourlyFee: int, days: seq<seq<EventDraw>>, k: int)
    requires 0 <= k < |days|
    ensures BatchRows(now, hourlyFee, days[..k + 1])
         == BatchRows(now, hourlyFee, days[..k]) + DayRows(now, DayOfBatch(now, k), hourlyFee, days[k])
  {
    assert days[..k + 1][..k] == days[..k];
  }
}
