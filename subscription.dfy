/**
  Subscription seeding: every roster card is upserted as an active monthly
  card expiring one month from now, and gets one payment per calendar month
  for the current month and the months before it.
*/
module SubscriptionSeeding {
  import opened Options
  import opened Numerals
  import opened CalendarMath
  import opened Records

  /** `month_count`'s default, the one the generator uses. */
  const DEFAULT_MONTH_COUNT := 6

  const MONTHLY_TICKET := "monthly"
  const ACTIVE := "active"

  /** Subscription cards are shown as created this many days ago. */
  const CREATED_DAYS_AGO := 200

  /** The draws behind one payment time: day 1..5, hour 8..17, minute 0..59. */
  datatype PaymentDraw = PaymentDraw(day: int, hour: int, minute: int)

  predicate ValidPaymentDraw(d: PaymentDraw) {
    1 <= d.day <= 5 && 8 <= d.hour <= 17 && 0 <= d.minute <= 59
  }

  /**
    The borrow loop of the month walk: `i` months before `month` of `year`,
    found by stepping back twelve months at a time into the previous year.
  */
  method MonthBack(year: int, month: int, i: int) returns (y: int, m: int)
    requires 1 <= month <= 12 && i >= 0
    ensures 1 <= m <= 12
    ensures MonthIndex(y, m) == MonthIndex(year, month) - i
  {
    m := month - i;
    y := year;
    while m <= 0
      invariant m <= 12
      invariant MonthIndex(y, m) == MonthIndex(year, month) - i
      decreases -m
    {
      m := m + 12;
      y := y - 1;
    }
  }

  /** `f"{year:04d}-{month:02d}"` */
  function MonthLabel(year: nat, month: nat): string {
    ZeroPadded(year, 4) + "-" + ZeroPadded(month, 2)
  }

  /** Reads a `YYYY-MM` label back into its year and month. */
  function ParseMonthLabel(s: string): Option<(int, int)> {
    if |s| == 7 && AllDigits(s[..4]) && s[4] == '-' && AllDigits(s[5..]) then
      Some((Value(s[..4]), Value(s[5..])))
    else
      None
  }

  /** A label has the `YYYY-MM` shape and names its year and month. */
  lemma MonthLabelRoundTrip(year: nat, month: nat)
    requires 1 <= year <= 9999 && 1 <= month <= 12
    ensures |MonthLabel(year, month)| == 7 && MonthLabel(year, month)[4] == '-'
    ensures ParseMonthLabel(MonthLabel(year, month)) == Some((year, month))
  {
    ZeroPaddedRoundTrip(year, 4);
    ZeroPaddedRoundTrip(month, 2);
    var y, m := ZeroPadded(year, 4), ZeroPadded(month, 2);
    var s := MonthLabel(year, month);
    assert s == y + "-" + m;
    assert s[..4] == y && s[5..] == m;
  }

  /** Different months have different labels. */
  lemma MonthLabelInjective(y1: nat, m1: nat, y2: nat, m2: nat)
    requires 1 <= y1 <= 9999 && 1 <= m1 <= 12 && 1 <= y2 <= 9999 && 1 <= m2 <= 12
    requires (y1, m1) != (y2, m2)
    ensures MonthLabel(y1, m1) != MonthLabel(y2, m2)
  {
    MonthLabelRoundTrip(y1, m1);
    MonthLabelRoundTrip(y2, m2);
  }

  /** The month walk stays within the years a `datetime` can hold: its oldest
      month is not before January of year 1 (Python raises `ValueError` for
      the first payment that would fall before it). */
  predicate WalkFits(start: Date, monthCount: int) {
    monthCount <= 0 || MonthIndex(start.year, start.month) - (monthCount - 1) >= MonthIndex(MIN_YEAR, 1)
  }

  /** Draws for every roster card: at least one valid draw per seeded month. */
  predicate ValidPaymentDraws(draws: seq<seq<PaymentDraw>>, monthCount: int) {
    && |draws| == |VIP_CARDS|
    && (forall k :: 0 <= k < |draws| ==> RowCount(monthCount) <= |draws[k]|)
    && (forall k, i :: 0 <= k < |draws| && 0 <= i < |draws[k]| ==> ValidPaymentDraw(draws[k][i]))
  }

  /** The subscription stage raises for no card: `created_at` is not before
      year 1, the expiry month is not after year 9999, and the month walk fits. */
  predicate SubscriptionFits(now: DateTime, monthCount: int)
    requires ValidDate(now.date)
  {
    && ToSeconds(now) >= CREATED_DAYS_AGO * SECONDS_PER_DAY
    && AddMonths(now.date, 1).Some?
    && WalkFits(now.date, monthCount)
  }

  /**
    Once `created_at` (200 days back) is not before year 1, a walk of up to
    seven months cannot leave year 1 either: `now` is then in July of year 1
    or later. So with six months the walk check never fails on its own.
  */
  lemma CreatedAtCoversWalk(now: DateTime, monthCount: int)
    requires ValidDateTime(now) && ToSeconds(now) >= CREATED_DAYS_AGO * SECONDS_PER_DAY
    requires monthCount <= 7
    ensures WalkFits(now.date, monthCount)
  {
    var d := now.date;
    if d.year == 1 && d.month <= 6 {
      FirstHalfOfYearOne(d.month);
      assert false;
    }
  }

  /** January to June of year 1 end by day 181. */
  lemma FirstHalfOfYearOne(month: int)
    requires 1 <= month <= 6
    ensures DaysBeforeMonth(1, month) + DaysInMonth(1, month) <= 181
  {
    assert month in {1, 2, 3, 4, 5, 6};
  }

  function RowCount(monthCount: int): nat {
    if monthCount < 0 then 0 else monthCount
  }

  /** The row `INSERT INTO monthly_payments` writes for month `m` of year `year`. */
  function MonthPayment(cardId: string, monthlyFee: int, year: nat, m: nat, d: PaymentDraw): MonthlyPayment {
    MonthlyPayment(cardId, MonthLabel(year, m), monthlyFee, DateTime(Date(year, m, d.day), d.hour, d.minute, 0))
  }

  /** The payment for the month with index `index`. */
  function PaymentRow(cardId: string, monthlyFee: int, index: int, d: PaymentDraw): MonthlyPayment
    requires index >= MonthIndex(MIN_YEAR, 1)
  {
    var (y, m) := MonthOf(index);
    MonthPayment(cardId, monthlyFee, y, m, d)
  }

  /** The payment for the month with index `index` is the one for its year and month. */
  lemma PaymentRowAt(cardId: string, monthlyFee: int, index: int, y: nat, m: nat, d: PaymentDraw)
    requires 1 <= m <= 12 && y >= MIN_YEAR && MonthIndex(y, m) == index
    ensures index >= MonthIndex(MIN_YEAR, 1)
    ensures PaymentRow(cardId, monthlyFee, index, d) == MonthPayment(cardId, monthlyFee, y, m, d)
  {
    MonthOfIndex(y, m);
  }

  /** A payment row is for its card, month and fee, paid on a drawn day and hour. */
  lemma PaymentRowFacts(cardId: string, monthlyFee: int, index: int, d: PaymentDraw, latest: int)
    requires index >= MonthIndex(MIN_YEAR, 1) && ValidPaymentDraw(d)
    requires index <= latest && MonthOf(latest).0 <= MAX_YEAR
    ensures var row := PaymentRow(cardId, monthlyFee, index, d);
      && row.cardId == cardId
      && row.amount == monthlyFee
      && ValidDateTime(row.paidAt)
      && 1 <= row.paidAt.date.day <= 5
      && 8 <= row.paidAt.hour <= 17
      && MonthIndex(row.paidAt.date.year, row.paidAt.date.month) == index
      && ParseMonthLabel(row.month) == Some((row.paidAt.date.year, row.paidAt.date.month))
  {
    var (y, m) := MonthOf(index);
    var (ly, lm) := MonthOf(latest);
    assert y <= ly;
    MonthLabelRoundTrip(y, m);
  }

  /** The first `n` payments of one card, newest month first. */
  function CardPayments(cardId: string, start: Date, monthlyFee: int, n: nat, draws: seq<PaymentDraw>): (rows: seq<MonthlyPayment>)
    requires 1 <= start.month <= 12 && n <= |draws| && WalkFits(start, n)
    ensures |rows| == n
  {
    seq(n, i requires 0 <= i < n => PaymentRow(cardId, monthlyFee, MonthIndex(start.year, start.month) - i, draws[i]))
  }

  /** One card's payments: `n` rows, newest month first, one month apart, with
      pairwise distinct labels, the monthly fee, paid on day 1..5 between 8:00 and 17:59. */
  lemma CardPaymentsFacts(cardId: string, start: Date, monthlyFee: int, n: nat, draws: seq<PaymentDraw>)
    requires ValidDate(start) && n <= |draws| && WalkFits(start, n)
    requires forall i :: 0 <= i < |draws| ==> ValidPaymentDraw(draws[i])
    ensures var rows := CardPayments(cardId, start, monthlyFee, n, draws);
      && |rows| == n
      && (forall i :: 0 <= i < n ==>
            && rows[i].cardId == cardId
            && rows[i].amount == monthlyFee
            && ValidDateTime(rows[i].paidAt)
            && 1 <= rows[i].paidAt.date.day <= 5
            && 8 <= rows[i].paidAt.hour <= 17
            && MonthIndex(rows[i].paidAt.date.year, rows[i].paidAt.date.month) == MonthIndex(start.year, start.month) - i
            && ParseMonthLabel(rows[i].month) == Some((rows[i].paidAt.date.year, rows[i].paidAt.date.month)))
      && (forall i, j :: 0 <= i < j < n ==> rows[i].month != rows[j].month)
  {
    var rows := CardPayments(cardId, start, monthlyFee, n, draws);
    var top := MonthIndex(start.year, start.month);
    MonthIndexInjective(MonthOf(top).0, MonthOf(top).1, start.year, start.month);
    forall i | 0 <= i < n
      ensures
        && rows[i].cardId == cardId
        && rows[i].amount == monthlyFee
        && ValidDateTime(rows[i].paidAt)
        && 1 <= rows[i].paidAt.date.day <= 5
        && 8 <= rows[i].paidAt.hour <= 17
        && MonthIndex(rows[i].paidAt.date.year, rows[i].paidAt.date.month) == top - i
        && ParseMonthLabel(rows[i].month) == Some((rows[i].paidAt.date.year, rows[i].paidAt.date.month))
    {
      CardPaymentsAt(cardId, start, monthlyFee, n, draws, i);
      PaymentRowFacts(cardId, monthlyFee, top - i, draws[i], top);
    }
    forall i, j | 0 <= i < j < n
      ensures rows[i].month != rows[j].month
    {
      LabelsOfDifferentMonths(rows[i], rows[j]);
    }
  }

  /** Payments for different months carry different labels. */
  lemma LabelsOfDifferentMonths(p: MonthlyPayment, q: MonthlyPayment)
    requires ParseMonthLabel(p.month) == Some((p.paidAt.date.year, p.paidAt.date.month))
    requires ParseMonthLabel(q.month) == Some((q.paidAt.date.year, q.paidAt.date.month))
    requires MonthIndex(p.paidAt.date.year, p.paidAt.date.month) != MonthIndex(q.paidAt.date.year, q.paidAt.date.month)
    ensures p.month != q.month
  {
  }

  /** Every payment row of a card carries that card's code. */
  lemma CardPaymentsIds(cardId: string, start: Date, monthlyFee: int, n: nat, draws: seq<PaymentDraw>)
    requires 1 <= start.month <= 12 && n <= |draws| && WalkFits(start, n)
    ensures forall i :: 0 <= i < n ==> CardPayments(cardId, start, monthlyFee, n, draws)[i].cardId == cardId
    ensures forall p :: p in CardPayments(cardId, start, monthlyFee, n, draws) ==> p.cardId == cardId
  {
    var rows := CardPayments(cardId, start, monthlyFee, n, draws);
    forall i | 0 <= i < n
      ensures rows[i].cardId == cardId
    {
      CardPaymentsAt(cardId, start, monthlyFee, n, draws, i);
    }
  }

  /** The card row written for a roster entry. */
  function RosterCard(entry: RosterEntry, now: DateTime, expiry: Date): Card
    requires 1 <= now.date.month <= 12
  {
    Card(entry.cardId, entry.holderName, entry.licensePlate, MONTHLY_TICKET,
         DateTime(expiry, now.hour, now.minute, now.second),
         ToSeconds(now) - CREATED_DAYS_AGO * SECONDS_PER_DAY, ACTIVE)
  }

  /** `INSERT OR REPLACE` on the primary key `card_id`: the old row with that
      key, if any, is replaced by the new one. */
  function Upsert(cards: seq<Card>, c: Card): seq<Card> {
    Filter(cards, CardIdIsNot(c.cardId)) + [c]
  }

  /** The cards table after upserting the cards of `roster` in order. */
  function UpsertRoster(cards: seq<Card>, roster: seq<RosterEntry>, now: DateTime, expiry: Date): seq<Card>
    requires 1 <= now.date.month <= 12
  {
    if roster == [] then cards
    else Upsert(UpsertRoster(cards, roster[..|roster| - 1], now, expiry), RosterCard(roster[|roster| - 1], now, expiry))
  }

  /** The payments of every card of `roster`, card by card. */
  function RosterPayments(roster: seq<RosterEntry>, start: Date, monthlyFee: int, n: nat, draws: seq<seq<PaymentDraw>>): seq<MonthlyPayment>
    requires 1 <= start.month <= 12 && WalkFits(start, n)
    requires |draws| == |roster| && forall k :: 0 <= k < |draws| ==> n <= |draws[k]|
  {
    if roster == [] then []
    else
      var k := |roster| - 1;
      RosterPayments(roster[..k], start, monthlyFee, n, draws[..k]) + CardPayments(roster[k].cardId, start, monthlyFee, n, draws[k])
  }

  function CardIdIs(id: string): Card -> bool {
    (c: Card) => c.cardId == id
  }

  function CardIdIsNot(id: string): Card -> bool {
    (c: Card) => c.cardId != id
  }

  function PaymentIdIs(id: string): MonthlyPayment -> bool {
    (p: MonthlyPayment) => p.cardId == id
  }

  /** Card rows carrying card code `id`. */
  function CardRowsOf(cards: seq<Card>, id: string): seq<Card> {
    Filter(cards, CardIdIs(id))
  }

  /** Payment rows carrying card code `id`. */
  function PaymentRowsOf(payments: seq<MonthlyPayment>, id: string): seq<MonthlyPayment> {
    Filter(payments, PaymentIdIs(id))
  }

  predicate DistinctIds(roster: seq<RosterEntry>) {
    forall a, b :: 0 <= a < b < |roster| ==> roster[a].cardId != roster[b].cardId
  }

  lemma {:induction false} FilterNone<T(!new)>(s: seq<T>, keep: T -> bool)
    requires forall i :: 0 <= i < |s| ==> !keep(s[i])
    ensures Filter(s, keep) == []
  {
    if s != [] {
      FilterNone(s[1..], keep);
    }
  }

  /** After the upserts each roster card has exactly one row, whatever rows with
      that code the table held before, and every other card's rows are untouched. */
  lemma {:induction false} UpsertRosterRows(cards: seq<Card>, roster: seq<RosterEntry>, now: DateTime, expiry: Date, id: string)
    requires 1 <= now.date.month <= 12 && DistinctIds(roster)
    ensures (exists k :: 0 <= k < |roster| && roster[k].cardId == id) ==>
      CardRowsOf(UpsertRoster(cards, roster, now, expiry), id) == [RosterCard(FindEntry(roster, id), now, expiry)]
    ensures (forall k :: 0 <= k < |roster| ==> roster[k].cardId != id) ==>
      CardRowsOf(UpsertRoster(cards, roster, now, expiry), id) == CardRowsOf(cards, id)
  {
    if roster != [] {
      var k := |roster| - 1;
      var init := roster[..k];
      var before := UpsertRoster(cards, init, now, expiry);
      var c := RosterCard(roster[k], now, expiry);
      UpsertRosterRows(cards, init, now, expiry, id);
      var byId := CardIdIs(id);
      FilterAppend(Filter(before, CardIdIsNot(c.cardId)), [c], byId);
      if roster[k].cardId == id {
        FilterFilter(before, CardIdIsNot(c.cardId), byId, (x: Card) => false);
        FilterNone(before, (x: Card) => false);
        assert FindEntry(roster, id) == roster[k];
      } else {
        FilterFilter(before, CardIdIsNot(c.cardId), byId, byId);
        assert Filter([c], byId) == [];
        if exists j :: 0 <= j < |roster| && roster[j].cardId == id {
          var j :| 0 <= j < |roster| && roster[j].cardId == id;
          assert j < k;
          assert init[j].cardId == id;
          assert FindEntry(roster, id) == FindEntry(init, id);
        }
      }
    }
  }

  /** The last roster entry with code `id`. */
  function FindEntry(roster: seq<RosterEntry>, id: string): RosterEntry
    requires exists k :: 0 <= k < |roster| && roster[k].cardId == id
  {
    var k := |roster| - 1;
    if roster[k].cardId == id then
      roster[k]
    else
      assert exists j :: 0 <= j < k && roster[..k][j].cardId == id by {
        var j :| 0 <= j < |roster| && roster[j].cardId == id;
        assert roster[..k][j] == roster[j];
      }
      FindEntry(roster[..k], id)
  }

  /** The payments seeded for a roster card are exactly that card's `n` rows. */
  lemma {:induction false} RosterPaymentsOf(roster: seq<RosterEntry>, start: Date, monthlyFee: int, n: nat,
                                            draws: seq<seq<PaymentDraw>>, k: int)
    requires 1 <= start.month <= 12 && WalkFits(start, n) && DistinctIds(roster)
    requires |draws| == |roster| && forall j :: 0 <= j < |draws| ==> n <= |draws[j]|
    requires 0 <= k < |roster|
    ensures PaymentRowsOf(RosterPayments(roster, start, monthlyFee, n, draws), roster[k].cardId)
         == CardPayments(roster[k].cardId, start, monthlyFee, n, draws[k])
  {
    var last := |roster| - 1;
    if k == last {
      LastRosterPayments(roster, start, monthlyFee, n, draws);
    } else {
      var earlierRoster, earlierDraws := roster[..last], draws[..last];
      assert roster[k].cardId != roster[last].cardId;
      EarlierRosterPayments(roster, start, monthlyFee, n, draws, roster[k].cardId);
      DistinctIdsPrefix(roster);
      assert forall j :: 0 <= j < last ==> n <= |earlierDraws[j]|;
      assert earlierRoster[k] == roster[k];
      assert earlierDraws[k] == draws[k];
      RosterPaymentsOf(earlierRoster, start, monthlyFee, n, earlierDraws, k);
    }
  }

  /** All but the last card of a roster with distinct codes have distinct codes. */
  lemma DistinctIdsPrefix(roster: seq<RosterEntry>)
    requires roster != [] && DistinctIds(roster)
    ensures DistinctIds(roster[..|roster| - 1])
  {
    var earlier := roster[..|roster| - 1];
    forall a, b | 0 <= a < b < |earlier|
      ensures earlier[a].cardId != earlier[b].cardId
    {
      assert earlier[a] == roster[a] && earlier[b] == roster[b];
    }
  }

  /** A code other than the last card's has no rows among the last card's payments. */
  lemma EarlierRosterPayments(roster: seq<RosterEntry>, start: Date, monthlyFee: int, n: nat,
                              draws: seq<seq<PaymentDraw>>, id: string)
    requires 1 <= start.month <= 12 && WalkFits(start, n)
    requires |draws| == |roster| && forall j :: 0 <= j < |draws| ==> n <= |draws[j]|
    requires roster != [] && roster[|roster| - 1].cardId != id
    ensures forall j :: 0 <= j < |roster| - 1 ==> n <= |draws[j]|
    ensures PaymentRowsOf(RosterPayments(roster, start, monthlyFee, n, draws), id)
         == PaymentRowsOf(RosterPayments(roster[..|roster| - 1], start, monthlyFee, n, draws[..|roster| - 1]), id)
  {
    var last := |roster| - 1;
    var mine := CardPayments(roster[last].cardId, start, monthlyFee, n, draws[last]);
    RosterPaymentsSplit(roster, start, monthlyFee, n, draws, id);
    CardPaymentsIds(roster[last].cardId, start, monthlyFee, n, draws[last]);
    FilterNone(mine, PaymentIdIs(id));
  }

  /** The last roster card's payments are its own `n` rows. */
  lemma LastRosterPayments(roster: seq<RosterEntry>, start: Date, monthlyFee: int, n: nat, draws: seq<seq<PaymentDraw>>)
    requires 1 <= start.month <= 12 && WalkFits(start, n) && DistinctIds(roster)
    requires |draws| == |roster| && forall j :: 0 <= j < |draws| ==> n <= |draws[j]|
    requires roster != []
    ensures PaymentRowsOf(RosterPayments(roster, start, monthlyFee, n, draws), roster[|roster| - 1].cardId)
         == CardPayments(roster[|roster| - 1].cardId, start, monthlyFee, n, draws[|roster| - 1])
  {
    var last := |roster| - 1;
    var id := roster[last].cardId;
    var mine := CardPayments(id, start, monthlyFee, n, draws[last]);
    RosterPaymentsSplit(roster, start, monthlyFee, n, draws, id);
    assert forall j :: 0 <= j < last ==> n <= |draws[..last][j]|;
    assert forall j :: 0 <= j < last ==> roster[..last][j].cardId != id;
    RosterPaymentsNone(roster[..last], start, monthlyFee, n, draws[..last], id);
    CardPaymentsIds(id, start, monthlyFee, n, draws[last]);
    FilterKeepsAll(mine, PaymentIdIs(id));
  }

  /** The rows of one code among a roster's payments: those among all but the
      last card's, then those among the last card's. */
  lemma RosterPaymentsSplit(roster: seq<RosterEntry>, start: Date, monthlyFee: int, n: nat,
                            draws: seq<seq<PaymentDraw>>, id: string)
    requires 1 <= start.month <= 12 && WalkFits(start, n)
    requires |draws| == |roster| && forall j :: 0 <= j < |draws| ==> n <= |draws[j]|
    requires roster != []
    ensures PaymentRowsOf(RosterPayments(roster, start, monthlyFee, n, draws), id)
         == PaymentRowsOf(RosterPayments(roster[..|roster| - 1], start, monthlyFee, n, draws[..|roster| - 1]), id)
            + PaymentRowsOf(CardPayments(roster[|roster| - 1].cardId, start, monthlyFee, n, draws[|roster| - 1]), id)
  {
    var last := |roster| - 1;
    assert forall j :: 0 <= j < last ==> n <= |draws[..last][j]|;
    var init := RosterPayments(roster[..last], start, monthlyFee, n, draws[..last]);
    var mine := CardPayments(roster[last].cardId, start, monthlyFee, n, draws[last]);
    assert RosterPayments(roster, start, monthlyFee, n, draws) == init + mine;
    FilterAppend(init, mine, PaymentIdIs(id));
  }

  /** A code outside the roster gets no seeded payments. */
  lemma {:induction false} RosterPaymentsNone(roster: seq<RosterEntry>, start: Date, monthlyFee: int, n: nat,
                                              draws: seq<seq<PaymentDraw>>, id: string)
    requires 1 <= start.month <= 12 && WalkFits(start, n)
    requires |draws| == |roster| && forall j :: 0 <= j < |draws| ==> n <= |draws[j]|
    requires forall j :: 0 <= j < |roster| ==> roster[j].cardId != id
    ensures PaymentRowsOf(RosterPayments(roster, start, monthlyFee, n, draws), id) == []
  {
    if roster != [] {
      var last := |roster| - 1;
      RosterPaymentsSplit(roster, start, monthlyFee, n, draws, id);
      assert forall j :: 0 <= j < last ==> n <= |draws[..last][j]|;
      assert forall j :: 0 <= j < last ==> roster[..last][j].cardId != id;
      RosterPaymentsNone(roster[..last], start, monthlyFee, n, draws[..last], id);
      var mine := CardPayments(roster[last].cardId, start, monthlyFee, n, draws[last]);
      CardPaymentsIds(roster[last].cardId, start, monthlyFee, n, draws[last]);
      FilterNone(mine, PaymentIdIs(id));
    }
  }

  /** Row `k` of a card's history is the payment for the month `k` months back. */
  lemma CardPaymentsAt(cardId: string, start: Date, monthlyFee: int, n: nat, draws: seq<PaymentDraw>, k: int)
    requires 1 <= start.month <= 12 && n <= |draws| && WalkFits(start, n)
    requires 0 <= k < n
    ensures MonthIndex(start.year, start.month) - k >= MonthIndex(MIN_YEAR, 1)
    ensures CardPayments(cardId, start, monthlyFee, n, draws)[k]
         == PaymentRow(cardId, monthlyFee, MonthIndex(start.year, start.month) - k, draws[k])
  {
  }

  /** One more month of history appends the payment for the month `i` months back. */
  lemma CardPaymentsStep(before: seq<MonthlyPayment>, cardId: string, start: Date, monthlyFee: int, i: nat, draws: seq<PaymentDraw>,
                         y: nat, m: nat)
    requires 1 <= start.month <= 12 && i < |draws| && WalkFits(start, i)
    requires 1 <= m <= 12 && y >= MIN_YEAR && MonthIndex(y, m) == MonthIndex(start.year, start.month) - i
    ensures WalkFits(start, i + 1)
    ensures before + CardPayments(cardId, start, monthlyFee, i, draws) + [MonthPayment(cardId, monthlyFee, y, m, draws[i])]
         == before + CardPayments(cardId, start, monthlyFee, i + 1, draws)
  {
    PaymentRowAt(cardId, monthlyFee, MonthIndex(start.year, start.month) - i, y, m, draws[i]);
    CardPaymentsUnfold(cardId, start, monthlyFee, i, draws);
    AppendOne(before, CardPayments(cardId, start, monthlyFee, i, draws), CardPayments(cardId, start, monthlyFee, i + 1, draws),
              MonthPayment(cardId, monthlyFee, y, m, draws[i]),
              PaymentRow(cardId, monthlyFee, MonthIndex(start.year, start.month) - i, draws[i]));
  }

  lemma AppendOne<T>(before: seq<T>, done: seq<T>, rows: seq<T>, x: T, y: T)
    requires rows == done + [y] && x == y
    ensures before + done + [x] == before + rows
  {
    AppendAssociates(before, done, [x]);
  }

  /** A card's payments for one more month end with the row for that month. */
  lemma CardPaymentsUnfold(cardId: string, start: Date, monthlyFee: int, i: nat, draws: seq<PaymentDraw>)
    requires 1 <= start.month <= 12 && i < |draws| && WalkFits(start, i + 1)
    ensures MonthIndex(start.year, start.month) - i >= MonthIndex(MIN_YEAR, 1)
    ensures CardPayments(cardId, start, monthlyFee, i + 1, draws)
         == CardPayments(cardId, start, monthlyFee, i, draws)
            + [PaymentRow(cardId, monthlyFee, MonthIndex(start.year, start.month) - i, draws[i])]
  {
    CardPaymentsPrefix(cardId, start, monthlyFee, i, draws);
    CardPaymentsAt(cardId, start, monthlyFee, i + 1, draws, i);
    SnocOf(CardPayments(cardId, start, monthlyFee, i + 1, draws), CardPayments(cardId, start, monthlyFee, i, draws),
           PaymentRow(cardId, monthlyFee, MonthIndex(start.year, start.month) - i, draws[i]));
  }

  /** A longer history begins with the shorter one. */
  lemma CardPaymentsPrefix(cardId: string, start: Date, monthlyFee: int, i: nat, draws: seq<PaymentDraw>)
    requires 1 <= start.month <= 12 && i < |draws| && WalkFits(start, i + 1)
    ensures forall j :: 0 <= j < i ==>
      CardPayments(cardId, start, monthlyFee, i + 1, draws)[j] == CardPayments(cardId, start, monthlyFee, i, draws)[j]
  {
  }

  /** A sequence that extends `earlier` by `last` is `earlier + [last]`. */
  lemma SnocOf<T>(rows: seq<T>, earlier: seq<T>, last: T)
    requires |rows| == |earlier| + 1 && rows[|earlier|] == last
    requires forall j :: 0 <= j < |earlier| ==> rows[j] == earlier[j]
    ensures rows == earlier + [last]
  {
  }

  /** One more roster card appends that card's payments. */
  lemma RosterPaymentsStep(before: seq<MonthlyPayment>, roster: seq<RosterEntry>, start: Date, monthlyFee: int, n: nat,
                           draws: seq<seq<PaymentDraw>>, c: int)
    requires 1 <= start.month <= 12 && WalkFits(start, n)
    requires |draws| == |roster| && forall k :: 0 <= k < |draws| ==> n <= |draws[k]|
    requires 0 <= c < |roster|
    ensures before + RosterPayments(roster[..c], start, monthlyFee, n, draws[..c])
              + CardPayments(roster[c].cardId, start, monthlyFee, n, draws[c])
         == before + RosterPayments(roster[..c + 1], start, monthlyFee, n, draws[..c + 1])
  {
    assert roster[..c + 1][..c] == roster[..c];
    assert draws[..c + 1][..c] == draws[..c];
    assert draws[..c + 1][c] == draws[c];
    AppendAssociates(before, RosterPayments(roster[..c], start, monthlyFee, n, draws[..c]),
                     CardPayments(roster[c].cardId, start, monthlyFee, n, draws[c]));
  }

  /** One more roster card upserts that card. */
  lemma UpsertRosterStep(cards: seq<Card>, roster: seq<RosterEntry>, now: DateTime, expiry: Date, c: int)
    requires 1 <= now.date.month <= 12 && 0 <= c < |roster|
    ensures UpsertRoster(cards, roster[..c + 1], now, expiry)
         == Upsert(UpsertRoster(cards, roster[..c], now, expiry), RosterCard(roster[c], now, expiry))
  {
    assert roster[..c + 1][..c] == roster[..c];
  }

  /** Seeding roster card `c` on top of the tables left by the first `c` cards
      gives the tables of the first `c + 1` cards. */
  lemma RosterPrefixStep(cards0: seq<Card>, payments0: seq<MonthlyPayment>, cards: seq<Card>, payments: seq<MonthlyPayment>,
                         roster: seq<RosterEntry>, monthlyFee: int, monthCount: int, now: DateTime, draws: seq<seq<PaymentDraw>>, c: int)
    requires ValidDateTime(now) && SubscriptionFits(now, monthCount)
    requires 0 <= c < |roster| && |draws| == |roster| && forall k :: 0 <= k < |draws| ==> RowCount(monthCount) <= |draws[k]|
    requires c == 0 ==> cards == cards0 && payments == payments0
    requires c > 0 ==> cards == UpsertRoster(cards0, roster[..c], now, AddMonths(now.date, 1).value)
    requires c > 0 ==> payments == payments0 + RosterPayments(roster[..c], now.date, monthlyFee, RowCount(monthCount), draws[..c])
    ensures Upsert(cards, RosterCard(roster[c], now, AddMonths(now.date, 1).value))
         == UpsertRoster(cards0, roster[..c + 1], now, AddMonths(now.date, 1).value)
    ensures payments + CardPayments(roster[c].cardId, now.date, monthlyFee, RowCount(monthCount), draws[c])
         == payments0 + RosterPayments(roster[..c + 1], now.date, monthlyFee, RowCount(monthCount), draws[..c + 1])
  {
    var expiry, n := AddMonths(now.date, 1).value, RowCount(monthCount);
    UpsertRosterStep(cards0, roster, now, expiry, c);
    RosterPaymentsStep(payments0, roster, now.date, monthlyFee, n, draws, c);
    if c == 0 {
      assert roster[..0] == [] && draws[..0] == [];
      assert payments0 + RosterPayments(roster[..0], now.date, monthlyFee, n, draws[..0]) == payments0;
    }
  }

  /** In a roster without repeated codes, looking a card's code up finds that card. */
  lemma {:induction false} FindEntryOfDistinct(roster: seq<RosterEntry>, k: int)
    requires DistinctIds(roster) && 0 <= k < |roster|
    ensures FindEntry(roster, roster[k].cardId) == roster[k]
  {
    var last := |roster| - 1;
    if k < last {
      assert roster[last].cardId != roster[k].cardId;
      assert roster[..last][k] == roster[k];
      FindEntryOfDistinct(roster[..last], k);
    }
  }
}
