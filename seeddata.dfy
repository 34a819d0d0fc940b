/**
  One run of the demo-data generator against the parking database: clean
  the rows of earlier runs and commit, read the fee settings, insert the
  casual transactions of the last six days, upsert the subscription roster
  with its payment history, and commit.  The random draws of a run are
  parameters; a run that would raise in Python returns `ok == false` and
  leaves the database as the first commit left it.
*/
module SeedData {
  import opened Options
  import opened Numerals
  import opened CalendarMath
  import opened Identifiers
  import opened Fees
  import opened Records
  import opened CasualSeeding
  import opened SubscriptionSeeding

  /** The four tables the generator touches, each as its sequence of rows. */
  class ParkingDatabase {
    var transactions: seq<Transaction>
    var cards: seq<Card>
    var payments: seq<MonthlyPayment>
    var settingRows: seq<SettingRow>

    constructor (transactions: seq<Transaction>, cards: seq<Card>, payments: seq<MonthlyPayment>, settingRows: seq<SettingRow>)
      ensures this.transactions == transactions && this.cards == cards
      ensures this.payments == payments && this.settingRows == settingRows
    {
      this.transactions := transactions;
      this.cards := cards;
      this.payments := payments;
      this.settingRows := settingRows;
    }

    /** `create_beautiful_data`: cleanup and commit, read the fees, seed the
        casual batch and then the subscription roster, and commit.  When a
        stage raises, the uncommitted inserts are lost and the tables are
        those of the first commit. */
    method CreateBeautifulData(now: DateTime, days: seq<seq<EventDraw>>, paymentDraws: seq<seq<PaymentDraw>>)
      returns (ok: bool, total: nat)
      requires ValidDateTime(now)
      requires ValidBatchDraws(ToSeconds(now), days)
      requires ValidPaymentDraws(paymentDraws, DEFAULT_MONTH_COUNT)
      modifies this
      ensures ok <==> RunSucceeds(now, days)
      ensures ok ==> transactions == RunTransactions(old(transactions), now, HourlyFee(SettingsOf(old(settingRows))), days)
      ensures ok ==> total == |BatchRows(ToSeconds(now), HourlyFee(SettingsOf(old(settingRows))), days)|
      ensures ok ==> cards == RunCards(old(cards), now)
      ensures ok ==> payments == RunPayments(old(payments), now, MonthlyFee(SettingsOf(old(settingRows))), paymentDraws)
      ensures !ok ==> transactions == Filter(old(transactions), KeepTransaction)
      ensures !ok ==> cards == Filter(old(cards), KeepCard) && payments == Filter(old(payments), KeepPayment)
      ensures settingRows == old(settingRows)
    {
      Cleanup();
      // conn.commit()
      var committedTransactions, committedCards, committedPayments := transactions, cards, payments;
      var settings := LoadSettings(settingRows);
      var hourlyFee := HourlyFee(settings);
      var monthlyFee := MonthlyFee(settings);
      var casualOk;
      casualOk, total := SeedCasualTransactions(ToSeconds(now), hourlyFee, days);
      if !casualOk {
        transactions, cards, payments := committedTransactions, committedCards, committedPayments;
        return false, total;
      }
      assert VIP_CARDS != [];
      ok := SeedMonthlyPayments(VIP_CARDS, monthlyFee, DEFAULT_MONTH_COUNT, now, paymentDraws);
      if !ok {
        transactions, cards, payments := committedTransactions, committedCards, committedPayments;
      }
    }

    /** The five `DELETE` statements of the cleanup stage, in order. */
    method Cleanup()
      modifies this
      ensures transactions == Filter(old(transactions), KeepTransaction)
      ensures cards == Filter(old(cards), KeepCard)
      ensures payments == Filter(old(payments), KeepPayment)
      ensures settingRows == old(settingRows)
    {
      transactions := Filter(transactions, KeepTransaction);
      cards := Filter(cards, NotRosterCard);
      payments := Filter(payments, NotRosterPayment);
      cards := Filter(cards, NotLegacyCard);
      payments := Filter(payments, NotLegacyPayment);
      CleanupSteps(old(cards), old(payments));
    }

    /** The casual batch: for `i` from five down to zero, the events drawn for
        the day `i` days back. */
    method SeedCasualTransactions(now: int, hourlyFee: int, days: seq<seq<EventDraw>>) returns (ok: bool, total: nat)
      requires |days| == DAYS_BACK + 1
      modifies this
      ensures ok <==> !BatchOverflows(now, days)
      ensures ok ==> transactions == old(transactions) + BatchRows(now, hourlyFee, days)
      ensures ok ==> total == |BatchRows(now, hourlyFee, days)|
      ensures cards == old(cards) && payments == old(payments) && settingRows == old(settingRows)
    {
      total := 0;
      var i := DAYS_BACK;
      while i >= 0
        invariant -1 <= i <= DAYS_BACK
        invariant i < DAYS_BACK ==> now >= DAYS_BACK * SECONDS_PER_DAY
        invariant forall k :: 0 <= k < DAYS_BACK - i ==> !DayOverflows(DayOfBatch(now, k), days[k])
        invariant transactions == old(transactions) + BatchRows(now, hourlyFee, days[..DAYS_BACK - i])
        invariant total == |transactions| - |old(transactions)|
        invariant cards == old(cards) && payments == old(payments) && settingRows == old(settingRows)
      {
        var day := DAYS_BACK - i;
        var current := DayTime(now, i);
        assert current == DayOfBatch(now, day);
        if current < 0 {
          // `datetime.now() - timedelta(days=i)` raises OverflowError
          ok := false;
          return;
        }
        var dayOk, added := SeedDay(now, current, hourlyFee, days[day]);
        if !dayOk {
          assert DayOverflows(DayOfBatch(now, day), days[day]);
          ok := false;
          return;
        }
        BatchRowsStep(now, hourlyFee, days, day);
        total := total + added;
        i := i - 1;
      }
      assert days[..DAYS_BACK + 1] == days;
      ok := true;
    }

    /** The inner loop of the casual batch: each event of one day is inserted
        unless it ends after `now`. */
    method SeedDay(now: int, current: int, hourlyFee: int, events: seq<EventDraw>) returns (ok: bool, added: nat)
      modifies this
      ensures ok <==> !DayOverflows(current, events)
      ensures ok ==> transactions == old(transactions) + DayRows(now, current, hourlyFee, events)
      ensures ok ==> added == |DayRows(now, current, hourlyFee, events)|
      ensures cards == old(cards) && payments == old(payments) && settingRows == old(settingRows)
    {
      added := 0;
      var j := 0;
      while j < |events|
        invariant 0 <= j <= |events|
        invariant forall j' :: 0 <= j' < j ==> ExitTime(current, events[j']) <= MAX_SECONDS
        invariant transactions == old(transactions) + DayRows(now, current, hourlyFee, events[..j])
        invariant added == |transactions| - |old(transactions)|
        invariant cards == old(cards) && payments == old(payments) && settingRows == old(settingRows)
      {
        var e := events[j];
        var exit := ExitTime(current, e);
        if exit > MAX_SECONDS {
          // `entry_time + timedelta(minutes=...)` raises OverflowError
          ok := false;
          return;
        }
        DayRowsStep(now, current, hourlyFee, events, j);
        j := j + 1;
        if exit > now {
          continue;
        }
        var fee := CasualFee(e.durationMinutes, hourlyFee);
        var plate := GenerateVietnamPlate(e.plate);
        var cardId := GenerateHexCardId(CardBytes(e.card));
        transactions := transactions + [Transaction(cardId, plate, EntryTime(current, e), exit, fee,
                                                    PLACEHOLDER_SNAPSHOT, PLACEHOLDER_SNAPSHOT, SEED_USER)];
        added := added + 1;
      }
      assert events[..j] == events;
      ok := true;
    }

    /** `seed_monthly_payments`: every card of the roster (`VIP_CARDS`) in turn. */
    method SeedMonthlyPayments(roster: seq<RosterEntry>, monthlyFee: int, monthCount: int, now: DateTime, draws: seq<seq<PaymentDraw>>)
      returns (ok: bool)
      requires ValidDateTime(now)
      requires |draws| == |roster| && forall k :: 0 <= k < |draws| ==> RowCount(monthCount) <= |draws[k]|
      modifies this
      ensures ok <==> roster == [] || SubscriptionFits(now, monthCount)
      ensures ok && roster != [] ==> cards == UpsertRoster(old(cards), roster, now, AddMonths(now.date, 1).value)
      ensures ok && roster != [] ==>
        payments == old(payments) + RosterPayments(roster, now.date, monthlyFee, RowCount(monthCount), draws)
      ensures roster == [] ==> cards == old(cards) && payments == old(payments)
      ensures transactions == old(transactions) && settingRows == old(settingRows)
    {
      ok := true;
      if roster == [] {
        return;
      }
      var n := RowCount(monthCount);
      var c := 0;
      while c < |roster|
        invariant 0 <= c <= |roster|
        invariant c > 0 ==> SubscriptionFits(now, monthCount)
        invariant c > 0 ==> cards == UpsertRoster(old(cards), roster[..c], now, AddMonths(now.date, 1).value)
        invariant c > 0 ==> payments == old(payments) + RosterPayments(roster[..c], now.date, monthlyFee, n, draws[..c])
        invariant c == 0 ==> cards == old(cards) && payments == old(payments)
        invariant transactions == old(transactions) && settingRows == old(settingRows)
      {
        ghost var cardsBefore, paymentsBefore := cards, payments;
        ok := SeedCard(roster[c], monthlyFee, monthCount, now, draws[c]);
        if !ok {
          return;
        }
        RosterPrefixStep(old(cards), old(payments), cardsBefore, paymentsBefore, roster, monthlyFee, monthCount, now, draws, c);
        c := c + 1;
      }
      assert roster[..|roster|] == roster;
      assert draws[..|roster|] == draws;
      ok := true;
    }

    /** The body of the roster loop: upsert one card, then insert its payment history. */
    method SeedCard(entry: RosterEntry, monthlyFee: int, monthCount: int, now: DateTime, draws: seq<PaymentDraw>) returns (ok: bool)
      requires ValidDateTime(now) && RowCount(monthCount) <= |draws|
      modifies this
      ensures ok <==> SubscriptionFits(now, monthCount)
      ensures ok ==> cards == Upsert(old(cards), RosterCard(entry, now, AddMonths(now.date, 1).value))
      ensures ok ==> payments == old(payments) + CardPayments(entry.cardId, now.date, monthlyFee, RowCount(monthCount), draws)
      ensures transactions == old(transactions) && settingRows == old(settingRows)
    {
      var createdAt := ToSeconds(now) - CREATED_DAYS_AGO * SECONDS_PER_DAY;
      if createdAt < 0 {
        // `now - timedelta(days=200)` raises OverflowError
        return false;
      }
      var expiry := AddMonths(now.date, 1);
      if expiry.None? {
        // `add_months` raises ValueError for year 10000
        return false;
      }
      cards := Upsert(cards, Card(entry.cardId, entry.holderName, entry.licensePlate, MONTHLY_TICKET,
                                  DateTime(expiry.value, now.hour, now.minute, now.second), createdAt, ACTIVE));
      ok := InsertPaymentHistory(entry.cardId, monthlyFee, monthCount, now.date, draws);
    }

    /** The inner loop of `seed_monthly_payments`: one payment per month,
        newest first, walking back from the month of `start`. */
    method InsertPaymentHistory(cardId: string, monthlyFee: int, monthCount: int, start: Date, draws: seq<PaymentDraw>)
      returns (ok: bool)
      requires 1 <= start.month <= 12 && RowCount(monthCount) <= |draws|
      modifies this`payments
      ensures ok <==> WalkFits(start, monthCount)
      ensures ok ==> payments == old(payments) + CardPayments(cardId, start, monthlyFee, RowCount(monthCount), draws)
    {
      ghost var before := payments;
      var i := 0;
      while i < monthCount
        invariant 0 <= i <= RowCount(monthCount)
        invariant WalkFits(start, i)
        invariant payments == before + CardPayments(cardId, start, monthlyFee, i, draws)
      {
        var y, m := MonthBack(start.year, start.month, i);
        if y < MIN_YEAR {
          // `datetime(year_iter, ...)` raises ValueError for year 0
          ok := false;
          return;
        }
        var d := draws[i];
        CardPaymentsStep(before, cardId, start, monthlyFee, i, draws, y, m);
        payments := payments + [MonthPayment(cardId, monthlyFee, y, m, d)];
        i := i + 1;
      }
      assert i == RowCount(monthCount);
      ok := true;
    }
  }

  // ---------------------------------------------------------------------
  // What a completed run leaves in the tables

  /** A run completes: no stage raises. */
  predicate RunSucceeds(now: DateTime, days: seq<seq<EventDraw>>)
    requires ValidDateTime(now)
  {
    !BatchOverflows(ToSeconds(now), days) && SubscriptionFits(now, DEFAULT_MONTH_COUNT)
  }

  /** `transactions` after a completed run: the kept rows, then the batch. */
  function RunTransactions(transactions: seq<Transaction>, now: DateTime, hourlyFee: int, days: seq<seq<EventDraw>>): seq<Transaction>
    requires ValidDateTime(now)
  {
    Filter(transactions, KeepTransaction) + BatchRows(ToSeconds(now), hourlyFee, days)
  }

  /** `cards` after a completed run: the kept rows, with the roster upserted. */
  function RunCards(cards: seq<Card>, now: DateTime): seq<Card>
    requires ValidDateTime(now) && AddMonths(now.date, 1).Some?
  {
    UpsertRoster(Filter(cards, KeepCard), VIP_CARDS, now, AddMonths(now.date, 1).value)
  }

  /** `monthly_payments` after a completed run: the kept rows, then every roster card's history. */
  function RunPayments(payments: seq<MonthlyPayment>, now: DateTime, monthlyFee: int, draws: seq<seq<PaymentDraw>>): seq<MonthlyPayment>
    requires ValidDateTime(now) && WalkFits(now.date, DEFAULT_MONTH_COUNT)
    requires ValidPaymentDraws(draws, DEFAULT_MONTH_COUNT)
  {
    Filter(payments, KeepPayment) + RosterPayments(VIP_CARDS, now.date, monthlyFee, DEFAULT_MONTH_COUNT, draws)
  }

  /** The roster has four distinct card codes of the `XX XX XX XX` shape, the
      shape the generator draws casual cards in, and dotted plates. */
  lemma VipRosterWellFormed()
    ensures |VIP_CARDS| == 4 && |VIP_IDS| == 4
    ensures DistinctIds(VIP_CARDS)
    ensures forall k :: 0 <= k < |VIP_CARDS| ==> IsCardCode(VIP_CARDS[k].cardId)
    ensures forall k :: 0 <= k < |VIP_CARDS| ==> IsDottedPlate(VIP_CARDS[k].licensePlate)
  {
    VipCardCodes();
    VipPlates();
    VipIdsDistinct();
  }

  lemma VipIdsDistinct()
    ensures DistinctIds(VIP_CARDS)
  {
    forall a, b | 0 <= a < b < |VIP_CARDS|
      ensures VIP_CARDS[a].cardId != VIP_CARDS[b].cardId
    {
      assert VIP_CARDS[a].cardId[0] != VIP_CARDS[b].cardId[0];
    }
  }

  lemma VipCardCodes()
    ensures forall k :: 0 <= k < |VIP_CARDS| ==> IsCardCode(VIP_CARDS[k].cardId)
  {
    CardCodeOfGroups(VIP_CARDS[0].cardId);
    CardCodeOfGroups(VIP_CARDS[1].cardId);
    CardCodeOfGroups(VIP_CARDS[2].cardId);
    CardCodeOfGroups(VIP_CARDS[3].cardId);
  }

  /** Four groups of two hexadecimal digits separated by single spaces. */
  lemma CardCodeOfGroups(s: string)
    requires |s| == 11 && s[2] == ' ' && s[5] == ' ' && s[8] == ' '
    requires IsHexDigit(s[0]) && IsHexDigit(s[1]) && IsHexDigit(s[3]) && IsHexDigit(s[4])
    requires IsHexDigit(s[6]) && IsHexDigit(s[7]) && IsHexDigit(s[9]) && IsHexDigit(s[10])
    ensures IsCardCode(s)
  {
  }

  lemma VipPlates()
    ensures forall k :: 0 <= k < |VIP_CARDS| ==> IsDottedPlate(VIP_CARDS[k].licensePlate)
  {
    DottedPlateOfChars(VIP_CARDS[0].licensePlate);
    DottedPlateOfChars(VIP_CARDS[1].licensePlate);
    DottedPlateOfChars(VIP_CARDS[2].licensePlate);
    DottedPlateOfChars(VIP_CARDS[3].licensePlate);
  }

  /** Two digits, a capital, a hyphen, three digits, a dot and two digits. */
  lemma DottedPlateOfChars(s: string)
    requires |s| == 10 && IsDigit(s[0]) && IsDigit(s[1]) && IsUpperLetter(s[2]) && s[3] == '-'
    requires IsDigit(s[4]) && IsDigit(s[5]) && IsDigit(s[6]) && s[7] == '.' && IsDigit(s[8]) && IsDigit(s[9])
    ensures IsDottedPlate(s)
  {
    assert AllDigits(s[..2]) && AllDigits(s[4..7]) && AllDigits(s[8..]);
  }

  /** After a completed run each roster card has exactly one card row, the
      fresh one, and exactly its `DEFAULT_MONTH_COUNT` payments, for distinct
      months, whatever rows with that code the tables held before. */
  lemma RunRosterRows(cards: seq<Card>, payments: seq<MonthlyPayment>, now: DateTime, monthlyFee: int,
                      draws: seq<seq<PaymentDraw>>, k: int)
    requires ValidDateTime(now) && AddMonths(now.date, 1).Some? && WalkFits(now.date, DEFAULT_MONTH_COUNT)
    requires ValidPaymentDraws(draws, DEFAULT_MONTH_COUNT)
    requires 0 <= k < |VIP_CARDS|
    ensures CardRowsOf(RunCards(cards, now), VIP_IDS[k]) == [RosterCard(VIP_CARDS[k], now, AddMonths(now.date, 1).value)]
    ensures PaymentRowsOf(RunPayments(payments, now, monthlyFee, draws), VIP_IDS[k])
         == CardPayments(VIP_IDS[k], now.date, monthlyFee, DEFAULT_MONTH_COUNT, draws[k])
    ensures var rows := PaymentRowsOf(RunPayments(payments, now, monthlyFee, draws), VIP_IDS[k]);
      && |rows| == DEFAULT_MONTH_COUNT
      && forall i, j :: 0 <= i < j < |rows| ==> rows[i].month != rows[j].month
  {
    RunRosterCard(cards, now, k);
    RunRosterPayments(payments, now, monthlyFee, draws, k);
    CardPaymentsFacts(VIP_IDS[k], now.date, monthlyFee, DEFAULT_MONTH_COUNT, draws[k]);
  }

  lemma RunRosterCard(cards: seq<Card>, now: DateTime, k: int)
    requires ValidDateTime(now) && AddMonths(now.date, 1).Some?
    requires 0 <= k < |VIP_CARDS|
    ensures CardRowsOf(RunCards(cards, now), VIP_IDS[k]) == [RosterCard(VIP_CARDS[k], now, AddMonths(now.date, 1).value)]
  {
    VipIdsDistinct();
    UpsertRosterRows(Filter(cards, KeepCard), VIP_CARDS, now, AddMonths(now.date, 1).value, VIP_IDS[k]);
    FindEntryOfDistinct(VIP_CARDS, k);
  }

  lemma RunRosterPayments(payments: seq<MonthlyPayment>, now: DateTime, monthlyFee: int, draws: seq<seq<PaymentDraw>>, k: int)
    requires ValidDateTime(now) && WalkFits(now.date, DEFAULT_MONTH_COUNT)
    requires ValidPaymentDraws(draws, DEFAULT_MONTH_COUNT)
    requires 0 <= k < |VIP_CARDS|
    ensures PaymentRowsOf(RunPayments(payments, now, monthlyFee, draws), VIP_IDS[k])
         == CardPayments(VIP_IDS[k], now.date, monthlyFee, DEFAULT_MONTH_COUNT, draws[k])
  {
    var id := VIP_IDS[k];
    VipIdsDistinct();
    var kept := Filter(payments, KeepPayment);
    var history := RosterPayments(VIP_CARDS, now.date, monthlyFee, DEFAULT_MONTH_COUNT, draws);
    FilterAppend(kept, history, PaymentIdIs(id));
    KeptPaymentsOfRosterCode(payments, id);
    RosterPaymentsOf(VIP_CARDS, now.date, monthlyFee, DEFAULT_MONTH_COUNT, draws, k);
  }

  /** Cleanup leaves no payment of a roster card. */
  lemma KeptPaymentsOfRosterCode(payments: seq<MonthlyPayment>, id: string)
    requires id in VIP_IDS
    ensures PaymentRowsOf(Filter(payments, KeepPayment), id) == []
  {
    var kept := Filter(payments, KeepPayment);
    forall i | 0 <= i < |kept|
      ensures !PaymentIdIs(id)(kept[i])
    {
      assert kept[i] in kept;
    }
    FilterNone(kept, PaymentIdIs(id));
  }

  /** A completed run leaves the rows of every other card code as cleanup left them. */
  lemma RunKeepsOtherRows(cards: seq<Card>, payments: seq<MonthlyPayment>, now: DateTime, monthlyFee: int,
                          draws: seq<seq<PaymentDraw>>, id: string)
    requires ValidDateTime(now) && AddMonths(now.date, 1).Some? && WalkFits(now.date, DEFAULT_MONTH_COUNT)
    requires ValidPaymentDraws(draws, DEFAULT_MONTH_COUNT)
    requires id !in VIP_IDS
    ensures CardRowsOf(RunCards(cards, now), id) == CardRowsOf(Filter(cards, KeepCard), id)
    ensures PaymentRowsOf(RunPayments(payments, now, monthlyFee, draws), id) == PaymentRowsOf(Filter(payments, KeepPayment), id)
  {
    RosterIdsListed();
    VipIdsDistinct();
    UpsertRosterRows(Filter(cards, KeepCard), VIP_CARDS, now, AddMonths(now.date, 1).value, id);
    RunKeepsOtherPayments(payments, now, monthlyFee, draws, id);
  }

  lemma RunKeepsOtherPayments(payments: seq<MonthlyPayment>, now: DateTime, monthlyFee: int,
                              draws: seq<seq<PaymentDraw>>, id: string)
    requires ValidDateTime(now) && WalkFits(now.date, DEFAULT_MONTH_COUNT)
    requires ValidPaymentDraws(draws, DEFAULT_MONTH_COUNT)
    requires forall k :: 0 <= k < |VIP_CARDS| ==> VIP_CARDS[k].cardId != id
    ensures PaymentRowsOf(RunPayments(payments, now, monthlyFee, draws), id) == PaymentRowsOf(Filter(payments, KeepPayment), id)
  {
    var kept := Filter(payments, KeepPayment);
    var history := RosterPayments(VIP_CARDS, now.date, monthlyFee, DEFAULT_MONTH_COUNT, draws);
    FilterAppend(kept, history, PaymentIdIs(id));
    RosterPaymentsNone(VIP_CARDS, now.date, monthlyFee, DEFAULT_MONTH_COUNT, draws, id);
  }

  // ---------------------------------------------------------------------
  // Re-running the generator

  /** Cleanup deletes every card a run upserted and nothing the upserts left alone. */
  lemma {:induction false} CleanupUndoesUpserts(cards: seq<Card>, roster: seq<RosterEntry>, now: DateTime, expiry: Date)
    requires 1 <= now.date.month <= 12
    requires forall k :: 0 <= k < |roster| ==> roster[k].cardId in VIP_IDS
    ensures Filter(UpsertRoster(cards, roster, now, expiry), KeepCard) == Filter(cards, KeepCard)
  {
    if roster != [] {
      var last := |roster| - 1;
      assert forall k :: 0 <= k < last ==> roster[..last][k].cardId in VIP_IDS;
      CleanupUndoesUpserts(cards, roster[..last], now, expiry);
      CleanupUndoesUpsert(UpsertRoster(cards, roster[..last], now, expiry), RosterCard(roster[last], now, expiry));
    }
  }

  /** Upserting a roster card changes nothing cleanup keeps. */
  lemma CleanupUndoesUpsert(cards: seq<Card>, c: Card)
    requires c.cardId in VIP_IDS
    ensures Filter(Upsert(cards, c), KeepCard) == Filter(cards, KeepCard)
  {
    FilterAppend(Filter(cards, CardIdIsNot(c.cardId)), [c], KeepCard);
    assert Filter([c], KeepCard) == [] by {
      FilterNone([c], KeepCard);
    }
    FilterFilter(cards, CardIdIsNot(c.cardId), KeepCard, KeepCard);
  }

  /** Cleanup deletes every payment a run inserted for the roster. */
  lemma {:induction false} CleanupUndoesPayments(roster: seq<RosterEntry>, start: Date, monthlyFee: int, n: nat,
                                                 draws: seq<seq<PaymentDraw>>)
    requires 1 <= start.month <= 12 && WalkFits(start, n)
    requires |draws| == |roster| && forall k :: 0 <= k < |draws| ==> n <= |draws[k]|
    requires forall k :: 0 <= k < |roster| ==> roster[k].cardId in VIP_IDS
    ensures Filter(RosterPayments(roster, start, monthlyFee, n, draws), KeepPayment) == []
  {
    if roster != [] {
      var last := |roster| - 1;
      assert forall k :: 0 <= k < last ==> roster[..last][k].cardId in VIP_IDS;
      assert forall k :: 0 <= k < last ==> n <= |draws[..last][k]|;
      CleanupUndoesPayments(roster[..last], start, monthlyFee, n, draws[..last]);
      var init := RosterPayments(roster[..last], start, monthlyFee, n, draws[..last]);
      var mine := CardPayments(roster[last].cardId, start, monthlyFee, n, draws[last]);
      assert RosterPayments(roster, start, monthlyFee, n, draws) == init + mine;
      FilterAppend(init, mine, KeepPayment);
      CardPaymentsIds(roster[last].cardId, start, monthlyFee, n, draws[last]);
      FilterNone(mine, KeepPayment);
    }
  }

  /** Cleanup deletes every transaction a run inserted. */
  lemma CleanupUndoesBatch(now: int, hourlyFee: int, days: seq<seq<EventDraw>>)
    requires forall k, j :: 0 <= k < |days| && 0 <= j < |days[k]| ==> ValidEventDraw(days[k][j])
    ensures Filter(BatchRows(now, hourlyFee, days), KeepTransaction) == []
  {
    var rows := BatchRows(now, hourlyFee, days);
    BatchRowsAreSeeded(now, hourlyFee, days);
    assert forall i :: 0 <= i < |rows| ==> rows[i] in rows;
    FilterNone(rows, KeepTransaction);
  }

  /** Every roster card's code is among the codes cleanup deletes. */
  lemma RosterIdsListed()
    ensures forall k :: 0 <= k < |VIP_CARDS| ==> VIP_CARDS[k].cardId in VIP_IDS
  {
    assert forall k :: 0 <= k < |VIP_CARDS| ==> VIP_IDS[k] == VIP_CARDS[k].cardId;
  }

  /** A second run deletes the first run's transactions before adding its own. */
  lemma RerunTransactions(transactions: seq<Transaction>, now1: DateTime, days1: seq<seq<EventDraw>>, hourlyFee1: int,
                          now2: DateTime, days2: seq<seq<EventDraw>>, hourlyFee2: int)
    requires ValidDateTime(now1) && ValidDateTime(now2)
    requires ValidBatchDraws(ToSeconds(now1), days1)
    ensures RunTransactions(RunTransactions(transactions, now1, hourlyFee1, days1), now2, hourlyFee2, days2)
         == RunTransactions(transactions, now2, hourlyFee2, days2)
  {
    var kept := Filter(transactions, KeepTransaction);
    var batch := BatchRows(ToSeconds(now1), hourlyFee1, days1);
    FilterAppend(kept, batch, KeepTransaction);
    FilterKeepsAll(kept, KeepTransaction);
    CleanupUndoesBatch(ToSeconds(now1), hourlyFee1, days1);
    assert Filter(kept + batch, KeepTransaction) == kept;
  }

  /** A second run replaces the first run's roster cards. */
  lemma RerunCards(cards: seq<Card>, now1: DateTime, now2: DateTime)
    requires ValidDateTime(now1) && ValidDateTime(now2)
    requires AddMonths(now1.date, 1).Some? && AddMonths(now2.date, 1).Some?
    ensures RunCards(RunCards(cards, now1), now2) == RunCards(cards, now2)
  {
    var kept := Filter(cards, KeepCard);
    RosterIdsListed();
    CleanupUndoesUpserts(kept, VIP_CARDS, now1, AddMonths(now1.date, 1).value);
    FilterKeepsAll(kept, KeepCard);
    assert Filter(RunCards(cards, now1), KeepCard) == kept;
  }

  /** A second run deletes the first run's roster payments before adding its own. */
  lemma RerunPayments(payments: seq<MonthlyPayment>, now1: DateTime, draws1: seq<seq<PaymentDraw>>, monthlyFee1: int,
                      now2: DateTime, draws2: seq<seq<PaymentDraw>>, monthlyFee2: int)
    requires ValidDateTime(now1) && ValidDateTime(now2)
    requires WalkFits(now1.date, DEFAULT_MONTH_COUNT) && WalkFits(now2.date, DEFAULT_MONTH_COUNT)
    requires ValidPaymentDraws(draws1, DEFAULT_MONTH_COUNT) && ValidPaymentDraws(draws2, DEFAULT_MONTH_COUNT)
    ensures RunPayments(RunPayments(payments, now1, monthlyFee1, draws1), now2, monthlyFee2, draws2)
         == RunPayments(payments, now2, monthlyFee2, draws2)
  {
    var kept := Filter(payments, KeepPayment);
    var history := RosterPayments(VIP_CARDS, now1.date, monthlyFee1, DEFAULT_MONTH_COUNT, draws1);
    FilterAppend(kept, history, KeepPayment);
    FilterKeepsAll(kept, KeepPayment);
    RosterIdsListed();
    CleanupUndoesPayments(VIP_CARDS, now1.date, monthlyFee1, DEFAULT_MONTH_COUNT, draws1);
    assert Filter(kept + history, KeepPayment) == kept;
  }

  /** Running the generator on the tables a completed run left gives the same
      tables as running it once on the original tables: nothing accumulates. */
  lemma RunTwiceIsRunOnce(transactions: seq<Transaction>, cards: seq<Card>, payments: seq<MonthlyPayment>,
                          now1: DateTime, days1: seq<seq<EventDraw>>, draws1: seq<seq<PaymentDraw>>,
                          now2: DateTime, days2: seq<seq<EventDraw>>, draws2: seq<seq<PaymentDraw>>,
                          hourlyFee1: int, hourlyFee2: int, monthlyFee1: int, monthlyFee2: int)
    requires ValidDateTime(now1) && ValidDateTime(now2)
    requires ValidBatchDraws(ToSeconds(now1), days1)
    requires RunSucceeds(now1, days1) && RunSucceeds(now2, days2)
    requires ValidPaymentDraws(draws1, DEFAULT_MONTH_COUNT) && ValidPaymentDraws(draws2, DEFAULT_MONTH_COUNT)
    ensures RunTransactions(RunTransactions(transactions, now1, hourlyFee1, days1), now2, hourlyFee2, days2)
         == RunTransactions(transactions, now2, hourlyFee2, days2)
    ensures RunCards(RunCards(cards, now1), now2) == RunCards(cards, now2)
    ensures RunPayments(RunPayments(payments, now1, monthlyFee1, draws1), now2, monthlyFee2, draws2)
         == RunPayments(payments, now2, monthlyFee2, draws2)
  {
    RerunTransactions(transactions, now1, days1, hourlyFee1, now2, days2, hourlyFee2);
    RerunCards(cards, now1, now2);
    RerunPayments(payments, now1, draws1, monthlyFee1, now2, draws2, monthlyFee2);
  }
}
