/**
  Fee configuration and the casual parking fee: settings rows read into a
  key/value map, defaults applied to missing keys, and the fee for a stay
  billed in started hours with a minimum of one hour.
*/
module Fees {

  /** Applied when the settings table has no `fee_per_hour` row. */
  const DEFAULT_HOURLY_FEE := 5000
  /** Applied when the settings table has no `monthly_fee` row. */
  const DEFAULT_MONTHLY_FEE := 1500000

  const HOURLY_FEE_KEY := "fee_per_hour"
  const MONTHLY_FEE_KEY := "monthly_fee"

  /** One row of the `settings` table, its value already an integer. */
  datatype SettingRow = SettingRow(key: string, value: int)

  /** The map that loading `rows` in order builds: a later row for a key
      overwrites an earlier one. */
  function SettingsOf(rows: seq<SettingRow>): map<string, int> {
    if rows == [] then map[]
    else SettingsOf(rows[..|rows| - 1])[rows[|rows| - 1].key := rows[|rows| - 1].value]
  }

  /** A key is configured exactly when some row names it, and its value is the
      one in the last row that names it. */
  lemma {:induction false} SettingsOfLastRowWins(rows: seq<SettingRow>, i: int)
    requires 0 <= i < |rows|
    requires forall j :: i < j < |rows| ==> rows[j].key != rows[i].key
    ensures rows[i].key in SettingsOf(rows) && SettingsOf(rows)[rows[i].key] == rows[i].value
  {
    if i < |rows| - 1 {
      SettingsOfLastRowWins(rows[..|rows| - 1], i);
    }
  }

  lemma {:induction false} SettingsOfKeys(rows: seq<SettingRow>)
    ensures SettingsOf(rows).Keys == set r | r in rows :: r.key
  {
    if rows != [] {
      var init := rows[..|rows| - 1];
      SettingsOfKeys(init);
      assert rows == init + [rows[|rows| - 1]];
    }
  }

  /** `settings.get('fee_per_hour', 5000)`. */
  function HourlyFee(settings: map<string, int>): int {
    if HOURLY_FEE_KEY in settings then settings[HOURLY_FEE_KEY] else DEFAULT_HOURLY_FEE
  }

  /** `settings.get('monthly_fee', 1500000)`. */
  function MonthlyFee(settings: map<string, int>): int {
    if MONTHLY_FEE_KEY in settings then settings[MONTHLY_FEE_KEY] else DEFAULT_MONTHLY_FEE
  }

  /**
    What the loaded map holds for a key: nothing when no row names the key,
    and the value of the last row naming it otherwise.
  */
  lemma RateOfRows(rows: seq<SettingRow>, key: string)
    ensures (forall j :: 0 <= j < |rows| ==> rows[j].key != key) ==> key !in SettingsOf(rows)
    ensures forall i :: 0 <= i < |rows| && rows[i].key == key && (forall j :: i < j < |rows| ==> rows[j].key != key) ==>
      key in SettingsOf(rows) && SettingsOf(rows)[key] == rows[i].value
  {
    SettingsOfKeys(rows);
    forall i | 0 <= i < |rows| && rows[i].key == key && (forall j :: i < j < |rows| ==> rows[j].key != key)
      ensures key in SettingsOf(rows) && SettingsOf(rows)[key] == rows[i].value
    {
      SettingsOfLastRowWins(rows, i);
    }
  }

  /** The hourly rate is the last `fee_per_hour` row's value, or 5000 when no row names it. */
  lemma HourlyFeeOfRows(rows: seq<SettingRow>)
    ensures (forall j :: 0 <= j < |rows| ==> rows[j].key != HOURLY_FEE_KEY) ==> HourlyFee(SettingsOf(rows)) == 5000
    ensures forall i :: 0 <= i < |rows| && rows[i].key == HOURLY_FEE_KEY && (forall j :: i < j < |rows| ==> rows[j].key != HOURLY_FEE_KEY) ==>
      HourlyFee(SettingsOf(rows)) == rows[i].value
  {
    RateOfRows(rows, HOURLY_FEE_KEY);
  }

  /** The monthly rate is the last `monthly_fee` row's value, or 1500000 when no row names it. */
  lemma MonthlyFeeOfRows(rows: seq<SettingRow>)
    ensures (forall j :: 0 <= j < |rows| ==> rows[j].key != MONTHLY_FEE_KEY) ==> MonthlyFee(SettingsOf(rows)) == 1500000
    ensures forall i :: 0 <= i < |rows| && rows[i].key == MONTHLY_FEE_KEY && (forall j :: i < j < |rows| ==> rows[j].key != MONTHLY_FEE_KEY) ==>
      MonthlyFee(SettingsOf(rows)) == rows[i].value
  {
    RateOfRows(rows, MONTHLY_FEE_KEY);
  }

  /** With no settings rows, both rates are the defaults. */
  lemma DefaultRates()
    ensures HourlyFee(SettingsOf([])) == 5000 && MonthlyFee(SettingsOf([])) == 1500000
  {
  }

  /**
    `max(1, -(-minutes // 60))`: the started hours of a stay, at least one.
    Python's `//` floors; with the positive divisor 60 Dafny's `/` agrees.
  */
  function BilledHours(minutes: int): (h: int)
    ensures h >= 1
    ensures minutes > 0 ==> 60 * (h - 1) < minutes <= 60 * h
    ensures minutes <= 60 ==> h == 1
  {
    var ceiling := -((-minutes) / 60);
    if ceiling < 1 then 1 else ceiling
  }

  /** Longer stays are never billed fewer hours. */
  lemma BilledHoursMonotonic(m1: int, m2: int)
    requires m1 <= m2
    ensures BilledHours(m1) <= BilledHours(m2)
  {
  }

  /** The fee for a stay of `minutes` at `hourlyFee` per started hour. */
  function CasualFee(minutes: int, hourlyFee: int): int {
    BilledHours(minutes) * hourlyFee
  }

  /** At a non-negative rate a stay costs at least one hour, and a stay of
      more than an hour costs more than one hour at a positive rate. */
  lemma CasualFeeBounds(minutes: int, hourlyFee: int)
    requires hourlyFee >= 0
    ensures CasualFee(minutes, hourlyFee) >= hourlyFee
    ensures hourlyFee > 0 && minutes > 60 ==> CasualFee(minutes, hourlyFee) >= 2 * hourlyFee
  {
    var h := BilledHours(minutes);
    assert h * hourlyFee >= 1 * hourlyFee;
    if minutes > 60 {
      assert h >= 2;
      assert h * hourlyFee >= 2 * hourlyFee;
    }
  }

  /** Ninety minutes at 5000 per hour is billed as two hours. */
  lemma NinetyMinutesAtDefaultRate()
    ensures CasualFee(90, DEFAULT_HOURLY_FEE) == 10000
  {
  }

  /** `get_settings`: reads the settings rows into a dictionary. */
  method LoadSettings(rows: seq<SettingRow>) returns (settings: map<string, int>)
    ensures settings == SettingsOf(rows)
  {
    settings := map[];
    for i := 0 to |rows|
      invariant settings == SettingsOf(rows[..i])
    {
      assert rows[..i + 1][..i] == rows[..i];
      settings := settings[rows[i].key := rows[i].value];
    }
    assert rows[..|rows|] == rows;
  }
}
