/**
  The rows of the parking database that the generator reads and writes,
  the fixed roster of subscription cards, and the row predicates of the
  cleanup stage (including SQLite's `LIKE`, which the cleanup relies on).
*/
module Records {
  import opened CalendarMath

  /** A row of `transactions`; times are seconds since 0001-01-01 00:00:00. */
  datatype Transaction = Transaction(
    cardId: string,
    licensePlate: string,
    entryTime: int,
    exitTime: int,
    fee: int,
    entrySnapshot: string,
    exitSnapshot: string,
    securityUser: string)

  /** A row of `cards`; `createdAt` is in seconds, `expiryDate` a calendar date and time. */
  datatype Card = Card(
    cardId: string,
    holderName: string,
    licensePlate: string,
    ticketType: string,
    expiryDate: DateTime,
    createdAt: int,
    status: string)

  /** A row of `monthly_payments`; `month` is a `YYYY-MM` label. */
  datatype MonthlyPayment = MonthlyPayment(cardId: string, month: string, amount: int, paidAt: DateTime)

  /** A long-term subscriber of the fixed roster. */
  datatype RosterEntry = RosterEntry(cardId: string, holderName: string, licensePlate: string)

  const VIP_CARDS: seq<RosterEntry> := [
    RosterEntry("E4 1A 9B F1", "Nguyễn Văn Giám Đốc", "30H-888.88"),
    RosterEntry("C2 5D 88 AA", "Trần Thị Trưởng Phòng", "29A-678.99"),
    RosterEntry("9F 12 33 4C", "Lê Văn Nhân Viên", "18B-123.45"),
    RosterEntry("B1 00 5E 7F", "Phạm Thị Thư Ký", "90A-555.55")
  ]

  /** The card codes of a roster, in roster order. */
  function CardIdsOf(roster: seq<RosterEntry>): (ids: seq<string>)
    ensures |ids| == |roster| && forall i :: 0 <= i < |roster| ==> ids[i] == roster[i].cardId
  {
    if roster == [] then [] else [roster[0].cardId] + CardIdsOf(roster[1..])
  }

  const VIP_IDS: seq<string> := CardIdsOf(VIP_CARDS)

  /** The actor tag carried by every generated casual transaction. */
  const SEED_USER := "dieptb"
  const PLACEHOLDER_SNAPSHOT := "placeholder.jpg"

  /** Card-code patterns of earlier versions of the generator. */
  const MONTH_VIP_PATTERN := "MONTH_VIP_%"
  const FAKE_PATTERN := "FAKE_%"

  // ---------------------------------------------------------------------
  // Deleting rows keeps the others, in order

  /** The rows of `s` that satisfy `keep`, in their original order. */
  function Filter<T(!new)>(s: seq<T>, keep: T -> bool): (r: seq<T>)
    ensures |r| <= |s|
    ensures forall x :: x in r <==> x in s && keep(x)
  {
    if s == [] then [] else (if keep(s[0]) then [s[0]] else []) + Filter(s[1..], keep)
  }

  /** Appending rows to a table made of two parts extends its second part. */
  lemma AppendAssociates<T>(a: seq<T>, b: seq<T>, c: seq<T>)
    ensures a + b + c == a + (b + c)
  {
  }

  lemma {:induction false} FilterAppend<T(!new)>(a: seq<T>, b: seq<T>, keep: T -> bool)
    ensures Filter(a + b, keep) == Filter(a, keep) + Filter(b, keep)
  {
    if a != [] {
      FilterAppend(a[1..], b, keep);
      assert (a + b)[1..] == a[1..] + b;
    } else {
      assert a + b == b;
    }
  }

  /** Rows that no condition removes are all kept, unchanged and in order. */
  lemma {:induction false} FilterKeepsAll<T(!new)>(s: seq<T>, keep: T -> bool)
    requires forall x :: x in s ==> keep(x)
    ensures Filter(s, keep) == s
  {
    if s != [] {
      FilterKeepsAll(s[1..], keep);
    }
  }

  /** Two deletions in a row keep what both keep. */
  lemma {:induction false} FilterFilter<T(!new)>(s: seq<T>, first: T -> bool, second: T -> bool, both: T -> bool)
    requires forall x :: both(x) == (first(x) && second(x))
    ensures Filter(Filter(s, first), second) == Filter(s, both)
  {
    if s != [] {
      FilterFilter(s[1..], first, second, both);
      FilterAppend(if first(s[0]) then [s[0]] else [], Filter(s[1..], first), second);
    }
  }

  /** Number of rows satisfying `p`. */
  function Count<T(!new)>(s: seq<T>, p: T -> bool): nat {
    |Filter(s, p)|
  }

  // ---------------------------------------------------------------------
  // SQLite's LIKE: `%` matches any run of characters, `_` any one
  // character, and letters compare without regard to ASCII case.

  function AsciiLower(c: char): char {
    if 'A' <= c <= 'Z' then (c as int + 32) as char else c
  }

  function Like(s: string, pattern: string): bool
    decreases |s| + |pattern|
  {
    if pattern == [] then s == []
    else if pattern[0] == '%' then Like(s, pattern[1..]) || (s != [] && Like(s[1..], pattern))
    else s != [] && (pattern[0] == '_' || AsciiLower(s[0]) == AsciiLower(pattern[0])) && Like(s[1..], pattern[1..])
  }

  /** `t` matches the fixed pattern `q` character by character. */
  predicate MatchesFixed(t: string, q: string) {
    |t| == |q| && forall i :: 0 <= i < |q| ==> q[i] == '_' || AsciiLower(t[i]) == AsciiLower(q[i])
  }

  lemma {:induction false} LikeAnySuffix(s: string)
    ensures Like(s, "%")
  {
    if s != [] {
      LikeAnySuffix(s[1..]);
    }
  }

  /** A pattern made of a fixed part followed by `%` matches exactly the
      strings that start with a match of the fixed part. */
  lemma {:induction false} LikePrefix(s: string, q: string)
    requires '%' !in q
    ensures Like(s, q + "%") <==> |s| >= |q| && MatchesFixed(s[..|q|], q)
  {
    if q == [] {
      LikeAnySuffix(s);
      assert q + "%" == "%";
    } else {
      assert (q + "%")[1..] == q[1..] + "%";
      if s != [] {
        LikePrefix(s[1..], q[1..]);
        if |s| >= |q| {
          assert s[1..][..|q| - 1] == s[..|q|][1..];
        }
      }
    }
  }

  /** `card_id LIKE 'MONTH_VIP_%'`: at least ten characters, `MONTH`, any one,
      `VIP`, any one, in any ASCII case. */
  lemma MonthVipPattern(s: string)
    ensures Like(s, MONTH_VIP_PATTERN) <==> |s| >= 10 && MatchesFixed(s[..10], "MONTH_VIP_")
  {
    var q := "MONTH_VIP_";
    assert MONTH_VIP_PATTERN == q + "%";
    LikePrefix(s, q);
  }

  /** `card_id LIKE 'FAKE_%'`: at least five characters starting with `FAKE` in any ASCII case. */
  lemma FakePattern(s: string)
    ensures Like(s, FAKE_PATTERN) <==> |s| >= 5 && MatchesFixed(s[..5], "FAKE_")
  {
    var q := "FAKE_";
    assert FAKE_PATTERN == q + "%";
    LikePrefix(s, q);
  }

  // ---------------------------------------------------------------------
  // What the cleanup stage keeps

  predicate KeepTransaction(t: Transaction) {
    t.securityUser != SEED_USER
  }

  predicate NotRosterCard(c: Card) {
    c.cardId !in VIP_IDS
  }

  predicate NotLegacyCard(c: Card) {
    !Like(c.cardId, MONTH_VIP_PATTERN) && !Like(c.cardId, FAKE_PATTERN)
  }

  predicate KeepCard(c: Card) {
    NotRosterCard(c) && NotLegacyCard(c)
  }

  predicate NotRosterPayment(p: MonthlyPayment) {
    p.cardId !in VIP_IDS
  }

  predicate NotLegacyPayment(p: MonthlyPayment) {
    !Like(p.cardId, MONTH_VIP_PATTERN)
  }

  predicate KeepPayment(p: MonthlyPayment) {
    NotRosterPayment(p) && NotLegacyPayment(p)
  }

  /** After cleanup no seeded transaction, no roster or legacy card and no
      roster or `MONTH_VIP_` payment is left; every other row stays, and a
      table with nothing to delete is unchanged. */
  lemma CleanupFilters(ts: seq<Transaction>, cs: seq<Card>, ps: seq<MonthlyPayment>)
    ensures forall t :: t in Filter(ts, KeepTransaction) <==> t in ts && t.securityUser != SEED_USER
    ensures forall c :: c in Filter(cs, KeepCard) <==>
      c in cs && c.cardId !in VIP_IDS && !(|c.cardId| >= 10 && MatchesFixed(c.cardId[..10], "MONTH_VIP_"))
      && !(|c.cardId| >= 5 && MatchesFixed(c.cardId[..5], "FAKE_"))
    ensures forall p :: p in Filter(ps, KeepPayment) <==>
      p in ps && p.cardId !in VIP_IDS && !(|p.cardId| >= 10 && MatchesFixed(p.cardId[..10], "MONTH_VIP_"))
    ensures (forall t :: t in ts ==> KeepTransaction(t)) ==> Filter(ts, KeepTransaction) == ts
    ensures (forall c :: c in cs ==> KeepCard(c)) ==> Filter(cs, KeepCard) == cs
    ensures (forall p :: p in ps ==> KeepPayment(p)) ==> Filter(ps, KeepPayment) == ps
  {
    forall c: Card
      ensures KeepCard(c) <==>
        c.cardId !in VIP_IDS && !(|c.cardId| >= 10 && MatchesFixed(c.cardId[..10], "MONTH_VIP_"))
        && !(|c.cardId| >= 5 && MatchesFixed(c.cardId[..5], "FAKE_"))
    {
      MonthVipPattern(c.cardId);
      FakePattern(c.cardId);
    }
    forall p: MonthlyPayment
      ensures KeepPayment(p) <==> p.cardId !in VIP_IDS && !(|p.cardId| >= 10 && MatchesFixed(p.cardId[..10], "MONTH_VIP_"))
    {
      MonthVipPattern(p.cardId);
    }
    if forall t :: t in ts ==> KeepTransaction(t) {
      FilterKeepsAll(ts, KeepTransaction);
    }
    if forall c :: c in cs ==> KeepCard(c) {
      FilterKeepsAll(cs, KeepCard);
    }
    if forall p :: p in ps ==> KeepPayment(p) {
      FilterKeepsAll(ps, KeepPayment);
    }
  }


  /** Cleaning twice removes nothing more. */
  lemma CleanupIdempotent(ts: seq<Transaction>, cs: seq<Card>, ps: seq<MonthlyPayment>)
    ensures Filter(Filter(ts, KeepTransaction), KeepTransaction) == Filter(ts, KeepTransaction)
    ensures Filter(Filter(cs, KeepCard), KeepCard) == Filter(cs, KeepCard)
    ensures Filter(Filter(ps, KeepPayment), KeepPayment) == Filter(ps, KeepPayment)
  {
    FilterKeepsAll(Filter(ts, KeepTransaction), KeepTransaction);
    FilterKeepsAll(Filter(cs, KeepCard), KeepCard);
    FilterKeepsAll(Filter(ps, KeepPayment), KeepPayment);
  }

  /** Deleting roster rows and then legacy rows keeps exactly the rows `KeepCard`
      and `KeepPayment` accept, in their original order. */
  lemma CleanupSteps(cs: seq<Card>, ps: seq<MonthlyPayment>)
    ensures Filter(Filter(cs, NotRosterCard), NotLegacyCard) == Filter(cs, KeepCard)
    ensures Filter(Filter(ps, NotRosterPayment), NotLegacyPayment) == Filter(ps, KeepPayment)
  {
    FilterFilter(cs, NotRosterCard, NotLegacyCard, KeepCard);
    FilterFilter(ps, NotRosterPayment, NotLegacyPayment, KeepPayment);
  }
}
