/**
 * The daily download quota of `handle_link`: one (date, count) entry per
 * user, checked and incremented before the video is probed.
 *
 * As written, a request on a new day does not restart the count at 1: it
 * stores (today, old count + 1).  A user who used up the quota on an earlier
 * day is therefore let through exactly once on the next day.
 */
module Quota {
  import T = Translations

  /** A calendar day, as a day number. */
  type Day = int

  const DailyLimit: nat := 5

  datatype Counter = Counter(date: Day, count: nat)

  /** `download_counter.get(user_id, (today, 0))`. */
  function Lookup(counters: map<T.UserId, Counter>, user: T.UserId, today: Day): (c: Counter)
    ensures user !in counters ==> c == Counter(today, 0)
    ensures user in counters ==> c == counters[user]
  {
    if user in counters then counters[user] else Counter(today, 0)
  }

  /** The request is refused: the entry is today's and the limit is used up. */
  predicate Denied(c: Counter, today: Day)
  {
    c.date == today && c.count >= DailyLimit
  }

  /** The entry stored for an admitted request. */
  function Consume(c: Counter, today: Day): (next: Counter)
    requires !Denied(c, today)
    ensures next.date == today && next.count == c.count + 1
    ensures c.date == today ==> next.count <= DailyLimit
  {
    Counter(today, c.count + 1)
  }

  /** The result of one check-and-increment: whether it admitted the request, and the entry afterwards. */
  function Step(c: Counter, today: Day): (r: (bool, Counter))
    ensures r.0 <==> !Denied(c, today)
    ensures r.0 ==> r.1.date == today && r.1.count == c.count + 1
    ensures !r.0 ==> r.1 == c
  {
    if Denied(c, today) then (false, c) else (true, Consume(c, today))
  }

  /** How many of `n` requests made on `today`, starting from entry `c`, are admitted. */
  function Admitted(c: Counter, today: Day, n: nat): nat
    decreases n
  {
    if n == 0 then 0
    else
      var (ok, next) := Step(c, today);
      (if ok then 1 else 0) + Admitted(next, today, n - 1)
  }

  function Min(a: nat, b: nat): nat
  {
    if a <= b then a else b
  }

  /**
   * How many requests `today` still admits from entry `c`: what is left of
   * today's limit, or, for an entry of another day, one request plus what
   * is left of the limit after the old count has been carried over and
   * incremented.
   */
  function Allowance(c: Counter, today: Day): nat
  {
    if c.date == today then (if c.count >= DailyLimit then 0 else DailyLimit - c.count)
    else if c.count + 1 >= DailyLimit then 1
    else DailyLimit - c.count
  }

  /** Of `n` requests on one day, exactly the first `Allowance` are admitted. */
  lemma {:induction false} AdmittedIsAllowance(c: Counter, today: Day, n: nat)
    ensures Admitted(c, today, n) == Min(n, Allowance(c, today))
    decreases n
  {
    if n > 0 {
      var (ok, next) := Step(c, today);
      AdmittedIsAllowance(next, today, n - 1);
    }
  }

  /** A user with no entry gets exactly `DailyLimit` admitted requests on a day. */
  lemma NewUserGetsDailyLimit(today: Day, n: nat)
    ensures Admitted(Lookup(map[], 0, today), today, n) == Min(n, DailyLimit)
  {
    AdmittedIsAllowance(Counter(today, 0), today, n);
  }

  /**
   * The count is carried over a change of day: a user who reached the
   * limit on an earlier day gets one request on the next, not a fresh
   * `DailyLimit`.
   */
  lemma CarriedOverCount(yesterday: Day, today: Day, n: nat)
    requires yesterday != today && n >= 1
    ensures Admitted(Counter(yesterday, DailyLimit), today, n) == 1
  {
    AdmittedIsAllowance(Counter(yesterday, DailyLimit), today, n);
  }

  /** The entry after `n` requests made on `today`, starting from entry `c`. */
  function After(c: Counter, today: Day, n: nat): Counter
    decreases n
  {
    if n == 0 then c else After(Step(c, today).1, today, n - 1)
  }

  /**
   * However many requests a user makes in one day, an entry of that day
   * that starts within the limit never counts more than `DailyLimit`.
   */
  lemma {:induction false} StaysWithinLimit(c: Counter, today: Day, n: nat)
    requires c.date == today && c.count <= DailyLimit
    ensures After(c, today, n).date == today && After(c, today, n).count <= DailyLimit
    decreases n
  {
    if n > 0 {
      StaysWithinLimit(Step(c, today).1, today, n - 1);
    }
  }
}
