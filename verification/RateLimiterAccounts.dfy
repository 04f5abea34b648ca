/** How many packets windows of one second admit in an interval: the arithmetic of the rate limiter's bounds. */
module RateLimiterAccounts {
  import opened Collections
  import opened RateLimiter

  /** The number of seconds, rounded up. */
  function Ceil(t: Time): int {
    (t + SECOND - 1) / SECOND
  }

  /** Whole seconds from `lo` to `t`. */
  function Seconds(lo: Time, t: Time): int {
    (t - lo) / SECOND
  }

  function Spent(w: Window): int {
    if w.count < PER_WINDOW then w.count else PER_WINDOW
  }

  /**
   What is known of stamps: nothing; that every window starts with its first packet, because the stamp is the
   clock reading of the first lock or a second older; or that it is that clock reading.
   */
  datatype Stamps = AnyStamp | Settled | Prompt

  /**
   How many packets beyond two per started second an interval may admit after `e` deletes of refreshed entries
   in it: one, and two for every such delete; one more if stamps may be old, or two after the first delete.
   With prompt stamps an entry that is refreshed was last used ten seconds ago, and all deletes cost two together.
   */
  function Allowance(e: nat, k: Stamps): int {
    match k
    case AnyStamp => if e == 0 then 2 else 3 + 2 * e
    case Settled => 1 + 2 * e
    case Prompt => if e == 0 then 1 else 3
  }

  /** The same when no window counts: there is no entry, or it is new. */
  function Reserve(e: nat, k: Stamps): int {
    match k
    case AnyStamp => if e == 0 then -16 else 1 + 2 * e
    case Settled => 1 + 2 * e
    case Prompt => if e == 0 then 1 else 3
  }

  /** The same for an entry that has been seen stale. */
  function Strict(e: nat, k: Stamps): int {
    if k == Prompt then 1 else 1 + 2 * e
  }

  /**
   What has been admitted since `lo`, given the current window. A window that started before `lo` leaves
   room for the one that follows it; every later window started a second after the previous one.
   */
  predicate Accounted(n: int, lo: Time, w: Window, slack: int) {
    && w.count >= 1
    && if w.start < lo then n <= Spent(w) + slack - PER_WINDOW && (n > 0 ==> lo < w.start + SECOND)
       else n <= 2 * Seconds(lo, w.start) + slack + Spent(w)
  }

  /** The same at time `t` when no window counts. */
  predicate Rested(n: int, lo: Time, t: Time, reserve: int) {
    n <= 0 || n <= 2 * Seconds(lo, t) + reserve
  }

  lemma SecondsApart(lo: Time, t: Time, u: Time, k: int)
    ensures t + k * SECOND <= u ==> Seconds(lo, t) + k <= Seconds(lo, u)
  {
    assert (t - lo + k * SECOND) / SECOND == (t - lo) / SECOND + k;
  }

  /** A window that starts inside the interval leaves room for its packets. */
  lemma InsideInterval(lo: Time, hi: Time, t: Time)
    requires lo <= t < hi
    ensures Seconds(lo, t) + 1 <= Ceil(hi - lo)
  {
    SecondsApart(lo, t, hi + SECOND - 1, 1);
  }

  lemma WithinBound(n: int, n': int, lo: Time, hi: Time, w: Window, now: Time, slack: int)
    requires lo <= hi && slack >= 1 && w.start <= now && 0 <= n <= n' <= n + 1 && n <= 2 * Ceil(hi - lo) + slack
    requires (n' > n ==> lo <= now < hi) && Accounted(n', lo, w, slack)
    ensures n' <= 2 * Ceil(hi - lo) + slack
  {
    if n' > n {
      if w.start >= lo { InsideInterval(lo, hi, w.start); } else { InsideInterval(lo, hi, lo); }
    }
  }

  /** A further packet in a window, or the first of the next window of the same entry. */
  lemma CountAgain(n: int, n': int, lo: Time, w: Window, now: Time, slack: int)
    requires slack >= 1 && w.start <= now && Accounted(n, lo, w, slack) && (n > 0 ==> lo <= now)
    requires 0 <= n <= n' <= n + 1 && (n' > n ==> lo <= now && Admits(w, now))
    ensures Accounted(n', lo, Count(w, now), slack)
  {
    if now - w.start >= SECOND {
      if w.start >= lo { SecondsApart(lo, w.start, now, 1); }
      if now >= lo { SecondsApart(lo, lo, now, 0); }
    }
  }

  /** The first packet of a new entry. */
  lemma CountFirst(n: int, n': int, lo: Time, w: Window, now: Time, reserve: int, slack: int)
    requires w.count == 0 && w.start <= now && Rested(n, lo, now, reserve) && (n > 0 ==> lo <= now)
    requires if Count(w, now).start == now then slack >= reserve && slack >= 1 else slack >= reserve + 2 && slack >= 2
    requires 0 <= n <= n' <= n + 1 && (n' > n ==> lo <= now)
    ensures Accounted(n', lo, Count(w, now), slack)
  {
    var v := Count(w, now);
    SecondsApart(lo, now, v.start + SECOND, 0);
    SecondsApart(lo, v.start, v.start + SECOND, 1);
    if v.start >= lo { SecondsApart(lo, lo, v.start, 0); }
    if lo <= now { SecondsApart(lo, lo, now, 0); }
    SecondsBelow(lo, now);
  }

  /** Less than a second after `lo` no whole second has passed. */
  lemma SecondsBelow(lo: Time, t: Time)
    ensures lo <= t < lo + SECOND ==> Seconds(lo, t) == 0
  {
  }

  /** The first packet of an entry that has been seen stale. */
  lemma CountStale(n: int, n': int, lo: Time, w: Window, now: Time, slack: int)
    requires Stale(w, now) && slack >= 1 && Rested(n, lo, now, slack) && (n > 0 ==> lo <= now)
    requires 0 <= n <= n' <= n + 1 && (n' > n ==> lo <= now)
    ensures Accounted(n', lo, Count(w, now), slack)
  {
    if lo <= now { SecondsApart(lo, lo, now, 0); }
  }

  /** Ten idle seconds. */
  lemma StaleRests(n: int, lo: Time, w: Window, now: Time, slack: int)
    requires Accounted(n, lo, w, slack) && Stale(w, now)
    ensures Rested(n, lo, now, slack - 18)
  {
    if w.start >= lo { SecondsApart(lo, w.start, now, 10); } else { SecondsApart(lo, lo, now, 9); }
  }

  /** A window that is cut off. */
  lemma RefreshedRests(n: int, lo: Time, w: Window, now: Time, slack: int)
    requires Accounted(n, lo, w, slack) && w.start <= now && (n > 0 ==> lo <= now)
    ensures Rested(n, lo, now, slack + 2)
  {
    if w.start >= lo { SecondsApart(lo, w.start, now, 0); }
    if lo <= now { SecondsApart(lo, lo, now, 0); }
  }

  lemma RestsOn(n: int, lo: Time, t: Time, u: Time, reserve: int)
    requires Rested(n, lo, t, reserve) && t <= u
    ensures Rested(n, lo, u, reserve)
  {
    SecondsApart(lo, t, u, 0);
  }

  // ---------- The account of the table's entry ----------

  /**
   What has been admitted, given the entry's window. From a stale check, which saw window `seen`, until the
   delete the account is stricter.
   */
  predicate EntryAccount(n: int, lo: Time, now: Time, w: Window, seen: Option<Window>, e: nat, k: Stamps) {
    if seen.Some? && w != seen.value then Accounted(n, lo, w, Strict(e, k))
    else if w.count == 0 then Rested(n, lo, now, Reserve(e, k))
    else if seen.Some? then Rested(n, lo, now, Reserve(e, k)) && Rested(n, lo, now, Strict(e, k))
    else Accounted(n, lo, w, Allowance(e, k))
  }

  lemma AccountedMore(n: int, lo: Time, w: Window, slack: int, more: int)
    requires Accounted(n, lo, w, slack) && slack <= more
    ensures Accounted(n, lo, w, more)
  {
  }

  /** Counting one more packet. */
  lemma CountEntry(n: int, n': int, lo: Time, hi: Time, now: Time, w: Window, seen: Option<Window>, e: nat, k: Stamps)
    requires lo <= hi && w.count >= 0 && w.start <= now && EntryAccount(n, lo, now, w, seen, e, k)
    requires seen.Some? ==> Stale(seen.value, now) && (w != seen.value ==> w.count >= 1)
    requires w.count == 0 && k == Settled ==> w.start == now || now - w.start >= SECOND
    requires w.count == 0 && k == Prompt ==> w.start == now
    requires 0 <= n <= n' <= n + 1 && n <= 2 * Ceil(hi - lo) + Allowance(e, k)
    requires (n > 0 ==> lo <= now) && (n' > n ==> lo <= now < hi && Admits(w, now))
    ensures EntryAccount(n', lo, now, Count(w, now), seen, e, k) && n' <= 2 * Ceil(hi - lo) + Allowance(e, k)
  {
    var v := Count(w, now);
    if seen.Some? && w != seen.value {
      CountAgain(n, n', lo, w, now, Strict(e, k));
      AccountedMore(n', lo, v, Strict(e, k), Allowance(e, k));
    } else if seen.Some? && (w.count > 0 || k != Prompt) {
      CountStale(n, n', lo, w, now, Strict(e, k));
      AccountedMore(n', lo, v, Strict(e, k), Allowance(e, k));
    } else if w.count == 0 {
      CountFirst(n, n', lo, w, now, Reserve(e, k), Allowance(e, k));
    } else {
      CountAgain(n, n', lo, w, now, Allowance(e, k));
    }
    WithinBound(n, n', lo, hi, v, now, Allowance(e, k));
  }

  /** A stale check that succeeds. */
  lemma SeenStale(n: int, lo: Time, now: Time, w: Window, e: nat, k: Stamps)
    requires EntryAccount(n, lo, now, w, None, e, k) && Stale(w, now) && w.count >= 0
    ensures EntryAccount(n, lo, now, w, Some(w), e, k)
  {
    if w.count > 0 { StaleRests(n, lo, w, now, Allowance(e, k)); }
  }

  lemma EntryRestsOn(n: int, lo: Time, now: Time, later: Time, w: Window, seen: Option<Window>, e: nat, k: Stamps)
    requires EntryAccount(n, lo, now, w, seen, e, k) && now <= later
    ensures EntryAccount(n, lo, later, w, seen, e, k)
  {
    if Rested(n, lo, now, Reserve(e, k)) { RestsOn(n, lo, now, later, Reserve(e, k)); }
    if Rested(n, lo, now, Strict(e, k)) { RestsOn(n, lo, now, later, Strict(e, k)); }
  }
}
