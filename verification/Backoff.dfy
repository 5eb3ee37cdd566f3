/** The back-off tables of the login form and of node enrollment, and how long a guesser must wait. */
module Backoff {
  import opened Text

  /** The longest lock in seconds, and the power of two at which doubling stops. */
  datatype Limits = Limits(cap: nat, top: nat)

  const LOGIN := Limits(900, 9)
  const ENROLLMENT := Limits(1800, 11)

  /** One row: failures counted since the last success, and the second the lock ends. */
  datatype Attempts = Attempts(fails: nat, lockedUntil: int)

  type Table = map<string, Attempts>

  function Min(a: nat, b: nat): nat { if a <= b then a else b }

  function Pow2(n: nat): nat { if n == 0 then 1 else 2 * Pow2(n - 1) }

  /** How long the n-th failure in a row locks an address. */
  function Lock(limits: Limits, n: nat): nat {
    if n < 5 then 0 else Min(limits.cap, Pow2(Min(n, limits.top)))
  }

  function Left(rows: Table, ip: string, now: int): nat {
    if ip in rows && rows[ip].lockedUntil > now then rows[ip].lockedUntil - now else 0
  }

  /** The lock of the address has not ended yet. */
  predicate LockedAt(rows: Table, ip: string, now: int) {
    ip in rows && now < rows[ip].lockedUntil
  }

  function Fails(rows: Table, ip: string): nat {
    if ip in rows then rows[ip].fails else 0
  }

  /** What an examined request turned out to be: a failure that is counted, a success, or neither. */
  datatype Verdict = Wrong | Right | Neither

  datatype Answer = Refused(left: nat) | Examined(verdict: Verdict)

  /** The gate of both handlers: a locked address is not examined. */
  function Judged(rows: Table, ip: string, checked: int, verdict: Verdict): Answer {
    if Left(rows, ip, checked) > 0 then Refused(Left(rows, ip, checked)) else Examined(verdict)
  }

  /** The table after a failure counted at `now`. */
  function Counted(limits: Limits, rows: Table, ip: string, now: int): Table {
    var n := Fails(rows, ip) + 1;
    rows[ip := Attempts(n, if n >= 5 then now + Lock(limits, n) else 0)]
  }

  datatype EnrollReply = Closed | RateLimited | NotAllowed | BadKey | Allowed

  class AttemptTable {
    const limits: Limits
    var rows: Table

    constructor (limits: Limits)
      ensures this.limits == limits && rows == map[]
    {
      this.limits := limits;
      rows := map[];
    }

    /** login_locked, locked */
    method Locked(ip: string, now: int) returns (left: nat)
      ensures left == Left(rows, ip, now)
      ensures left > 0 <==> LockedAt(rows, ip, now)
      ensures left > 0 ==> now + left == rows[ip].lockedUntil
    {
      left := 0;
      if ip in rows {
        var rest := rows[ip].lockedUntil - now;
        left := if rest > 0 then rest else 0;
      }
    }

    /** login_failed, failed */
    method Failed(ip: string, now: int)
      modifies this
      ensures rows == Counted(limits, old(rows), ip, now)
    {
      var fails := (if ip in rows then rows[ip].fails else 0) + 1;
      var until := 0;
      if fails >= 5 {
        until := now + Min(limits.cap, Pow2(Min(fails, limits.top)));
      }
      rows := rows[ip := Attempts(fails, until)];
    }

    /** login_ok, ok */
    method Ok(ip: string)
      modifies this
      ensures rows == old(rows) - {ip}
    {
      rows := rows - {ip};
    }

    /** clear_login_locks; None clears every address. */
    method Clear(ip: Option<string>) returns (removed: nat)
      modifies this
      ensures rows == if ip.Some? && ip.value != "" then old(rows) - {ip.value} else map[]
      ensures removed == |old(rows)| - |rows|
    {
      var before := |rows|;
      if ip.Some? && ip.value != "" {
        RemoveSize(rows, ip.value);
        rows := rows - {ip.value};
      } else {
        rows := map[];
      }
      removed := before - |rows|;
    }

    /** The login form; the password is checked between the two readings of the clock. */
    method Login(ip: string, checked: int, good: bool, failed: int) returns (answer: Answer)
      modifies this
      ensures answer == Judged(old(rows), ip, checked, if good then Right else Wrong)
      ensures rows == After(limits, old(rows), Attempt(ip, checked, if good then Right else Wrong, failed))
    {
      var left := Locked(ip, checked);
      if left != 0 {
        return Refused(left);
      }
      if !good {
        Failed(ip, failed);
        return Examined(Wrong);
      }
      Ok(ip);
      answer := Examined(Right);
    }

    /** The gate of enrollment. keyGood is None when no key is configured. */
    method Gate(off: bool, ip: string, checked: int, addressAllowed: bool, keyGood: Option<bool>, failed: int)
      returns (reply: EnrollReply)
      modifies this
      ensures reply == EnrollAnswer(off, Left(old(rows), ip, checked) > 0, addressAllowed, keyGood)
      ensures reply == Allowed <==> !off && !LockedAt(old(rows), ip, checked) && addressAllowed && keyGood != Some(false)
      ensures reply == BadKey <==> !off && !LockedAt(old(rows), ip, checked) && addressAllowed && keyGood == Some(false)
      ensures reply == RateLimited <==> !off && LockedAt(old(rows), ip, checked)
      ensures reply == Closed <==> off
      ensures rows == if reply == BadKey then Counted(limits, old(rows), ip, failed) else old(rows)
      ensures rows == if off then old(rows)
                      else After(limits, old(rows), Attempt(ip, checked, EnrollVerdict(addressAllowed, keyGood), failed))
    {
      if off {
        return Closed;
      }
      var left := Locked(ip, checked);
      if left != 0 {
        return RateLimited;
      }
      if !addressAllowed {
        return NotAllowed;
      }
      if keyGood == Some(false) {
        Failed(ip, failed);
        return BadKey;
      }
      reply := Allowed;
    }
  }

  function EnrollAnswer(off: bool, locked: bool, addressAllowed: bool, keyGood: Option<bool>): EnrollReply {
    if off then Closed
    else if locked then RateLimited
    else if !addressAllowed then NotAllowed
    else if keyGood == Some(false) then BadKey
    else Allowed
  }

  /** Only a wrong key from an allowed address counts. */
  function EnrollVerdict(addressAllowed: bool, keyGood: Option<bool>): Verdict {
    if addressAllowed && keyGood == Some(false) then Wrong else Neither
  }

  lemma RemoveSize(rows: Table, ip: string)
    ensures |rows - {ip}| <= |rows|
  {}

  // ---------- runs ----------

  /**
   * A request judged at `checked` and, if wrong, counted at `failed`; or rows dropped by success or an
   * operator. The unlock command is another process: Torn is a failure with an unlock, of the address or of
   * all, between the reading of its row and the writing.
   */
  datatype Event =
    | Attempt(ip: string, checked: int, verdict: Verdict, failed: int)
    | Forget(ip: string)
    | ForgetAll
    | Torn(ip: string, checked: int, failed: int, all: bool)

  predicate Unlocks(e: Event, ip: string) {
    e.ForgetAll? || (e.Forget? && e.ip == ip) || (e.Torn? && (e.all || e.ip == ip))
  }

  function Unlocked(rows: Table, ip: string, all: bool): Table {
    if all then map[] else rows - {ip}
  }

  function After(limits: Limits, rows: Table, event: Event): Table {
    match event
    case Attempt(ip, checked, verdict, failed) =>
      if Judged(rows, ip, checked, verdict).Refused? then rows
      else
        match verdict {
          case Wrong => Counted(limits, rows, ip, failed)
          case Right => rows - {ip}
          case Neither => rows
        }
    case Forget(ip) => rows - {ip}
    case ForgetAll => map[]
    case Torn(ip, checked, failed, all) =>
      if Judged(rows, ip, checked, Wrong).Refused? then Unlocked(rows, ip, all)
      else Unlocked(rows, ip, all)[ip := Counted(limits, rows, ip, failed)[ip]]
  }

  function Run(limits: Limits, events: seq<Event>): Table {
    if events == [] then map[] else After(limits, Run(limits, events[..|events| - 1]), events[|events| - 1])
  }

  /** The clock never goes back, within a request or between requests. */
  predicate Monotone(events: seq<Event>) {
    && (forall i :: 0 <= i < |events| && Timed(events[i]) ==> events[i].checked <= events[i].failed)
    && forall i, j :: 0 <= i < j < |events| && Timed(events[i]) && Timed(events[j]) ==>
         events[i].failed <= events[j].checked
  }

  predicate Timed(e: Event) { e.Attempt? || e.Torn? }

  /** The failures of an address after one more event. */
  function NextTimes(rows: Table, e: Event, ip: string, times: seq<int>): seq<int> {
    match e
    case Attempt(who, checked, verdict, failed) =>
      if who != ip || Left(rows, who, checked) > 0 then times
      else
        match verdict {
          case Wrong => times + [failed]
          case Right => []
          case Neither => times
        }
    case Torn(who, checked, failed, all) =>
      if who == ip && Left(rows, who, checked) == 0 then [failed]
      else if Unlocks(e, ip) then []
      else times
    case _ => if Unlocks(e, ip) then [] else times
  }

  /** When the failures of an address were counted, since its last success or unlock. */
  function Times(limits: Limits, events: seq<Event>, ip: string): seq<int> {
    if events == [] then []
    else
      var before := events[..|events| - 1];
      NextTimes(Run(limits, before), events[|events| - 1], ip, Times(limits, before, ip))
  }

  /** Each failure after the fifth waited out the lock of the one before. */
  ghost predicate WaitedOut(limits: Limits, times: seq<int>) {
    forall i :: 1 <= i < |times| ==> times[i] >= times[i - 1] + Lock(limits, i)
  }

  /**
   * The row of an address says what its failures were: at least as many as were counted since the last
   * unlock, more only after a torn one, and locked from the last of them.
   */
  ghost predicate Told(limits: Limits, rows: Table, ip: string, times: seq<int>) {
    if times == [] then ip !in rows
    else
      && ip in rows && rows[ip].fails >= |times|
      && rows[ip].lockedUntil == if rows[ip].fails >= 5 then times[|times| - 1] + Lock(limits, rows[ip].fails) else 0
  }

  lemma {:induction false} PowersRise(a: nat, b: nat)
    requires a <= b
    ensures Pow2(a) <= Pow2(b)
    decreases b - a
  {
    if a < b {
      PowersRise(a + 1, b);
    }
  }

  /** More failures never lock for less time. */
  lemma LocksRise(limits: Limits, a: nat, b: nat)
    requires a <= b
    ensures Lock(limits, a) <= Lock(limits, b) <= limits.cap
  {
    PowersRise(Min(a, limits.top), Min(b, limits.top));
  }

  predicate Before(times: seq<int>, now: int) {
    forall i :: 0 <= i < |times| ==> times[i] <= now
  }

  lemma {:induction false} TimesArePast(limits: Limits, events: seq<Event>, ip: string, now: int)
    requires forall i :: 0 <= i < |events| && Timed(events[i]) ==> events[i].failed <= now
    ensures Before(Times(limits, events, ip), now)
    decreases |events|
  {
    if events != [] {
      TimesArePast(limits, events[..|events| - 1], ip, now);
    }
  }

  lemma MonotoneFront(events: seq<Event>)
    requires Monotone(events) && events != []
    ensures Monotone(events[..|events| - 1])
    ensures var e := events[|events| - 1];
            Timed(e) ==> forall i :: 0 <= i < |events| - 1 && Timed(events[i]) ==> events[i].failed <= e.checked
  {}

  lemma FailureIsTold(limits: Limits, rows: Table, ip: string, times: seq<int>, checked: int, failed: int)
    requires Told(limits, rows, ip, times) && WaitedOut(limits, times) && Before(times, checked) && checked <= failed
    requires Left(rows, ip, checked) == 0
    ensures Told(limits, Counted(limits, rows, ip, failed), ip, times + [failed])
    ensures WaitedOut(limits, times + [failed])
  {
    if times != [] {
      LocksRise(limits, |times|, rows[ip].fails);
    }
  }

  lemma StepIsTold(limits: Limits, rows: Table, e: Event, ip: string, times: seq<int>)
    requires Told(limits, rows, ip, times) && WaitedOut(limits, times)
    requires Timed(e) ==> e.checked <= e.failed && Before(times, e.checked)
    ensures Told(limits, After(limits, rows, e), ip, NextTimes(rows, e, ip, times))
    ensures WaitedOut(limits, NextTimes(rows, e, ip, times))
  {
    if e.Attempt? && e.ip == ip && Left(rows, ip, e.checked) == 0 && e.verdict == Wrong {
      FailureIsTold(limits, rows, ip, times, e.checked, e.failed);
    }
  }

  /** In every run with a monotone clock the table is true to the failures, and they are spaced. */
  lemma {:induction false} RunIsTold(limits: Limits, events: seq<Event>, ip: string)
    requires Monotone(events)
    ensures Told(limits, Run(limits, events), ip, Times(limits, events, ip))
    ensures WaitedOut(limits, Times(limits, events, ip))
    decreases |events|
  {
    if events != [] {
      var before, e := events[..|events| - 1], events[|events| - 1];
      MonotoneFront(events);
      RunIsTold(limits, before, ip);
      if Timed(e) {
        TimesArePast(limits, before, ip, e.checked);
      }
      StepIsTold(limits, Run(limits, before), e, ip, Times(limits, before, ip));
    }
  }

  /** Where no failure is torn by an unlock, the row counts exactly the failures since the last one. */
  lemma {:induction false} UntornIsExact(limits: Limits, events: seq<Event>, ip: string)
    requires forall i :: 0 <= i < |events| ==> !events[i].Torn?
    ensures Fails(Run(limits, events), ip) == |Times(limits, events, ip)|
    decreases |events|
  {
    if events != [] {
      UntornIsExact(limits, events[..|events| - 1], ip);
    }
  }

  /** An unlock that falls into a failure is undone by it: the address is locked for as long as without it. */
  lemma TornUnlockIsUndone(limits: Limits, events: seq<Event>, ip: string, checked: int, failed: int, all: bool)
    requires Left(Run(limits, events), ip, checked) == 0 && Fails(Run(limits, events), ip) >= 4
    ensures var torn := Run(limits, events + [Torn(ip, checked, failed, all)]);
            && Left(torn, ip, failed) == Lock(limits, Fails(Run(limits, events), ip) + 1)
            && Left(torn, ip, failed) == Left(Run(limits, events + [Attempt(ip, checked, Wrong, failed)]), ip, failed)
  {
    RunThen(limits, events, Torn(ip, checked, failed, all));
    RunThen(limits, events, Attempt(ip, checked, Wrong, failed));
  }

  // ---------- how long guessing takes ----------

  /** The locks of failures 5 to n - 1, which the n-th has waited out. */
  function Span(limits: Limits, n: nat): nat {
    if n <= 5 then 0 else Span(limits, n - 1) + Lock(limits, n - 1)
  }

  lemma {:induction false} WaitedSpans(limits: Limits, times: seq<int>, n: nat)
    requires WaitedOut(limits, times) && 5 <= n <= |times|
    ensures times[n - 1] - times[4] >= Span(limits, n)
  {
    if n > 5 {
      WaitedSpans(limits, times, n - 1);
    }
  }

  lemma Powers()
    ensures Pow2(5) == 32 && Pow2(6) == 64 && Pow2(7) == 128 && Pow2(8) == 256 && Pow2(9) == 512
    ensures Pow2(10) == 1024 && Pow2(11) == 2048
  {}

  /** The locks of the login form: none before the fifth failure, then doubling from 32 to 512 seconds. */
  lemma LoginLocks(n: nat)
    ensures Lock(LOGIN, n) == if n < 5 then 0 else if n == 5 then 32 else if n == 6 then 64 else if n == 7 then 128
                              else if n == 8 then 256 else 512
  {
    Powers();
  }

  /** The locks of enrollment: the same, on to 1024 and then 1800 seconds. */
  lemma EnrollmentLocks(n: nat)
    ensures Lock(ENROLLMENT, n) == if n < 5 then 0 else if n == 5 then 32 else if n == 6 then 64 else if n == 7 then 128
                                   else if n == 8 then 256 else if n == 9 then 512 else if n == 10 then 1024 else 1800
  {
    Powers();
  }

  lemma {:induction false} LoginSpan(n: nat)
    requires n >= 9
    ensures Span(LOGIN, n) == 480 + 512 * (n - 9)
  {
    Powers();
    if n == 9 {
      assert Span(LOGIN, 7) == 96;
    } else {
      LoginSpan(n - 1);
    }
  }

  lemma {:induction false} EnrollmentSpan(n: nat)
    requires n >= 11
    ensures Span(ENROLLMENT, n) == 2016 + 1800 * (n - 11)
  {
    Powers();
    if n == 11 {
      assert Span(ENROLLMENT, 7) == 96;
      assert Span(ENROLLMENT, 9) == 480;
    } else {
      EnrollmentSpan(n - 1);
    }
  }

  /** In any run, n >= 9 counted login failures of one address take 480 + 512 * (n - 9) seconds from the fifth. */
  lemma LoginGuessingIsSlow(events: seq<Event>, ip: string, n: nat)
    requires Monotone(events) && 9 <= n <= |Times(LOGIN, events, ip)|
    ensures var times := Times(LOGIN, events, ip);
            times[n - 1] - times[4] >= 480 + 512 * (n - 9)
  {
    RunIsTold(LOGIN, events, ip);
    WaitedSpans(LOGIN, Times(LOGIN, events, ip), n);
    LoginSpan(n);
  }

  /** The same for enrollment keys: 2016 + 1800 * (n - 11) seconds. */
  lemma EnrollmentGuessingIsSlow(events: seq<Event>, ip: string, n: nat)
    requires Monotone(events) && 11 <= n <= |Times(ENROLLMENT, events, ip)|
    ensures var times := Times(ENROLLMENT, events, ip);
            times[n - 1] - times[4] >= 2016 + 1800 * (n - 11)
  {
    RunIsTold(ENROLLMENT, events, ip);
    WaitedSpans(ENROLLMENT, Times(ENROLLMENT, events, ip), n);
    EnrollmentSpan(n);
  }

  // ---------- nobody is locked out longer than that ----------

  /** The n wrong guesses of one address that each wait exactly as long as they must. */
  function Patient(limits: Limits, ip: string, n: nat): seq<Event> {
    if n == 0 then []
    else Patient(limits, ip, n - 1) + [Attempt(ip, Span(limits, n), Wrong, Span(limits, n))]
  }

  lemma {:induction false} PatientIsMonotone(limits: Limits, ip: string, n: nat)
    ensures |Patient(limits, ip, n)| == n && Monotone(Patient(limits, ip, n))
    ensures var events := Patient(limits, ip, n);
            forall i :: 0 <= i < n ==> events[i].Attempt? && events[i].failed <= Span(limits, n)
  {
    if n > 0 {
      PatientIsMonotone(limits, ip, n - 1);
    }
  }

  lemma RunThen(limits: Limits, events: seq<Event>, e: Event)
    ensures Run(limits, events + [e]) == After(limits, Run(limits, events), e)
  {}

  lemma FailureIsTimed(limits: Limits, events: seq<Event>, ip: string, now: int)
    requires Left(Run(limits, events), ip, now) == 0
    ensures Times(limits, events + [Attempt(ip, now, Wrong, now)], ip) == Times(limits, events, ip) + [now]
  {}

  /** The times at which the bound lets failures 1 to n happen. */
  function Spans(limits: Limits, n: nat): (times: seq<int>)
    ensures |times| == n && (n > 0 ==> times[n - 1] == Span(limits, n))
  {
    if n == 0 then [] else Spans(limits, n - 1) + [Span(limits, n)]
  }

  lemma NextIsDue(limits: Limits, ip: string, n: nat)
    requires Times(limits, Patient(limits, ip, n), ip) == Spans(limits, n)
    ensures Left(Run(limits, Patient(limits, ip, n)), ip, Span(limits, n + 1)) == 0
  {
    PatientIsMonotone(limits, ip, n);
    RunIsTold(limits, Patient(limits, ip, n), ip);
    UntornIsExact(limits, Patient(limits, ip, n), ip);
  }

  /** The bound is exact: every one of those guesses is examined, and they take no longer than it says. */
  lemma {:induction false} PatienceIsEnough(limits: Limits, ip: string, n: nat)
    ensures Times(limits, Patient(limits, ip, n), ip) == Spans(limits, n)
  {
    if n > 0 {
      var before := Patient(limits, ip, n - 1);
      PatienceIsEnough(limits, ip, n - 1);
      NextIsDue(limits, ip, n - 1);
      FailureIsTimed(limits, before, ip, Span(limits, n));
    }
  }

  /** In any run, an address that stays away for `cap` seconds after its last failure is examined again. */
  lemma LockEnds(limits: Limits, events: seq<Event>, ip: string, now: int, verdict: Verdict)
    requires Monotone(events) && now >= 0
    requires forall i :: 0 <= i < |Times(limits, events, ip)| ==> Times(limits, events, ip)[i] + limits.cap <= now
    ensures Judged(Run(limits, events), ip, now, verdict) == Examined(verdict)
  {
    RunIsTold(limits, events, ip);
    LocksRise(limits, 0, Fails(Run(limits, events), ip));
  }

  /** The events that touch one address. */
  function Concerning(events: seq<Event>, ip: string): seq<Event> {
    if events == [] then []
    else
      var rest, e := Concerning(events[..|events| - 1], ip), events[|events| - 1];
      if Touches(e, ip) then rest + [e] else rest
  }

  predicate Touches(e: Event, ip: string) {
    Unlocks(e, ip) || (e.Attempt? && e.ip == ip)
  }

  predicate Agree(a: Table, b: Table, ip: string) {
    if ip in a then ip in b && a[ip] == b[ip] else ip !in b
  }

  lemma AfterElsewhere(limits: Limits, rows: Table, e: Event, ip: string)
    requires !Touches(e, ip)
    ensures Agree(After(limits, rows, e), rows, ip)
  {}

  lemma AfterAgrees(limits: Limits, a: Table, b: Table, e: Event, ip: string)
    requires Agree(a, b, ip) && Touches(e, ip)
    ensures Agree(After(limits, a, e), After(limits, b, e), ip)
  {}

  /** One address cannot lock, or unlock, another: its row is what its own events make it. */
  lemma {:induction false} AddressesAreApart(limits: Limits, events: seq<Event>, ip: string)
    ensures Agree(Run(limits, events), Run(limits, Concerning(events, ip)), ip)
    decreases |events|
  {
    if events != [] {
      var before, e := events[..|events| - 1], events[|events| - 1];
      var own := Concerning(before, ip);
      AddressesAreApart(limits, before, ip);
      if Touches(e, ip) {
        AfterAgrees(limits, Run(limits, before), Run(limits, own), e, ip);
        RunThen(limits, own, e);
      } else {
        AfterElsewhere(limits, Run(limits, before), e, ip);
      }
    }
  }
}
