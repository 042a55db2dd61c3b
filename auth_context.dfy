/** The client session state machine of client/src/context/AuthContext.jsx.

    The session holds the signed-in user, the token, the hydrating flag, an error and a
    notice, the persisted token slot (localStorage) and the two timer handles. A pending
    timer is its absolute deadline in milliseconds (`now + delay` of `setTimeout`); a
    timer firing is an explicit call. `Date.now()` is the parameter `now`, the answer of a
    network call is a parameter (None when the promise rejects), `atob`+`JSON.parse` is
    `parse` and `toLocaleTimeString` is `formatTime`.

    Each transition is first a function on the value `State`; the class `AuthSession`
    updates its fields step by step, as the component does, and each of its methods is
    proved to produce exactly the state that function gives. */
module AuthContext {
  import opened Wrappers
  import opened Strings
  import ClientJwt

  /** WARNING_SECONDS: how long before expiry the warning notice appears. */
  const WarningSeconds: nat := 10

  const ExpiredMessage: string := "Session expired. Please log in again."

  /** The user object the server returns. */
  datatype User = User(id: int, name: Option<string>, email: string)

  /** The body of a successful register or login answer. */
  datatype SignInReply = SignInReply(user: User, token: string)

  /** JavaScript truthiness of a possibly-null string. */
  predicate Truthy(s: Option<string>) {
    s.Some? && s.value != ""
  }

  function Max(a: int, b: int): int {
    if a >= b then a else b
  }

  /** `Math.ceil(a / b)` for integers, b positive. */
  function CeilDiv(a: int, b: int): int
    requires b > 0
  {
    (a + b - 1) / b
  }

  /** `Math.max(1, Math.ceil(ms / 1000))`: the whole seconds left, rounded up. */
  function RemainingSeconds(ms: int): (n: nat)
    ensures n >= 1
    ensures ms > 0 ==> (n - 1) * 1000 < ms <= n * 1000
    ensures ms <= WarningSeconds * 1000 ==> n <= WarningSeconds
  {
    Max(1, CeilDiv(ms, 1000))
  }

  /** The notice text, with the seconds already rendered as a string. */
  function NoticeText(seconds: string): string {
    "Session expires in " + seconds + " seconds."
  }

  function WarningNotice(seconds: nat): string {
    NoticeText(NatToString(seconds))
  }

  /** The notice for an Invalid Date: `Math.max(1, Math.ceil(NaN / 1000))` is NaN. */
  const NaNNotice: string := NoticeText("NaN")

  /** What `toLocaleTimeString` gives for an Invalid Date. */
  const InvalidDateText: string := "Invalid Date"

  function ExpiredAtMessage(time: string): string {
    "Session expired at " + time + ". Please log in again."
  }

  /** `Math.max(1, Math.ceil(ms / 1000))` rendered into the notice, "NaN" for a NaN `ms`. */
  function SecondsLeftText(ms: Option<int>): string {
    if ms.Some? then NatToString(RemainingSeconds(ms.value)) else "NaN"
  }

  /** The delay `setTimeout` waits for a positive `ms`, or for NaN, which it runs as 0. */
  function TimerDelay(ms: Option<int>): int {
    if ms.Some? then ms.value else 0
  }

  /** What scheduleSessionTimers decides for a token whose decoded expiry is `expiry`.
      `NaNDeadline` is the Invalid Date: `msUntilExpiry` is NaN, so neither comparison
      holds, the notice reads "NaN seconds", and the logout timer gets a NaN delay, which
      `setTimeout` runs as 0. */
  datatype TimerPlan =
    | NoExpiry
    | AlreadyExpired
    | NaNDeadline
    | Pending(warningAt: Option<int>, noticeSeconds: Option<nat>, logoutAt: int)

  function PlanTimers(expiry: ClientJwt.Expiry, now: int): (p: TimerPlan)
    ensures p.NoExpiry? <==> expiry.NoDate?
    ensures p.NaNDeadline? <==> expiry.InvalidDate?
    ensures p.AlreadyExpired? <==> expiry.At? && expiry.ms <= now
    ensures p.Pending? ==> expiry.At? && p.logoutAt == expiry.ms && p.logoutAt > now
    ensures p.Pending? ==> (p.warningAt.Some? <==> p.logoutAt - now > WarningSeconds * 1000)
    ensures p.Pending? && p.warningAt.Some? ==>
              now < p.warningAt.value == p.logoutAt - WarningSeconds * 1000
    ensures p.Pending? ==> (p.noticeSeconds.Some? <==> p.warningAt.None?)
    ensures p.Pending? && p.noticeSeconds.Some? ==>
              1 <= p.noticeSeconds.value <= WarningSeconds
              && p.noticeSeconds.value == RemainingSeconds(p.logoutAt - now)
  {
    match expiry
    case NoDate => NoExpiry
    case InvalidDate => NaNDeadline
    case At(ms) =>
      var msUntilExpiry := ms - now;
      if msUntilExpiry <= 0 then AlreadyExpired
      else
        var msUntilWarning := msUntilExpiry - WarningSeconds * 1000;
        if msUntilWarning > 0 then Pending(Some(now + msUntilWarning), None, now + msUntilExpiry)
        else Pending(None, Some(RemainingSeconds(msUntilExpiry)), now + msUntilExpiry)
  }

  /** The whole session state. */
  datatype State = State(
    user: Option<User>,
    token: Option<string>,
    isLoading: bool,
    authError: Option<string>,
    authNotice: Option<string>,
    storedToken: Option<string>,
    warningAt: Option<int>,
    logoutAt: Option<int>,
    cancelled: bool)

  /** A logout deadline fits the token's expiry: it is the expiry itself, or any time at
      all for an Invalid Date (whose logout is due as soon as it was scheduled). */
  predicate LogoutDue(e: ClientJwt.Expiry, at: int) {
    e.InvalidDate? || (e.At? && e.ms == at)
  }

  /** The timer invariant: at most one warning and one logout pending (one Option each);
      a warning is pending only together with its logout, ten seconds before it; a pending
      logout belongs to the current, persisted token and is due by that token's expiry. */
  ghost predicate Inv(s: State, parse: string -> Option<ClientJwt.Payload>) {
    && (s.warningAt.Some? ==>
          s.logoutAt.Some? && s.warningAt.value == s.logoutAt.value - WarningSeconds * 1000)
    && (s.logoutAt.Some? ==>
          s.user.Some? && s.token.Some? && s.storedToken == s.token
          && LogoutDue(ClientJwt.TokenExpiry(s.token.value, parse), s.logoutAt.value))
  }

  /** `isAuthenticated: Boolean(user && token)`. */
  predicate Authenticated(s: State) {
    s.user.Some? && Truthy(s.token)
  }

  function ClearTimers(s: State): State {
    s.(warningAt := None, logoutAt := None)
  }

  /** logout(reason). */
  function SignOut(s: State, reason: Option<string>): State {
    ClearTimers(s).(storedToken := None, token := None, user := None, authNotice := None,
                    authError := if Truthy(reason) then reason else None)
  }

  /** scheduleSessionTimers(t) at time `now`. */
  function Schedule(s: State, t: string, now: int, parse: string -> Option<ClientJwt.Payload>): State {
    var cleared := ClearTimers(s).(authNotice := None);
    match PlanTimers(ClientJwt.TokenExpiry(t, parse), now)
    case NoExpiry => cleared
    case NaNDeadline => cleared.(logoutAt := Some(now), authNotice := Some(NaNNotice))
    case AlreadyExpired => SignOut(cleared.(authError := Some(ExpiredMessage)), Some(ExpiredMessage))
    case Pending(w, n, l) =>
      cleared.(warningAt := w, logoutAt := Some(l),
               authNotice := if n.Some? then Some(WarningNotice(n.value)) else None)
  }

  /** The error hydrate reports when the `me` call fails: an error already present stays,
      otherwise the expiry time of the persisted token when it has an expiry Date, which
      reads "Invalid Date" when that Date is invalid. */
  function HydrateError(prev: Option<string>, existing: Option<string>,
                        parse: string -> Option<ClientJwt.Payload>, formatTime: int -> string)
    : (r: Option<string>)
    ensures Truthy(prev) ==> r == prev
    ensures !Truthy(prev) ==> Truthy(r)
    ensures !Truthy(prev) && (!Truthy(existing) || ClientJwt.TokenExpiry(existing.value, parse).NoDate?)
            ==> r == Some(ExpiredMessage)
    ensures !Truthy(prev) && Truthy(existing) && ClientJwt.TokenExpiry(existing.value, parse).At?
            ==> r == Some(ExpiredAtMessage(formatTime(ClientJwt.TokenExpiry(existing.value, parse).ms)))
    ensures !Truthy(prev) && Truthy(existing)
            && ClientJwt.TokenExpiry(existing.value, parse).InvalidDate?
            ==> r == Some(ExpiredAtMessage(InvalidDateText))
  {
    if Truthy(prev) then prev
    else if Truthy(existing) then
      match ClientJwt.TokenExpiry(existing.value, parse)
      case NoDate => Some(ExpiredMessage)
      case InvalidDate => Some(ExpiredAtMessage(InvalidDateText))
      case At(ms) => Some(ExpiredAtMessage(formatTime(ms)))
    else Some(ExpiredMessage)
  }

  /** hydrate(), with `me` the answer of the `/auth/me` call. */
  function Hydrated(s: State, me: Option<User>, now: int,
                    parse: string -> Option<ClientJwt.Payload>, formatTime: int -> string): State
  {
    if !Truthy(s.storedToken) then
      if s.cancelled then s else s.(user := None, token := None, isLoading := false)
    else if s.cancelled then s
    else match me
      case Some(u) =>
        Schedule(s.(user := Some(u), token := s.storedToken, isLoading := false),
                 s.storedToken.value, now, parse)
      case None =>
        ClearTimers(s.(authError := HydrateError(s.authError, s.storedToken, parse, formatTime)))
          .(storedToken := None, user := None, token := None, isLoading := false)
  }

  /** login / register, with `reply` the server's answer. */
  function SignedIn(s: State, reply: Option<SignInReply>, now: int,
                    parse: string -> Option<ClientJwt.Payload>): State
  {
    var s1 := s.(authError := None, authNotice := None);
    match reply
    case None => s1
    case Some(r) =>
      Schedule(s1.(storedToken := Some(r.token), token := Some(r.token), user := Some(r.user)),
               r.token, now, parse)
  }

  /** The warning timer's callback, run when it is due. */
  function WarningFired(s: State, now: int): State {
    if s.warningAt.Some? && now >= s.warningAt.value then
      s.(warningAt := None, authNotice := Some(WarningNotice(WarningSeconds)))
    else s
  }

  /** The logout timer's callback, run when it is due. */
  function LogoutFired(s: State, now: int): State {
    if s.logoutAt.Some? && now >= s.logoutAt.value then
      SignOut(s.(authError := Some(ExpiredMessage)), Some(ExpiredMessage))
    else s
  }

  /** The effect's cleanup. */
  function Unmounted(s: State): State {
    ClearTimers(s).(cancelled := true)
  }

  // ---------------------------------------------------------------------------------
  // Properties of the transitions

  /** Scheduling cancels what was pending first: calling it twice in a row leaves the
      state (and so the single timer pair) exactly as calling it once. */
  lemma ScheduleIdempotent(s: State, t: string, now: int, parse: string -> Option<ClientJwt.Payload>)
    ensures Schedule(Schedule(s, t, now, parse), t, now, parse) == Schedule(s, t, now, parse)
  {
  }

  /** The timers and the notice after scheduling depend only on the token and the time,
      never on the timers that were pending before. */
  lemma ScheduleForgetsPriorTimers(s1: State, s2: State, t: string, now: int,
                                   parse: string -> Option<ClientJwt.Payload>)
    ensures Schedule(s1, t, now, parse).warningAt == Schedule(s2, t, now, parse).warningAt
    ensures Schedule(s1, t, now, parse).logoutAt == Schedule(s2, t, now, parse).logoutAt
    ensures Schedule(s1, t, now, parse).authNotice == Schedule(s2, t, now, parse).authNotice
  {
  }

  /** Every outcome of scheduleSessionTimers, by the token's decoded expiry `e`. */
  lemma ScheduleOutcome(s: State, t: string, now: int, parse: string -> Option<ClientJwt.Payload>)
    ensures var e := ClientJwt.TokenExpiry(t, parse);
            var r := Schedule(s, t, now, parse);
            && (e.NoDate? ==> r == s.(warningAt := None, logoutAt := None, authNotice := None))
            && (e.InvalidDate? ==>
                  r == s.(warningAt := None, logoutAt := Some(now), authNotice := Some(NaNNotice)))
            && (e.At? && e.ms <= now ==>
                  r == s.(warningAt := None, logoutAt := None, authNotice := None,
                          storedToken := None, token := None, user := None,
                          authError := Some(ExpiredMessage)))
            && (e.At? && e.ms > now ==>
                  r.logoutAt == Some(e.ms) && r.user == s.user && r.token == s.token
                  && r.storedToken == s.storedToken && r.authError == s.authError
                  && r.isLoading == s.isLoading && r.cancelled == s.cancelled)
            && (e.At? && e.ms - now > WarningSeconds * 1000 ==>
                  r.warningAt == Some(e.ms - WarningSeconds * 1000) && r.authNotice.None?)
            && (e.At? && 0 < e.ms - now <= WarningSeconds * 1000 ==>
                  r.warningAt.None?
                  && r.authNotice == Some(WarningNotice(RemainingSeconds(e.ms - now))))
  {
  }

  /** scheduleSessionTimers keeps the timer invariant when it is called, as it always is,
      right after the token was adopted into the state and the slot. */
  lemma ScheduleKeepsInv(s: State, t: string, now: int, parse: string -> Option<ClientJwt.Payload>)
    requires s.token == Some(t) && s.storedToken == Some(t) && s.user.Some?
    ensures Inv(Schedule(s, t, now, parse), parse)
  {
  }

  /** logout ends with everything cleared; the error is the reason when one is given. */
  lemma SignOutOutcome(s: State, reason: Option<string>, parse: string -> Option<ClientJwt.Payload>)
    ensures var r := SignOut(s, reason);
            && r.warningAt.None? && r.logoutAt.None? && r.storedToken.None?
            && r.token.None? && r.user.None? && r.authNotice.None?
            && (Truthy(reason) ==> r.authError == reason)
            && (!Truthy(reason) ==> r.authError.None?)
            && !Authenticated(r) && Inv(r, parse)
  {
  }

  /** Hydrating with no persisted token settles signed out and does not depend on the
      `me` call at all: the call is never made. */
  lemma HydrateWithoutToken(s: State, me1: Option<User>, me2: Option<User>, now: int,
                            parse: string -> Option<ClientJwt.Payload>, formatTime: int -> string)
    requires !s.cancelled && !Truthy(s.storedToken)
    ensures Hydrated(s, me1, now, parse, formatTime) == Hydrated(s, me2, now, parse, formatTime)
    ensures var r := Hydrated(s, me1, now, parse, formatTime);
            r.user.None? && r.token.None? && !r.isLoading && !Authenticated(r)
  {
  }

  /** A failed `me` call clears the timers and the slot and signs out; an error already
      present is kept, otherwise a non-empty session-expired error is set. */
  lemma HydrateFailure(s: State, now: int, parse: string -> Option<ClientJwt.Payload>,
                       formatTime: int -> string)
    requires !s.cancelled && Truthy(s.storedToken)
    ensures var r := Hydrated(s, None, now, parse, formatTime);
            && r.warningAt.None? && r.logoutAt.None? && r.storedToken.None?
            && r.user.None? && r.token.None? && !r.isLoading
            && r.authNotice == s.authNotice
            && (Truthy(s.authError) ==> r.authError == s.authError)
            && (!Truthy(s.authError) ==> Truthy(r.authError))
  {
  }

  /** A successful `me` call on a token that has not expired signs in with the persisted
      token and leaves a logout pending at its expiry, when it has one. */
  lemma HydrateSuccess(s: State, u: User, now: int, parse: string -> Option<ClientJwt.Payload>,
                       formatTime: int -> string)
    requires !s.cancelled && Truthy(s.storedToken)
    requires var e := ClientJwt.TokenExpiry(s.storedToken.value, parse); !(e.At? && e.ms <= now)
    ensures var r := Hydrated(s, Some(u), now, parse, formatTime);
            var e := ClientJwt.TokenExpiry(s.storedToken.value, parse);
            && r.user == Some(u) && r.token == s.storedToken && r.storedToken == s.storedToken
            && !r.isLoading && Authenticated(r)
            && (e.NoDate? ==> r.logoutAt.None?)
            && (e.At? ==> r.logoutAt == Some(e.ms))
            && (e.InvalidDate? ==> r.logoutAt == Some(now))
  {
  }

  /** Once the effect was cleaned up, a late hydrate changes nothing. */
  lemma HydrateAfterCleanup(s: State, me: Option<User>, now: int,
                            parse: string -> Option<ClientJwt.Payload>, formatTime: int -> string)
    requires s.cancelled
    ensures Hydrated(s, me, now, parse, formatTime) == s
  {
  }

  lemma HydrateKeepsInv(s: State, me: Option<User>, now: int,
                        parse: string -> Option<ClientJwt.Payload>, formatTime: int -> string)
    requires Inv(s, parse)
    ensures Inv(Hydrated(s, me, now, parse, formatTime), parse)
  {
    if !s.cancelled && Truthy(s.storedToken) && me.Some? {
      ScheduleKeepsInv(s.(user := me, token := s.storedToken, isLoading := false),
                       s.storedToken.value, now, parse);
    }
  }

  /** login/register: error and notice are cleared before the call even when it fails,
      and a failure changes nothing else; a success persists and adopts the token and the
      user, and (unless the token is already expired) authenticates the session. */
  lemma SignInOutcome(s: State, reply: Option<SignInReply>, now: int,
                      parse: string -> Option<ClientJwt.Payload>)
    ensures var r := SignedIn(s, reply, now, parse);
            && (reply.None? ==> r == s.(authError := None, authNotice := None))
            && (reply.Some? ==> r.isLoading == s.isLoading && r.cancelled == s.cancelled)
            && (reply.Some? &&
                !(ClientJwt.TokenExpiry(reply.value.token, parse).At?
                  && ClientJwt.TokenExpiry(reply.value.token, parse).ms <= now) ==>
                  && r.storedToken == Some(reply.value.token)
                  && r.token == Some(reply.value.token)
                  && r.user == Some(reply.value.user)
                  && r.authError.None?
                  && (Authenticated(r) <==> reply.value.token != ""))
  {
  }

  lemma SignInKeepsInv(s: State, reply: Option<SignInReply>, now: int,
                       parse: string -> Option<ClientJwt.Payload>)
    requires Inv(s, parse)
    ensures Inv(SignedIn(s, reply, now, parse), parse)
  {
    if reply.Some? {
      var r := reply.value;
      ScheduleKeepsInv(s.(authError := None, authNotice := None, storedToken := Some(r.token),
                          token := Some(r.token), user := Some(r.user)), r.token, now, parse);
    }
  }

  /** A pending logout means a signed-in session. */
  lemma PendingLogoutMeansAuthenticated(s: State, parse: string -> Option<ClientJwt.Payload>)
    requires Inv(s, parse) && s.logoutAt.Some?
    ensures Authenticated(s)
    ensures s.warningAt.Some? ==> s.warningAt.value < s.logoutAt.value
  {
  }

  /** When due, the logout timer signs out with the session-expired error; the warning
      timer only sets the ten-second notice. Both keep the invariant. */
  lemma TimersFireOutcome(s: State, now: int, parse: string -> Option<ClientJwt.Payload>)
    requires Inv(s, parse)
    ensures var r := LogoutFired(s, now);
            && Inv(r, parse)
            && (s.logoutAt.Some? && now >= s.logoutAt.value ==>
                  r.user.None? && r.token.None? && r.storedToken.None? && r.warningAt.None?
                  && r.logoutAt.None? && r.authError == Some(ExpiredMessage))
    ensures var r := WarningFired(s, now);
            && Inv(r, parse)
            && (s.warningAt.Some? && now >= s.warningAt.value ==>
                  r.warningAt.None? && r.authNotice == Some("Session expires in 10 seconds.")
                  && r.logoutAt == s.logoutAt && r.user == s.user && r.token == s.token)
  {
    assert NatToString(10) == "10";
    assert WarningNotice(WarningSeconds) == "Session expires in 10 seconds.";
  }

  /** A token that expires three seconds from now shows the warning at once, with three
      seconds left, and is signed out by the logout timer three seconds later. */
  lemma ShortLivedToken(s: State, t: string, now: int, parse: string -> Option<ClientJwt.Payload>)
    requires s.token == Some(t) && s.storedToken == Some(t) && s.user.Some?
    requires ClientJwt.TokenExpiry(t, parse) == ClientJwt.At(now + 3000)
    ensures var r := Schedule(s, t, now, parse);
            && r.authNotice == Some("Session expires in 3 seconds.")
            && r.warningAt.None? && r.logoutAt == Some(now + 3000)
            && var out := LogoutFired(r, now + 3000);
               out.user.None? && out.token.None? && out.authError == Some(ExpiredMessage)
  {
    assert RemainingSeconds(3000) == 3;
    assert NatToString(3) == "3";
    assert WarningNotice(3) == "Session expires in 3 seconds.";
  }

  /** A token whose `exp` gives an Invalid Date does not stay signed in: scheduling shows
      "Session expires in NaN seconds." with no warning timer, and the logout timer, due
      at once, signs out with the session-expired error. */
  lemma InvalidExpirySignsOutAtOnce(s: State, t: string, now: int,
                                    parse: string -> Option<ClientJwt.Payload>)
    requires ClientJwt.TokenExpiry(t, parse).InvalidDate?
    ensures var r := Schedule(s, t, now, parse);
            && r.authNotice == Some("Session expires in NaN seconds.")
            && r.warningAt.None? && r.logoutAt == Some(now)
            && var out := LogoutFired(r, now);
               out.user.None? && out.token.None? && out.storedToken.None?
               && out.authError == Some(ExpiredMessage)
  {
    assert NaNNotice == "Session expires in NaN seconds.";
  }

  // ---------------------------------------------------------------------------------
  // The component's state, updated in place

  class AuthSession {
    var user: Option<User>
    var token: Option<string>
    var isLoading: bool
    var authError: Option<string>
    var authNotice: Option<string>
    /** The persisted token slot (localStorage). */
    var storedToken: Option<string>
    /** warningTimeoutRef / logoutTimeoutRef: deadlines of the pending timers. */
    var warningAt: Option<int>
    var logoutAt: Option<int>
    /** The effect's `cancelled` flag. */
    var cancelled: bool
    const parse: string -> Option<ClientJwt.Payload>
    const formatTime: int -> string

    function Snapshot(): State
      reads this
    {
      State(user, token, isLoading, authError, authNotice, storedToken, warningAt, logoutAt,
            cancelled)
    }

    ghost predicate Valid()
      reads this
    {
      Inv(Snapshot(), parse)
    }

    /** Mounting the provider: the token state starts from the slot, loading is true. */
    constructor (persisted: Option<string>, parse: string -> Option<ClientJwt.Payload>,
                 formatTime: int -> string)
      ensures Valid()
      ensures Snapshot() == State(None, persisted, true, None, None, persisted, None, None, false)
      ensures this.parse == parse && this.formatTime == formatTime
    {
      user := None;
      token := persisted;
      isLoading := true;
      authError := None;
      authNotice := None;
      storedToken := persisted;
      warningAt := None;
      logoutAt := None;
      cancelled := false;
      this.parse := parse;
      this.formatTime := formatTime;
    }

    method IsAuthenticated() returns (b: bool)
      ensures b == Authenticated(Snapshot())
    {
      b := user.Some? && Truthy(token);
    }

    method ClearSessionTimers()
      modifies this
      ensures Snapshot() == ClearTimers(old(Snapshot()))
      ensures warningAt.None? && logoutAt.None?
    {
      if warningAt.Some? {
        warningAt := None;
      }
      if logoutAt.Some? {
        logoutAt := None;
      }
    }

    method Logout(reason: Option<string>)
      modifies this
      ensures Snapshot() == SignOut(old(Snapshot()), reason)
      ensures Valid()
    {
      ClearSessionTimers();
      storedToken := None;
      token := None;
      user := None;
      authNotice := None;
      if Truthy(reason) {
        authError := reason;
      } else {
        authError := None;
      }
    }

    method ScheduleSessionTimers(t: string, now: int)
      requires token == Some(t) && storedToken == Some(t) && user.Some?
      modifies this
      ensures Snapshot() == Schedule(old(Snapshot()), t, now, parse)
      ensures Valid()
    {
      ghost var s0 := Snapshot();
      ScheduleKeepsInv(s0, t, now, parse);
      ClearSessionTimers();
      authNotice := None;
      var expiry := ClientJwt.TokenExpiry(t, parse);
      if expiry.NoDate? {
        return;
      }
      // None stands for NaN, the time value of an Invalid Date
      var msUntilExpiry: Option<int> := if expiry.At? then Some(expiry.ms - now) else None;
      if msUntilExpiry.Some? && msUntilExpiry.value <= 0 {
        authError := Some(ExpiredMessage);
        Logout(Some(ExpiredMessage));
        return;
      }
      SetTimers(msUntilExpiry, now);
    }

    /** The rest of scheduleSessionTimers once the expiry is not yet past: the warning
        timer or the immediate notice, then the logout timer. A NaN `msUntilExpiry`
        (None) fails both comparisons. */
    method SetTimers(msUntilExpiry: Option<int>, now: int)
      requires msUntilExpiry.None? || msUntilExpiry.value > 0
      requires warningAt.None? && authNotice.None?
      modifies this
      ensures msUntilExpiry.None? ==>
                Snapshot() == old(Snapshot()).(logoutAt := Some(now), authNotice := Some(NaNNotice))
      ensures msUntilExpiry.Some? ==>
                var p := PlanTimers(ClientJwt.At(now + msUntilExpiry.value), now);
                Snapshot() == old(Snapshot()).(warningAt := p.warningAt, logoutAt := Some(p.logoutAt),
                  authNotice := if p.noticeSeconds.Some? then Some(WarningNotice(p.noticeSeconds.value))
                                else None)
    {
      var msUntilWarning: Option<int> :=
        if msUntilExpiry.Some? then Some(msUntilExpiry.value - WarningSeconds * 1000) else None;
      if msUntilWarning.Some? && msUntilWarning.value > 0 {
        warningAt := Some(now + msUntilWarning.value);
      } else {
        authNotice := Some(NoticeText(SecondsLeftText(msUntilExpiry)));
      }
      logoutAt := Some(now + TimerDelay(msUntilExpiry));
      if msUntilExpiry.Some? {
        var ms := msUntilExpiry.value;
        assert PlanTimers(ClientJwt.At(now + ms), now)
               == if ms - WarningSeconds * 1000 > 0
                  then Pending(Some(now + ms - WarningSeconds * 1000), None, now + ms)
                  else Pending(None, Some(RemainingSeconds(ms)), now + ms);
      }
    }

    method Hydrate(me: Option<User>, now: int)
      requires Valid()
      modifies this
      ensures Snapshot() == Hydrated(old(Snapshot()), me, now, parse, formatTime)
      ensures Valid()
    {
      ghost var s0 := Snapshot();
      HydrateKeepsInv(s0, me, now, parse, formatTime);
      var existingToken := storedToken;
      if !Truthy(existingToken) {
        if !cancelled {
          user := None;
          token := None;
          isLoading := false;
        }
        return;
      }
      match me {
        case Some(u) =>
          if !cancelled {
            user := Some(u);
            token := existingToken;
            isLoading := false;
            ScheduleSessionTimers(existingToken.value, now);
          }
        case None =>
          // the catch block reads the slot again before clearing it
          var reread := storedToken;
          if !cancelled {
            authError := HydrateError(authError, reread, parse, formatTime);
            ClearSessionTimers();
            storedToken := None;
            user := None;
            token := None;
            isLoading := false;
          }
      }
    }

    method Register(reply: Option<SignInReply>, now: int) returns (u: Option<User>)
      requires Valid()
      modifies this
      ensures Snapshot() == SignedIn(old(Snapshot()), reply, now, parse)
      ensures Valid()
      ensures u == if reply.Some? then Some(reply.value.user) else None
    {
      u := SignIn(reply, now);
    }

    method Login(reply: Option<SignInReply>, now: int) returns (u: Option<User>)
      requires Valid()
      modifies this
      ensures Snapshot() == SignedIn(old(Snapshot()), reply, now, parse)
      ensures Valid()
      ensures u == if reply.Some? then Some(reply.value.user) else None
    {
      u := SignIn(reply, now);
    }

    /** The body register and login share. */
    method SignIn(reply: Option<SignInReply>, now: int) returns (u: Option<User>)
      requires Valid()
      modifies this
      ensures Snapshot() == SignedIn(old(Snapshot()), reply, now, parse)
      ensures Valid()
      ensures u == if reply.Some? then Some(reply.value.user) else None
    {
      ghost var s0 := Snapshot();
      SignInKeepsInv(s0, reply, now, parse);
      authError := None;
      authNotice := None;
      if reply.None? {
        return None;
      }
      var data := reply.value;
      storedToken := Some(data.token);
      token := Some(data.token);
      user := Some(data.user);
      ScheduleSessionTimers(data.token, now);
      return Some(data.user);
    }

    /** The warning timer fires (if it is pending and due at `now`). */
    method FireWarning(now: int)
      requires Valid()
      modifies this
      ensures Snapshot() == WarningFired(old(Snapshot()), now)
      ensures Valid()
    {
      TimersFireOutcome(Snapshot(), now, parse);
      if warningAt.Some? && now >= warningAt.value {
        warningAt := None;
        authNotice := Some(WarningNotice(WarningSeconds));
      }
    }

    /** The logout timer fires (if it is pending and due at `now`). */
    method FireLogout(now: int)
      requires Valid()
      modifies this
      ensures Snapshot() == LogoutFired(old(Snapshot()), now)
      ensures Valid()
    {
      if logoutAt.Some? && now >= logoutAt.value {
        logoutAt := None;
        authError := Some(ExpiredMessage);
        Logout(Some(ExpiredMessage));
      }
    }

    /** The effect's cleanup: mark cancelled and clear the timers. */
    method Unmount()
      requires Valid()
      modifies this
      ensures Snapshot() == Unmounted(old(Snapshot()))
      ensures Valid()
    {
      cancelled := true;
      ClearSessionTimers();
    }

    /** The setters the context exposes to pages. */
    method SetAuthError(e: Option<string>)
      requires Valid()
      modifies this
      ensures Snapshot() == old(Snapshot()).(authError := e)
      ensures Valid()
    {
      authError := e;
    }

    method SetAuthNotice(n: Option<string>)
      requires Valid()
      modifies this
      ensures Snapshot() == old(Snapshot()).(authNotice := n)
      ensures Valid()
    {
      authNotice := n;
    }
  }
}
