/** Login sessions and the per-user session index of the gateway (nest-api-gateway-auth/src/auth/auth.service.ts). */
module Sessions {
  import opened Common

  /** A cached session; it is found while its expiry lies in the future. Times are in milliseconds. */
  datatype Session = Session(userId: string, expiry: int)

  /** A set-valued key with an optional lifetime. */
  datatype Members = Members(ids: set<string>, expiry: Option<int>)

  /** `issued` holds the session ids handed out so far; random UUIDs do not repeat. */
  datatype State = State(cache: map<string, Session>, index: map<string, Members>, issued: set<string>, now: int)

  const SEVEN_DAYS := 60 * 60 * 24 * 7 * 1000

  const EMPTY := State(map[], map[], {}, 0)

  // ---------------------------------------------------------------- the two stores

  function Found(s: State, jti: string): Option<string> {
    if jti in s.cache && s.cache[jti].expiry > s.now then Some(s.cache[jti].userId) else None
  }

  predicate LiveKey(index: map<string, Members>, user: string, now: int) {
    user in index && (index[user].expiry.None? || index[user].expiry.value > now)
  }

  function SMembers(index: map<string, Members>, user: string, now: int): set<string> {
    if LiveKey(index, user, now) then index[user].ids else {}
  }

  /** SADD keeps the lifetime of a live key and starts an expired or missing one afresh, without lifetime. */
  function SAdd(index: map<string, Members>, user: string, id: string, now: int): map<string, Members> {
    if LiveKey(index, user, now) then index[user := index[user].(ids := index[user].ids + {id})]
    else index[user := Members({id}, None)]
  }

  /** EXPIRE has no effect on a key that is gone. */
  function Expire(index: map<string, Members>, user: string, lifetime: int, now: int): map<string, Members> {
    if LiveKey(index, user, now) then index[user := index[user].(expiry := Some(now + lifetime))] else index
  }

  function SRem(index: map<string, Members>, user: string, id: string, now: int): map<string, Members> {
    if LiveKey(index, user, now) then index[user := index[user].(ids := index[user].ids - {id})] else index
  }

  // ---------------------------------------------------------------- operations

  /** The three commands of a login, run at times t1, t2 and t3. */
  function LoggedIn(s: State, user: string, jti: string, t1: int, t2: int, t3: int): State {
    State(s.cache[jti := Session(user, t1 + SEVEN_DAYS)],
          Expire(SAdd(s.index, user, jti, t2), user, SEVEN_DAYS, t3),
          s.issued + {jti}, t3)
  }

  function LoggedOut(s: State, jti: string): State {
    var owner := Found(s, jti);
    s.(cache := s.cache - {jti}, index := if owner.Some? then SRem(s.index, owner.value, jti, s.now) else s.index)
  }

  function PasswordChanged(s: State, user: string): State {
    s.(cache := s.cache - SMembers(s.index, user, s.now), index := s.index - {user})
  }

  class AuthService {
    var cache: map<string, Session>
    var index: map<string, Members>
    ghost var issued: set<string>
    var now: int

    constructor ()
      ensures Snapshot() == EMPTY
    {
      cache, index, issued, now := map[], map[], {}, 0;
    }

    ghost function Snapshot(): State
      reads this
    {
      State(cache, index, issued, now)
    }

    /** `user` is the answer of the credential check, None if it fails; `t2` and `t3` are the times of the later commands. */
    method Login(user: Option<string>, jti: string, t2: int, t3: int) returns (r: Result<string, ()>)
      modifies this
      ensures r == if user.Some? then Ok(jti) else Err(())
      ensures Snapshot() == if user.Some? then LoggedIn(old(Snapshot()), user.value, jti, old(now), t2, t3) else old(Snapshot())
    {
      if user.None? { return Err(()); }
      cache := cache[jti := Session(user.value, now + SEVEN_DAYS)];
      index := SAdd(index, user.value, jti, t2);
      index := Expire(index, user.value, SEVEN_DAYS, t3);
      issued, now := issued + {jti}, t3;
      return Ok(jti);
    }

    method GetSession(jti: string) returns (r: Option<string>)
      ensures r == Found(Snapshot(), jti)
    {
      if jti in cache && cache[jti].expiry > now { return Some(cache[jti].userId); }
      return None;
    }

    method Logout(jti: string)
      modifies this
      ensures Snapshot() == LoggedOut(old(Snapshot()), jti)
    {
      var session := GetSession(jti);
      cache := cache - {jti};
      if session.Some? {
        index := SRem(index, session.value, jti, now);
      }
    }

    method ChangePassword(user: string, accepted: bool) returns (r: Result<(), ()>)
      modifies this
      ensures r.Ok? <==> accepted
      ensures Snapshot() == if accepted then PasswordChanged(old(Snapshot()), user) else old(Snapshot())
    {
      if !accepted { return Err(()); }
      var sessions := SMembers(index, user, now);
      cache := cache - sessions;
      index := index - {user};
      return Ok(());
    }
  }

  // ---------------------------------------------------------------- runs of atomic operations

  datatype Step =
    | Login(user: string, jti: string)
    | Logout(jti: string)
    | ChangePassword(user: string)
    | Tick(elapsed: nat)

  function Apply(s: State, step: Step): State {
    match step
    case Login(user, jti) => if jti in s.issued then s else LoggedIn(s, user, jti, s.now, s.now, s.now)
    case Logout(jti) => LoggedOut(s, jti)
    case ChangePassword(user) => PasswordChanged(s, user)
    case Tick(elapsed) => s.(now := s.now + elapsed)
  }

  function Run(s: State, steps: seq<Step>): State
    decreases |steps|
  {
    if steps == [] then s else Run(Apply(s, steps[0]), steps[1..])
  }

  ghost predicate IndexedAt(s: State, jti: string) {
    Found(s, jti).Some? ==>
      var user := s.cache[jti].userId;
      && LiveKey(s.index, user, s.now) && jti in s.index[user].ids
      && (s.index[user].expiry.Some? ==> s.cache[jti].expiry <= s.index[user].expiry.value)
  }

  /** Every session that is found is in its user's live index, which lives at least as long. */
  ghost predicate Indexed(s: State) {
    forall jti :: IndexedAt(s, jti)
  }

  /** An index lists only its own user's sessions, and only ids that were issued; no session is from the future. */
  ghost predicate OwnSessions(s: State) {
    && (forall jti :: jti in s.cache ==> jti in s.issued && s.cache[jti].expiry <= s.now + SEVEN_DAYS)
    && (forall user, jti :: user in s.index && jti in s.index[user].ids ==>
          jti in s.issued && (jti in s.cache ==> s.cache[jti].userId == user))
  }

  ghost predicate Inv(s: State) {
    Indexed(s) && OwnSessions(s)
  }

  lemma {:induction false} LoginKeepsIndexed(s: State, user: string, jti: string, id: string)
    requires Inv(s) && jti !in s.issued
    ensures IndexedAt(LoggedIn(s, user, jti, s.now, s.now, s.now), id)
  {
    assert IndexedAt(s, id);
  }

  lemma {:induction false} LogoutKeepsIndexed(s: State, jti: string, id: string)
    requires Inv(s)
    ensures IndexedAt(LoggedOut(s, jti), id)
  {
    assert IndexedAt(s, id) && IndexedAt(s, jti);
  }

  lemma {:induction false} PasswordChangeKeepsIndexed(s: State, user: string, id: string)
    requires Inv(s)
    ensures IndexedAt(PasswordChanged(s, user), id)
  {
    assert IndexedAt(s, id);
  }

  lemma {:induction false} ApplyKeepsOwnSessions(s: State, step: Step)
    requires OwnSessions(s)
    ensures OwnSessions(Apply(s, step))
  {
  }

  lemma {:induction false} ApplyKeepsInv(s: State, step: Step)
    requires Inv(s)
    ensures Inv(Apply(s, step))
  {
    ApplyKeepsOwnSessions(s, step);
    forall id
      ensures IndexedAt(Apply(s, step), id)
    {
      assert IndexedAt(s, id);
      match step
      case Login(user, jti) => if jti !in s.issued { LoginKeepsIndexed(s, user, jti, id); }
      case Logout(jti) => LogoutKeepsIndexed(s, jti, id);
      case ChangePassword(user) => PasswordChangeKeepsIndexed(s, user, id);
      case Tick(_) =>
    }
  }

  lemma {:induction false} RunKeepsInv(s: State, steps: seq<Step>)
    requires Inv(s)
    ensures Inv(Run(s, steps))
    decreases |steps|
  {
    if steps != [] {
      ApplyKeepsInv(s, steps[0]);
      RunKeepsInv(Apply(s, steps[0]), steps[1..]);
    }
  }

  /** Over any run, no session outlives its index entry. */
  lemma {:induction false} SessionsStayIndexed(steps: seq<Step>, jti: string)
    requires Found(Run(EMPTY, steps), jti).Some?
    ensures var s := Run(EMPTY, steps); jti in SMembers(s.index, s.cache[jti].userId, s.now)
  {
    RunKeepsInv(EMPTY, steps);
    assert IndexedAt(Run(EMPTY, steps), jti);
  }

  lemma {:induction false} GoneStaysGone(s: State, steps: seq<Step>, jti: string)
    requires jti in s.issued && Found(s, jti).None?
    ensures Found(Run(s, steps), jti).None?
    decreases |steps|
  {
    if steps != [] {
      GoneStaysGone(Apply(s, steps[0]), steps[1..], jti);
    }
  }

  lemma {:induction false} FoundIsIssued(steps: seq<Step>, jti: string)
    requires Found(Run(EMPTY, steps), jti).Some?
    ensures jti in Run(EMPTY, steps).issued
  {
    RunKeepsInv(EMPTY, steps);
  }

  lemma {:induction false} PasswordChangeFinds(s: State, user: string, jti: string)
    requires Inv(s)
    ensures Found(PasswordChanged(s, user), jti) == if Found(s, jti) == Some(user) then None else Found(s, jti)
  {
    assert IndexedAt(s, jti);
  }

  /** A password change ends every session of its user, for good, and touches nobody else's. */
  lemma {:induction false} PasswordChangeRevokes(before: seq<Step>, user: string, later: seq<Step>, jti: string)
    ensures Found(Apply(Run(EMPTY, before), ChangePassword(user)), jti)
      == if Found(Run(EMPTY, before), jti) == Some(user) then None else Found(Run(EMPTY, before), jti)
    ensures Found(Run(EMPTY, before), jti) == Some(user) ==>
      Found(Run(Apply(Run(EMPTY, before), ChangePassword(user)), later), jti).None?
    ensures user !in Apply(Run(EMPTY, before), ChangePassword(user)).index
  {
    RunKeepsInv(EMPTY, before);
    PasswordChangeFinds(Run(EMPTY, before), user, jti);
    if Found(Run(EMPTY, before), jti) == Some(user) {
      FoundIsIssued(before, jti);
      GoneStaysGone(Apply(Run(EMPTY, before), ChangePassword(user)), later, jti);
    }
  }

  /** A logout ends its session, for good, and touches no other. */
  lemma {:induction false} LogoutRevokes(before: seq<Step>, out: string, later: seq<Step>, jti: string)
    ensures Found(Apply(Run(EMPTY, before), Logout(out)), jti) == if jti == out then None else Found(Run(EMPTY, before), jti)
    ensures Found(Run(EMPTY, before), out).Some? ==>
      Found(Run(Apply(Run(EMPTY, before), Logout(out)), later), out).None?
    ensures Found(Run(EMPTY, before), out).Some? ==>
      var s := Apply(Run(EMPTY, before), Logout(out));
      var user := Run(EMPTY, before).cache[out].userId;
      SMembers(s.index, user, s.now) == SMembers(Run(EMPTY, before).index, user, s.now) - {out}
  {
    if Found(Run(EMPTY, before), out).Some? {
      FoundIsIssued(before, out);
      GoneStaysGone(Apply(Run(EMPTY, before), Logout(out)), later, out);
    }
  }

  // ---------------------------------------------------------------- how long a session lasts

  function ElapsedBy(step: Step): nat {
    if step.Tick? then step.elapsed else 0
  }

  function Elapsed(steps: seq<Step>): nat {
    if steps == [] then 0 else ElapsedBy(steps[0]) + Elapsed(steps[1..])
  }

  /** No logout of the session and no password change of its user. */
  predicate LeavesAlone(steps: seq<Step>, user: string, jti: string) {
    Step.Logout(jti) !in steps && Step.ChangePassword(user) !in steps
  }

  lemma {:induction false} SessionStep(s: State, step: Step, user: string, jti: string)
    requires Inv(s) && Found(s, jti) == Some(user)
    ensures jti in s.issued && jti in Apply(s, step).issued && Apply(s, step).now == s.now + ElapsedBy(step)
    ensures Found(Apply(s, step), jti) == Some(user) <==>
      (step != Step.Logout(jti) && step != Step.ChangePassword(user) && s.now + ElapsedBy(step) < s.cache[jti].expiry)
    ensures Found(Apply(s, step), jti).Some? ==> Apply(s, step).cache[jti] == s.cache[jti]
  {
    assert IndexedAt(s, jti);
  }

  lemma {:induction false} SessionLasts(s: State, steps: seq<Step>, user: string, jti: string)
    requires Inv(s) && Found(s, jti) == Some(user)
    ensures Found(Run(s, steps), jti) == Some(user) <==>
      (LeavesAlone(steps, user, jti) && s.now + Elapsed(steps) < s.cache[jti].expiry)
    decreases |steps|
  {
    if steps != [] {
      var step, t := steps[0], Apply(s, steps[0]);
      SessionStep(s, step, user, jti);
      ApplyKeepsInv(s, step);
      assert steps == [step] + steps[1..];
      if Found(t, jti) == Some(user) {
        SessionLasts(t, steps[1..], user, jti);
      } else {
        GoneStaysGone(t, steps[1..], jti);
      }
    }
  }

  /** A login opens a session that is found for seven days, unless it is logged out or its user's password changes. */
  lemma {:induction false} LoginLasts(before: seq<Step>, user: string, jti: string, later: seq<Step>)
    requires jti !in Run(EMPTY, before).issued
    ensures Found(Run(Apply(Run(EMPTY, before), Login(user, jti)), later), jti) == Some(user) <==>
      (LeavesAlone(later, user, jti) && Elapsed(later) < 604_800_000)
  {
    var s := Run(EMPTY, before);
    var t := Apply(s, Login(user, jti));
    RunKeepsInv(EMPTY, before);
    ApplyKeepsInv(s, Login(user, jti));
    assert t.now == s.now && t.cache[jti] == Session(user, s.now + 604_800_000);
    SessionLasts(t, later, user, jti);
  }

  // ---------------------------------------------------------------- logins that take time

  /** The old index lives when the session is added to it, and expires before its lifetime is renewed. */
  predicate ExpiresInBetween(s: State, user: string, t2: int, t3: int) {
    LiveKey(s.index, user, t2) && s.index[user].expiry.Some? && s.index[user].expiry.value <= t3
  }

  /** After the three commands the user's index lists the live sessions and the new one for seven more days, unless
      the old index expired on the way; then none is live. No other index changes. */
  lemma {:induction false} LoginIndex(s: State, user: string, jti: string, t1: int, t2: int, t3: int)
    requires t2 <= t3
    ensures var index := LoggedIn(s, user, jti, t1, t2, t3).index;
      && (if ExpiresInBetween(s, user, t2, t3) then !LiveKey(index, user, t3)
          else user in index && index[user] == Members(SMembers(s.index, user, t2) + {jti}, Some(t3 + 604_800_000)))
      && forall other :: other != user ==>
           (other in index <==> other in s.index) && (other in index ==> index[other] == s.index[other])
  {
    var renewed := SAdd(s.index, user, jti, t2);
    assert renewed[user].ids == SMembers(s.index, user, t2) + {jti};
  }

  /** Exactly when a login whose commands run at different times leaves its session unindexed. */
  lemma {:induction false} SlowLoginIndexedIff(s: State, user: string, jti: string, t2: int, t3: int)
    requires Inv(s) && jti !in s.issued && s.now <= t2 <= t3 < s.now + SEVEN_DAYS
    ensures Inv(LoggedIn(s, user, jti, s.now, t2, t3)) <==> !ExpiresInBetween(s, user, t2, t3)
  {
    var t := LoggedIn(s, user, jti, s.now, t2, t3);
    assert Found(t, jti) == Some(user);
    if ExpiresInBetween(s, user, t2, t3) {
      assert !IndexedAt(t, jti);
    } else {
      forall id
        ensures IndexedAt(t, id)
      {
        assert IndexedAt(s, id);
      }
    }
  }
}
