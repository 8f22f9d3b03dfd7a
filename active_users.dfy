/**
 * The per-user connection book-keeping of src/api/model/active_user_manager.rs:
 * connection counters, the one-time grace period and the user's stream
 * sessions, held in a map from user name to `UserConnectionData`.
 *
 * The clock and the random session token are parameters. The source reads
 * the clock and subtracts earlier timestamps from it with unsigned
 * arithmetic, so the methods require that `now` is not earlier than any
 * stored timestamp (`NotBefore`).
 */
module ActiveUsers {
  import opened Wrappers

  /** Sessions older than this many seconds are dropped by the collector. */
  const USER_CON_TTL: nat := 10800

  datatype UserConnectionPermission = Exhausted | Allowed | GracePeriod

  datatype UserSession = UserSession(
    token: nat,
    virtualId: nat,
    provider: string,
    streamUrl: string,
    ts: nat,
    permission: UserConnectionPermission)

  datatype UserConnectionData = UserConnectionData(
    maxConnections: nat,
    connections: nat,
    grantedGrace: bool,
    graceTs: nat,
    sessions: seq<UserSession>)

  /** `UserConnectionData::new` */
  function NewConnectionData(connections: nat, maxConnections: nat): (cd: UserConnectionData)
    ensures cd.connections == connections && cd.maxConnections == maxConnections
    ensures !cd.grantedGrace && cd.graceTs == 0 && cd.sessions == []
  {
    UserConnectionData(maxConnections, connections, false, 0, [])
  }

  /** Grace bookkeeping is cleared together: no grace granted means no grace timestamp. */
  predicate GraceReset(cd: UserConnectionData) {
    !cd.grantedGrace ==> cd.graceTs == 0
  }

  /** What `now - grace_ts` needs when it is evaluated. */
  predicate CanDecide(cd: UserConnectionData, now: nat) {
    cd.grantedGrace && cd.connections > cd.maxConnections ==> cd.graceTs <= now
  }

  /**
   * `check_connection_permission`: the permission for one more stream and the
   * user's data afterwards. Under the limit is allowed (and clears grace); at
   * the limit a grace period is granted when grace is configured; above the
   * limit while an earlier grace is still within its timeout nothing changes;
   * everything else is exhausted, clearing an earlier grace.
   */
  function Decide(cd: UserConnectionData, now: nat, gracePeriodMillis: nat, graceTimeoutSecs: nat)
    : (r: (UserConnectionPermission, UserConnectionData))
    requires CanDecide(cd, now)
    ensures r.1 == cd.(grantedGrace := r.1.grantedGrace, graceTs := r.1.graceTs)
    ensures r.0 == Allowed <==> cd.connections < cd.maxConnections
    ensures r.0 == Allowed ==> !r.1.grantedGrace && r.1.graceTs == 0
    ensures r.0 == GracePeriod <==> cd.connections == cd.maxConnections && gracePeriodMillis > 0
    ensures r.0 == GracePeriod ==> r.1.grantedGrace && r.1.graceTs == now
    ensures cd.grantedGrace && cd.connections > cd.maxConnections && now - cd.graceTs <= graceTimeoutSecs
            ==> r == (Exhausted, cd)
    ensures r.0 == Exhausted && !(cd.grantedGrace && cd.connections > cd.maxConnections && now - cd.graceTs <= graceTimeoutSecs)
            ==> r.1 == (if cd.grantedGrace then cd.(grantedGrace := false, graceTs := 0) else cd)
    ensures GraceReset(cd) ==> GraceReset(r.1)
  {
    if cd.connections < cd.maxConnections then (Allowed, cd.(grantedGrace := false, graceTs := 0))
    else if cd.grantedGrace && cd.connections > cd.maxConnections && now - cd.graceTs <= graceTimeoutSecs then
      (Exhausted, cd)
    else
      var cleared := if cd.grantedGrace then cd.(grantedGrace := false, graceTs := 0) else cd;
      if gracePeriodMillis > 0 && cd.connections == cd.maxConnections then
        (GracePeriod, cleared.(grantedGrace := true, graceTs := now))
      else (Exhausted, cleared)
  }

  /**
   * Grace is granted once per timeout: after a grace period starts at `t`,
   * a user who has since gone above the limit is refused until the timeout
   * has passed.
   */
  lemma GraceOncePerTimeout(cd: UserConnectionData, t: nat, now: nat, connections: nat,
                            gracePeriodMillis: nat, graceTimeoutSecs: nat)
    requires CanDecide(cd, t) && t <= now && now - t <= graceTimeoutSecs
    requires Decide(cd, t, gracePeriodMillis, graceTimeoutSecs).0 == GracePeriod
    requires connections > cd.maxConnections
    ensures var later := Decide(cd, t, gracePeriodMillis, graceTimeoutSecs).1.(connections := connections);
      Decide(later, now, gracePeriodMillis, graceTimeoutSecs) == (Exhausted, later)
  {
  }

  predicate SessionsNotAfter(sessions: seq<UserSession>, now: nat) {
    forall s | s in sessions :: s.ts <= now
  }

  /** The sessions younger than the time-to-live, in order (`retain`). */
  function KeepRecent(sessions: seq<UserSession>, now: nat): (r: seq<UserSession>)
    requires SessionsNotAfter(sessions, now)
    ensures |r| <= |sessions|
    ensures forall s | s in r :: s in sessions && now - s.ts < USER_CON_TTL
    ensures forall s | s in sessions && now - s.ts < USER_CON_TTL :: s in r
  {
    if sessions == [] then []
    else
      var rest := KeepRecent(sessions[1..], now);
      assert forall s | s in sessions[1..] :: s in sessions;
      assert forall s | s in sessions :: s == sessions[0] || s in sessions[1..];
      if now - sessions[0].ts < USER_CON_TTL then [sessions[0]] + rest else rest
  }

  /** One session is kept exactly when it is younger than the time-to-live. */
  lemma KeepRecentSingle(session: UserSession, now: nat)
    requires session.ts <= now
    ensures KeepRecent([session], now) == if now - session.ts < USER_CON_TTL then [session] else []
  {
    assert [session][1..] == [];
  }

  /** Each session is judged on its own: pruning a concatenation prunes both parts, order kept. */
  lemma {:induction false} KeepRecentConcat(a: seq<UserSession>, c: seq<UserSession>, now: nat)
    requires SessionsNotAfter(a + c, now)
    ensures SessionsNotAfter(a, now) && SessionsNotAfter(c, now)
    ensures KeepRecent(a + c, now) == KeepRecent(a, now) + KeepRecent(c, now)
    decreases |a|
  {
    SessionsNotAfterParts(a, c, now);
    if a == [] {
      assert a + c == c;
    } else {
      var head := if now - a[0].ts < USER_CON_TTL then [a[0]] else [];
      assert (a + c)[0] == a[0];
      assert (a + c)[1..] == a[1..] + c;
      SessionsNotAfterParts([a[0]], a[1..] + c, now);
      KeepRecentConcat(a[1..], c, now);
      KeepRecentUnfold(a + c, now);
      KeepRecentUnfold(a, now);
    }
  }

  lemma KeepRecentUnfold(sessions: seq<UserSession>, now: nat)
    requires sessions != [] && SessionsNotAfter(sessions, now)
    ensures SessionsNotAfter(sessions[1..], now)
    ensures KeepRecent(sessions, now)
         == (if now - sessions[0].ts < USER_CON_TTL then [sessions[0]] else []) + KeepRecent(sessions[1..], now)
  {
    assert forall s | s in sessions[1..] :: s in sessions;
  }

  lemma SessionsNotAfterParts(a: seq<UserSession>, c: seq<UserSession>, now: nat)
    requires SessionsNotAfter(a + c, now)
    ensures SessionsNotAfter(a, now) && SessionsNotAfter(c, now)
  {
    assert forall s | s in a :: s in a + c;
    assert forall s | s in c :: s in a + c;
  }

  /** `find_user_session`: the first session with the token. */
  function FindUserSession(token: nat, sessions: seq<UserSession>): (r: Option<UserSession>)
    ensures r.None? <==> forall i | 0 <= i < |sessions| :: sessions[i].token != token
    ensures r.Some? ==> exists i | 0 <= i < |sessions| :: sessions[i] == r.value && r.value.token == token
                                  && forall j | 0 <= j < i :: sessions[j].token != token
  {
    match FirstSessionIndex(token, sessions)
    case None => None
    case Some(i) => Some(sessions[i])
  }

  function FirstSessionIndex(token: nat, sessions: seq<UserSession>): (r: Option<nat>)
    ensures r.None? <==> forall i | 0 <= i < |sessions| :: sessions[i].token != token
    ensures r.Some? ==> r.value < |sessions| && sessions[r.value].token == token
                        && forall j | 0 <= j < r.value :: sessions[j].token != token
  {
    if sessions == [] then None
    else if sessions[0].token == token then Some(0)
    else
      var r := FirstSessionIndex(token, sessions[1..]);
      assert forall i | 1 <= i < |sessions| :: sessions[i] == sessions[1..][i - 1];
      if r.Some? then Some(r.value + 1) else None
  }

  /** The search of `update_user_session` for the session with the token. */
  method SessionIndex(token: nat, sessions: seq<UserSession>) returns (found: Option<nat>)
    ensures found == FirstSessionIndex(token, sessions)
  {
    found := None;
    var i := 0;
    while i < |sessions|
      invariant 0 <= i <= |sessions|
      invariant forall j | 0 <= j < i :: sessions[j].token != token
    {
      if sessions[i].token == token {
        return Some(i);
      }
      i := i + 1;
    }
  }

  /** The connections of all users together. */
  ghost function SumConnections(users: map<string, UserConnectionData>): nat
    decreases |users.Keys|
  {
    if users == map[] then 0
    else
      var u :| u in users;
      users[u].connections + SumConnections(users - {u})
  }

  /** The sum does not depend on which user is taken first. */
  lemma {:induction false} SumConnectionsRemove(users: map<string, UserConnectionData>, u: string)
    requires u in users
    ensures SumConnections(users) == users[u].connections + SumConnections(users - {u})
    decreases |users.Keys|
  {
    var v :| v in users && SumConnections(users) == users[v].connections + SumConnections(users - {v});
    if v != u {
      var both := users - {u} - {v};
      assert users - {v} - {u} == both;
      assert (users - {v}).Keys == users.Keys - {v};
      assert (users - {u}).Keys == users.Keys - {u};
      SumConnectionsRemove(users - {v}, u);
      SumConnectionsRemove(users - {u}, v);
    }
  }

  /** Replacing one user's data changes the total by the difference of their counters. */
  lemma SumConnectionsUpdate(users: map<string, UserConnectionData>, u: string, d: UserConnectionData)
    ensures SumConnections(users[u := d]) + (if u in users then users[u].connections else 0)
         == SumConnections(users) + d.connections
  {
    SumConnectionsRemove(users[u := d], u);
    assert users[u := d] - {u} == users - {u};
    if u in users {
      SumConnectionsRemove(users, u);
    } else {
      assert users - {u} == users;
    }
  }

  /** One user's data with only its recent sessions. */
  function Pruned(cd: UserConnectionData, now: nat): (r: UserConnectionData)
    requires SessionsNotAfter(cd.sessions, now)
    ensures r == cd.(sessions := r.sessions) && SessionsNotAfter(r.sessions, now)
    ensures GraceReset(cd) ==> GraceReset(r)
  {
    cd.(sessions := KeepRecent(cd.sessions, now))
  }

  /** Every user's data, pruned. */
  function GcUsers(users: map<string, UserConnectionData>, now: nat): (r: map<string, UserConnectionData>)
    requires forall u | u in users :: SessionsNotAfter(users[u].sessions, now)
    ensures r.Keys == users.Keys
  {
    map u | u in users :: Pruned(users[u], now)
  }

  /** The collector runs when more than the time-to-live has passed since its last run. */
  predicate GcDue(gcTs: Option<nat>, now: nat) {
    gcTs.Some? && gcTs.value <= now && now - gcTs.value > USER_CON_TTL
  }

  class ActiveUserManager {
    const gracePeriodMillis: nat
    const gracePeriodTimeoutSecs: nat
    var users: map<string, UserConnectionData>
    /** The time of the last collection; `None` on the clones handed to connection guards. */
    var gcTs: Option<nat>

    /** Every user keeps its grace fields cleared together. */
    predicate Valid()
      reads this
    {
      forall u | u in users :: GraceReset(users[u])
    }

    /** No stored timestamp lies after `now`. */
    predicate NotBefore(now: nat)
      reads this
    {
      (gcTs.Some? ==> gcTs.value <= now)
      && forall u | u in users :: users[u].graceTs <= now && SessionsNotAfter(users[u].sessions, now)
    }

    /** `ActiveUserManager::new` */
    constructor (gracePeriodMillis: nat, gracePeriodTimeoutSecs: nat, now: nat)
      ensures Valid() && NotBefore(now)
      ensures this.gracePeriodMillis == gracePeriodMillis && this.gracePeriodTimeoutSecs == gracePeriodTimeoutSecs
      ensures users == map[] && gcTs == Some(now)
    {
      this.gracePeriodMillis := gracePeriodMillis;
      this.gracePeriodTimeoutSecs := gracePeriodTimeoutSecs;
      users := map[];
      gcTs := Some(now);
    }

    /** `check_connection_permission`, updating the user's entry in place. */
    method CheckConnectionPermission(username: string, now: nat) returns (p: UserConnectionPermission)
      requires username in users && Valid() && NotBefore(now)
      modifies this
      ensures Valid() && NotBefore(now) && gcTs == old(gcTs)
      ensures var r := Decide(old(users)[username], now, gracePeriodMillis, gracePeriodTimeoutSecs);
        p == r.0 && users == old(users)[username := r.1]
    {
      var cd := users[username];
      var currentConnections := cd.connections;
      if currentConnections < cd.maxConnections {
        cd := cd.(grantedGrace := false, graceTs := 0);
        users := users[username := cd];
        return Allowed;
      }
      if cd.grantedGrace {
        if currentConnections > cd.maxConnections && now - cd.graceTs <= gracePeriodTimeoutSecs {
          return Exhausted;
        }
        cd := cd.(grantedGrace := false, graceTs := 0);
      }
      if gracePeriodMillis > 0 && currentConnections == cd.maxConnections {
        cd := cd.(grantedGrace := true, graceTs := now);
        users := users[username := cd];
        return GracePeriod;
      }
      users := users[username := cd];
      return Exhausted;
    }

    /** `connection_permission`: unlimited users and unknown users are always allowed. */
    method ConnectionPermission(username: string, maxConnections: nat, now: nat) returns (p: UserConnectionPermission)
      requires Valid() && NotBefore(now)
      modifies this
      ensures Valid() && NotBefore(now) && gcTs == old(gcTs)
      ensures maxConnections == 0 || username !in old(users) ==> p == Allowed && users == old(users)
      ensures maxConnections > 0 && username in old(users) ==>
        var r := Decide(old(users)[username], now, gracePeriodMillis, gracePeriodTimeoutSecs);
        p == r.0 && users == old(users)[username := r.1]
    {
      if maxConnections > 0 && username in users {
        p := CheckConnectionPermission(username, now);
        return;
      }
      return Allowed;
    }

    /** `add_connection`: one more connection, and the user's current limit. */
    method AddConnection(username: string, maxConnections: nat)
      requires Valid()
      modifies this
      ensures Valid() && gcTs == old(gcTs)
      ensures username in old(users) ==>
        users == old(users)[username := old(users)[username].(connections := old(users)[username].connections + 1,
                                                            maxConnections := maxConnections)]
      ensures username !in old(users) ==> users == old(users)[username := NewConnectionData(1, maxConnections)]
      ensures forall now: nat :: old(NotBefore(now)) ==> NotBefore(now)
    {
      if username in users {
        var cd := users[username];
        cd := cd.(connections := cd.connections + 1, maxConnections := maxConnections);
        users := users[username := cd];
      } else {
        users := users[username := NewConnectionData(1, maxConnections)];
      }
    }

    /** `remove_connection`: one connection less, never below zero; grace is cleared once the user is under the limit or idle. */
    method RemoveConnection(username: string)
      requires Valid()
      modifies this
      ensures Valid() && gcTs == old(gcTs)
      ensures username !in old(users) ==> users == old(users)
      ensures username in old(users) ==>
        var cd := old(users)[username];
        var c := if cd.connections > 0 then cd.connections - 1 else 0;
        users == old(users)[username := if c == 0 || c < cd.maxConnections
                                        then cd.(connections := c, grantedGrace := false, graceTs := 0)
                                        else cd.(connections := c)]
      ensures forall now: nat :: old(NotBefore(now)) ==> NotBefore(now)
    {
      if username in users {
        var cd := users[username];
        if cd.connections > 0 {
          cd := cd.(connections := cd.connections - 1);
        }
        if cd.connections == 0 || cd.connections < cd.maxConnections {
          cd := cd.(grantedGrace := false, graceTs := 0);
        }
        users := users[username := cd];
      }
    }

    /** `gc`: when due, drops every session older than the time-to-live and records the time. */
    method Gc(now: nat)
      requires Valid() && NotBefore(now)
      modifies this
      ensures Valid() && NotBefore(now)
      ensures GcDue(old(gcTs), now) ==> users == GcUsers(old(users), now) && gcTs == Some(now)
      ensures !GcDue(old(gcTs), now) ==> users == old(users) && gcTs == old(gcTs)
    {
      if gcTs.Some? {
        var ts := gcTs.value;
        if now - ts > USER_CON_TTL {
          ghost var before := users;
          var pending := users.Keys;
          while pending != {}
            invariant pending <= users.Keys && users.Keys == before.Keys
            invariant forall u | u in users :: users[u] == if u in pending then before[u] else Pruned(before[u], now)
            decreases pending
          {
            var u :| u in pending;
            var cd := users[u];
            users := users[u := cd.(sessions := KeepRecent(cd.sessions, now))];
            pending := pending - {u};
          }
          assert users == GcUsers(before, now);
          gcTs := Some(now);
        }
      }
    }

    /** `create_user_session`: after collecting, appends one session with the given token and returns the token. */
    method CreateUserSession(username: string, maxConnections: nat, virtualId: nat, provider: string, streamUrl: string,
                             permission: UserConnectionPermission, token: nat, now: nat) returns (r: Option<nat>)
      requires Valid() && NotBefore(now)
      modifies this
      ensures Valid() && NotBefore(now)
      ensures r == Some(token)
      ensures var base := if GcDue(old(gcTs), now) then GcUsers(old(users), now) else old(users);
        var cd := if username in base then base[username] else NewConnectionData(0, maxConnections);
        users == base[username := cd.(sessions := cd.sessions + [UserSession(token, virtualId, provider, streamUrl, now, permission)])]
    {
      Gc(now);
      var session := UserSession(token, virtualId, provider, streamUrl, now, permission);
      if username in users {
        var cd := users[username];
        cd := cd.(sessions := cd.sessions + [session]);
        users := users[username := cd];
        return Some(token);
      } else {
        var cd := NewConnectionData(0, maxConnections);
        cd := cd.(sessions := cd.sessions + [session]);
        users := users[username := cd];
        return Some(token);
      }
    }

    /**
     * `update_user_session`: the session with the token. For a limited user a
     * session running on a grace period has its permission decided again.
     */
    method UpdateUserSession(username: string, token: nat, now: nat) returns (r: Option<UserSession>)
      requires Valid() && NotBefore(now)
      modifies this
      ensures Valid() && NotBefore(now) && gcTs == old(gcTs)
      ensures username !in old(users) ==> r == None && users == old(users)
      ensures username in old(users) && old(users)[username].maxConnections == 0
              ==> r == FindUserSession(token, old(users)[username].sessions) && users == old(users)
      ensures username in old(users) && old(users)[username].maxConnections > 0 ==>
        var cd := old(users)[username];
        match FirstSessionIndex(token, cd.sessions)
        case None => r == None && users == old(users)
        case Some(i) =>
          if cd.sessions[i].permission == GracePeriod then
            var d := Decide(cd, now, gracePeriodMillis, gracePeriodTimeoutSecs);
            var s := cd.sessions[i].(permission := d.0);
            r == Some(s) && users == old(users)[username := d.1.(sessions := cd.sessions[i := s])]
          else r == Some(cd.sessions[i]) && users == old(users)
    {
      if username !in users {
        return None;
      }
      var cd := users[username];
      if cd.maxConnections == 0 {
        return FindUserSession(token, cd.sessions);
      }
      var found := SessionIndex(token, cd.sessions);
      if found.Some? {
        var index := found.value;
        if cd.sessions[index].permission == GracePeriod {
          var newPermission := CheckConnectionPermission(username, now);
          var session := SetSessionPermission(username, index, newPermission, now);
          return Some(session);
        }
        return Some(cd.sessions[index]);
      }
      return None;
    }

    /** Sets the permission of one of a user's sessions, in place. */
    method SetSessionPermission(username: string, index: nat, permission: UserConnectionPermission, now: nat)
      returns (session: UserSession)
      requires username in users && index < |users[username].sessions| && Valid() && NotBefore(now)
      modifies this
      ensures Valid() && NotBefore(now) && gcTs == old(gcTs)
      ensures var cd := old(users)[username];
        session == cd.sessions[index].(permission := permission)
        && users == old(users)[username := cd.(sessions := cd.sessions[index := session])]
    {
      var cd := users[username];
      session := cd.sessions[index].(permission := permission);
      var sessions := cd.sessions[index := session];
      assert forall s | s in sessions :: s == session || s in cd.sessions;
      users := users[username := cd.(sessions := sessions)];
    }

    /** `get_active_connections`: the sum of all users' counters. */
    method ActiveConnections() returns (n: nat)
      ensures n == SumConnections(users)
    {
      n := 0;
      var rest := users;
      while rest != map[]
        invariant n + SumConnections(rest) == SumConnections(users)
        decreases |rest.Keys|
      {
        var u :| u in rest;
        SumConnectionsRemove(rest, u);
        n := n + rest[u].connections;
        rest := rest - {u};
      }
    }
  }

  /** Adding a connection raises the total by one. */
  lemma AddConnectionTotal(users: map<string, UserConnectionData>, username: string, maxConnections: nat)
    ensures var d := if username in users
                     then users[username].(connections := users[username].connections + 1, maxConnections := maxConnections)
                     else NewConnectionData(1, maxConnections);
      SumConnections(users[username := d]) == SumConnections(users) + 1
  {
    var d := if username in users
             then users[username].(connections := users[username].connections + 1, maxConnections := maxConnections)
             else NewConnectionData(1, maxConnections);
    SumConnectionsUpdate(users, username, d);
  }

  /** Removing a connection of a user who has one lowers the total by one. */
  lemma RemoveConnectionTotal(users: map<string, UserConnectionData>, username: string, d: UserConnectionData)
    requires username in users && users[username].connections > 0
    requires d.connections == users[username].connections - 1
    ensures SumConnections(users[username := d]) + 1 == SumConnections(users)
  {
    SumConnectionsUpdate(users, username, d);
  }
}
