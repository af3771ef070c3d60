/**
  Login sessions and the registry of realtime connections opened under them
  (`repositories/sessions.py`, `domain/session.py`).
 */
module Sessions {
  import opened Wrappers

  type SessionId = nat
  type DeviceId = nat
  type ClientId = nat

  datatype RevocationReason = LogoutDevice | LogoutAll | PasswordChange | AdminDisable | Expired

  datatype Revocation = Revocation(at: int, reason: RevocationReason)

  datatype Session = Session(user: UserId, device: DeviceId, expiresAt: int, revoked: Option<Revocation>) {
    predicate IsLiveAt(moment: int) {
      revoked.None? && expiresAt > moment
    }
  }

  datatype Connection = Connection(session: SessionId, user: UserId, refreshedAt: int)

  datatype Tables = Tables(sessions: map<SessionId, Session>, registry: map<ClientId, Connection>)

  // ----- What each operation does -----

  function Ensured(t: Tables, id: SessionId, user: UserId, device: DeviceId, expiresAt: int): Tables {
    if id !in t.sessions then t.(sessions := t.sessions[id := Session(user, device, expiresAt, None)])
    else if t.sessions[id].revoked.None? && t.sessions[id].user == user then
      t.(sessions := t.sessions[id := t.sessions[id].(device := device, expiresAt := expiresAt)])
    else t
  }

  function ClientsOf(t: Tables, ids: set<SessionId>): set<ClientId> {
    set c | c in t.registry && t.registry[c].session in ids
  }

  /** Marks the sessions and removes their connections, in one transaction. */
  function Revoked(t: Tables, ids: set<SessionId>, mark: Revocation): Tables {
    Tables(map id | id in t.sessions :: if id in ids then t.sessions[id].(revoked := Some(mark)) else t.sessions[id],
           t.registry - ClientsOf(t, ids))
  }

  predicate Revocable(t: Tables, id: SessionId, user: UserId) {
    id in t.sessions && t.sessions[id].user == user && t.sessions[id].revoked.None?
  }

  function OpenSessions(t: Tables, user: UserId): set<SessionId> {
    set id | id in t.sessions && Revocable(t, id, user)
  }

  predicate Admits(t: Tables, id: SessionId, user: UserId, now: int) {
    id in t.sessions && t.sessions[id].user == user && t.sessions[id].IsLiveAt(now)
  }

  /** A client id already registered under another session keeps its row as it is. */
  function Registered(t: Tables, id: SessionId, user: UserId, client: ClientId, now: int): Tables {
    if !Admits(t, id, user, now) then t
    else if client in t.registry && (t.registry[client].session != id || t.registry[client].user != user) then t
    else t.(registry := t.registry[client := Connection(id, user, now)])
  }

  predicate Refreshable(t: Tables, id: SessionId, user: UserId, client: ClientId, now: int) {
    && client in t.registry && t.registry[client].session == id && t.registry[client].user == user
    && Admits(t, id, user, now)
  }

  function Stale(t: Tables, window: nat, now: int): set<ClientId> {
    set c | c in t.registry && t.registry[c].refreshedAt < now - window
  }

  /** Fills one set per session from the pairs the database returned. */
  method SortBySession(found: map<ClientId, SessionId>, ids: set<SessionId>) returns (bySession: map<SessionId, set<ClientId>>)
    requires found.Values <= ids
    ensures bySession.Keys == ids
    ensures forall id, c | id in ids :: c in bySession[id] <==> c in found && found[c] == id
  {
    bySession := map id | id in ids :: {};
    var left := found.Keys;
    while left != {}
      invariant left <= found.Keys && bySession.Keys == ids
      invariant forall id, c | id in ids :: c in bySession[id] <==> c in found && c !in left && found[c] == id
      decreases left
    {
      var c :| c in left;
      assert found[c] in found.Values;
      bySession := bySession[found[c] := bySession[found[c]] + {c}];
      left := left - {c};
    }
  }

  class Store {
    var sessions: map<SessionId, Session>
    var registry: map<ClientId, Connection>

    function Now(): Tables
      reads this
    {
      Tables(sessions, registry)
    }

    constructor ()
      ensures Now() == Tables(map[], map[])
    {
      sessions, registry := map[], map[];
    }

    method EnsureSession(id: SessionId, user: UserId, device: DeviceId, expiresAt: int) returns (session: Session)
      modifies this
      ensures registry == old(registry) && sessions.Keys == old(sessions).Keys + {id} && session == sessions[id]
      ensures forall other | other in old(sessions) && other != id :: sessions[other] == old(sessions)[other]
      ensures id !in old(sessions) ==> session == Session(user, device, expiresAt, None)
      ensures id in old(sessions) ==>
                session == if old(sessions)[id].revoked.None? && old(sessions)[id].user == user
                           then Session(user, device, expiresAt, None) else old(sessions)[id]
    {
      if id !in sessions {
        sessions := sessions[id := Session(user, device, expiresAt, None)];
      } else if sessions[id].revoked.None? && sessions[id].user == user {
        sessions := sessions[id := sessions[id].(device := device, expiresAt := expiresAt)];
      }
      session := sessions[id];
    }

    /** `None` when there was nothing to revoke; otherwise the clients to disconnect. */
    method RevokeSession(id: SessionId, user: UserId, reason: RevocationReason, now: int) returns (clients: Option<set<ClientId>>)
      modifies this
      ensures clients.Some? <==> id in old(sessions) && old(sessions)[id].user == user && old(sessions)[id].revoked.None?
      ensures clients.None? ==> sessions == old(sessions) && registry == old(registry)
      ensures clients.Some? ==>
                && sessions == old(sessions)[id := old(sessions)[id].(revoked := Some(Revocation(now, reason)))]
                && (forall c :: c in clients.value <==> c in old(registry) && old(registry)[c].session == id)
                && registry == old(registry) - clients.value
    {
      if !Revocable(Now(), id, user) {
        return None;
      }
      ghost var was := Now();
      sessions := sessions[id := sessions[id].(revoked := Some(Revocation(now, reason)))];
      var found := ClientsOf(Now(), {id});
      registry := registry - found;
      assert found == ClientsOf(was, {id});
      assert sessions == Revoked(was, {id}, Revocation(now, reason)).sessions;
      clients := Some(found);
    }

    /** Revokes every open session of the user; the clients come back sorted out by session. */
    method RevokeUserSessions(user: UserId, reason: RevocationReason, now: int) returns (bySession: map<SessionId, set<ClientId>>)
      modifies this
      ensures forall id :: id in bySession <==> id in old(sessions) && old(sessions)[id].user == user && old(sessions)[id].revoked.None?
      ensures forall id, c | id in bySession :: c in bySession[id] <==> c in old(registry) && old(registry)[c].session == id
      ensures sessions.Keys == old(sessions).Keys
      ensures forall id | id in sessions ::
                sessions[id] == if id in bySession then old(sessions)[id].(revoked := Some(Revocation(now, reason))) else old(sessions)[id]
      ensures forall c :: c in registry <==> c in old(registry) && old(registry)[c].session !in bySession
      ensures forall c | c in registry :: registry[c] == old(registry)[c]
    {
      var ids := OpenSessions(Now(), user);
      ghost var was := Now();
      sessions := map id | id in sessions :: if id in ids then sessions[id].(revoked := Some(Revocation(now, reason))) else sessions[id];
      var found := map c | c in registry && registry[c].session in ids :: registry[c].session;
      assert found == map c | c in was.registry && was.registry[c].session in ids :: was.registry[c].session;
      registry := registry - ClientsOf(Now(), ids);
      assert Now() == Revoked(was, ids, Revocation(now, reason));
      bySession := SortBySession(found, ids);
      forall id | id in ids ensures bySession[id] == ClientsOf(was, {id}) {
        assert forall c :: c in ClientsOf(was, {id}) <==> c in found && found[c] == id;
      }
    }

    method RegisterRealtimeConnection(id: SessionId, user: UserId, client: ClientId, now: int) returns (admitted: bool)
      modifies this
      ensures sessions == old(sessions)
      ensures admitted <==>
                id in old(sessions) && old(sessions)[id].user == user && old(sessions)[id].revoked.None? && now < old(sessions)[id].expiresAt
      ensures !admitted ==> registry == old(registry)
      ensures admitted ==>
                registry == if client in old(registry) && (old(registry)[client].session != id || old(registry)[client].user != user)
                            then old(registry) else old(registry)[client := Connection(id, user, now)]
    {
      admitted := Admits(Now(), id, user, now);
      if !admitted {
        return;
      }
      if client !in registry {
        registry := registry[client := Connection(id, user, now)];
      } else if registry[client].session == id && registry[client].user == user {
        registry := registry[client := registry[client].(refreshedAt := now)];
      }
    }

    method RefreshRealtimeConnection(id: SessionId, user: UserId, client: ClientId, now: int) returns (alive: bool)
      modifies this
      ensures sessions == old(sessions)
      ensures alive <==>
                && client in old(registry) && old(registry)[client].session == id && old(registry)[client].user == user
                && id in old(sessions) && old(sessions)[id].user == user && old(sessions)[id].revoked.None? && now < old(sessions)[id].expiresAt
      ensures registry == if alive then old(registry)[client := Connection(id, user, now)] else old(registry)
    {
      alive := Refreshable(Now(), id, user, client, now);
      if alive {
        registry := registry[client := registry[client].(refreshedAt := now)];
      }
    }

    method DeleteStaleRealtimeConnections(window: nat, now: int) returns (count: nat)
      modifies this
      ensures sessions == old(sessions)
      ensures forall c :: c in registry <==> c in old(registry) && old(registry)[c].refreshedAt >= now - window
      ensures forall c | c in registry :: registry[c] == old(registry)[c]
      ensures count + |registry| == |old(registry)|
    {
      var stale := Stale(Now(), window, now);
      count := |stale|;
      assert registry.Keys == stale + (registry - stale).Keys;
      registry := registry - stale;
    }
  }

  // ----- Runs -----

  datatype Step =
    | Ensure(id: SessionId, user: UserId, device: DeviceId, expiresAt: int)
    | Revoke(id: SessionId, user: UserId, mark: Revocation)
    | RevokeUser(user: UserId, mark: Revocation)
    | Register(id: SessionId, user: UserId, client: ClientId, now: int)
    | Refresh(id: SessionId, user: UserId, client: ClientId, now: int)
    | DeleteStale(window: nat, now: int)

  function Next(t: Tables, step: Step): Tables {
    match step
    case Ensure(id, user, device, expiresAt) => Ensured(t, id, user, device, expiresAt)
    case Revoke(id, user, mark) => if Revocable(t, id, user) then Revoked(t, {id}, mark) else t
    case RevokeUser(user, mark) => Revoked(t, OpenSessions(t, user), mark)
    case Register(id, user, client, now) => Registered(t, id, user, client, now)
    case Refresh(id, user, client, now) => if Refreshable(t, id, user, client, now) then Registered(t, id, user, client, now) else t
    case DeleteStale(window, now) => t.(registry := t.registry - Stale(t, window, now))
  }

  /** From empty tables. */
  ghost function Run(steps: seq<Step>): Tables {
    if steps == [] then Tables(map[], map[]) else Next(Run(steps[..|steps| - 1]), steps[|steps| - 1])
  }

  /** What the outside has been told about a connection: admitted, handed back for disconnecting, or swept. */
  datatype Fate = Unknown | Open(session: SessionId, lastSeen: int) | HandedBack(session: SessionId) | Swept(session: SessionId, lastSeen: int, at: int, window: nat)

  /** The fate of a client, read off the answers of the operations in turn. */
  ghost function FateOf(steps: seq<Step>, client: ClientId): Fate {
    if steps == [] then Unknown
    else
      var before, step := steps[..|steps| - 1], steps[|steps| - 1];
      var d, fate := Run(before), FateOf(before, client);
      match step
      case Register(id, user, c, now) => if c == client && Admits(d, id, user, now) then Open(id, now) else fate
      case Refresh(id, user, c, now) => if c == client && Refreshable(d, id, user, c, now) then Open(id, now) else fate
      case Revoke(id, user, _) => if Revocable(d, id, user) && client in ClientsOf(d, {id}) then HandedBack(id) else fate
      case RevokeUser(user, _) =>
        if client in ClientsOf(d, OpenSessions(d, user)) then HandedBack(d.registry[client].session) else fate
      case DeleteStale(window, now) =>
        if client in Stale(d, window, now) && fate.Open? then Swept(fate.session, fate.lastSeen, now, window) else fate
      case Ensure(_, _, _, _) => fate
  }

  /** The session under which the client was last admitted. */
  ghost function AdmittedUnder(steps: seq<Step>, client: ClientId): Option<SessionId> {
    if steps == [] then None
    else
      var before, step := steps[..|steps| - 1], steps[|steps| - 1];
      if step.Register? && step.client == client && Admits(Run(before), step.id, step.user, step.now) then Some(step.id)
      else AdmittedUnder(before, client)
  }

  /** The client id is registered under another session or for another user. */
  predicate Taken(t: Tables, id: SessionId, user: UserId, client: ClientId) {
    client in t.registry && (t.registry[client].session != id || t.registry[client].user != user)
  }

  /** No connection is ever admitted while its client id is taken. */
  ghost predicate NeverTaken(steps: seq<Step>) {
    forall k | 0 <= k < |steps| && steps[k].Register? && Admits(Run(steps[..k]), steps[k].id, steps[k].user, steps[k].now) ::
      !Taken(Run(steps[..k]), steps[k].id, steps[k].user, steps[k].client)
  }

  /** Client ids are unique: one is never presented under two sessions or two users. */
  ghost predicate UniqueClients(steps: seq<Step>) {
    forall i, j | 0 <= i < |steps| && 0 <= j < |steps| && steps[i].Register? && steps[j].Register? && steps[i].client == steps[j].client ::
      steps[i].id == steps[j].id && steps[i].user == steps[j].user
  }

  ghost predicate Presented(steps: seq<Step>, client: ClientId, id: SessionId, user: UserId) {
    exists i :: 0 <= i < |steps| && steps[i].Register? && steps[i].client == client && steps[i].id == id && steps[i].user == user
  }

  /** Every registered connection belongs to an unrevoked session of its own user. */
  ghost predicate NoOrphans(t: Tables) {
    forall c | c in t.registry ::
      && t.registry[c].session in t.sessions
      && t.sessions[t.registry[c].session].revoked.None?
      && t.sessions[t.registry[c].session].user == t.registry[c].user
  }

  lemma StepKeepsNoOrphans(t: Tables, step: Step)
    requires NoOrphans(t)
    ensures NoOrphans(Next(t, step))
  {
  }

  /** No registry row ever belongs to a revoked session. */
  lemma {:induction false} NoRowOfRevokedSession(steps: seq<Step>)
    ensures NoOrphans(Run(steps))
  {
    if steps != [] {
      NoRowOfRevokedSession(steps[..|steps| - 1]);
      StepKeepsNoOrphans(Run(steps[..|steps| - 1]), steps[|steps| - 1]);
    }
  }

  /** The registry agrees with what the outside was told about one client, and that speaks of the client's own session. */
  ghost predicate Agrees(t: Tables, fate: Fate, admitted: Option<SessionId>, client: ClientId) {
    && (client in t.registry <==> fate.Open?)
    && (fate.Open? ==> t.registry[client].session == fate.session && t.registry[client].refreshedAt == fate.lastSeen)
    && (fate.Swept? ==> fate.lastSeen < fate.at - fate.window)
    && (fate.HandedBack? ==> fate.session in t.sessions && t.sessions[fate.session].revoked.Some?)
    && (admitted == if fate.Unknown? then None else Some(fate.session))
  }

  ghost predicate Accounted(steps: seq<Step>, client: ClientId) {
    Agrees(Run(steps), FateOf(steps, client), AdmittedUnder(steps, client), client)
  }

  ghost predicate AlwaysAccounted(steps: seq<Step>) {
    forall k, client | 0 <= k <= |steps| :: Accounted(steps[..k], client)
  }

  lemma AccountedAfter(steps: seq<Step>, client: ClientId)
    requires steps != [] && NoOrphans(Run(steps[..|steps| - 1])) && Accounted(steps[..|steps| - 1], client)
    requires var step := steps[|steps| - 1];
             step.Register? && step.client == client && Admits(Run(steps[..|steps| - 1]), step.id, step.user, step.now) ==>
               !Taken(Run(steps[..|steps| - 1]), step.id, step.user, client)
    ensures Accounted(steps, client)
  {
  }

  lemma {:induction false} AccountedWhenNeverTaken(steps: seq<Step>, k: nat, client: ClientId)
    requires NeverTaken(steps) && k <= |steps|
    ensures Accounted(steps[..k], client)
  {
    if k > 0 {
      assert steps[..k][..k - 1] == steps[..k - 1];
      NoRowOfRevokedSession(steps[..k - 1]);
      AccountedWhenNeverTaken(steps, k - 1, client);
      AccountedAfter(steps[..k], client);
    }
  }

  /** Admitted under a taken id: the outside believes the connection open under a session the registry does not name. */
  lemma TakenIsUnaccounted(steps: seq<Step>, k: nat)
    requires k < |steps| && steps[k].Register? && Admits(Run(steps[..k]), steps[k].id, steps[k].user, steps[k].now)
    requires Taken(Run(steps[..k]), steps[k].id, steps[k].user, steps[k].client)
    ensures !Accounted(steps[..k + 1], steps[k].client)
  {
    assert steps[..k + 1][..k] == steps[..k];
    NoRowOfRevokedSession(steps[..k]);
  }

  /**
    At every point of a run every connection ever admitted is in exactly one place, still registered under its
    session, handed back by the revocation of that session, or swept after going unrefreshed for the whole window,
    if and only if no connection was admitted while its client id was taken.
   */
  lemma AccountedExactlyWhenNeverTaken(steps: seq<Step>)
    ensures AlwaysAccounted(steps) <==> NeverTaken(steps)
  {
    if NeverTaken(steps) {
      forall k, client | 0 <= k <= |steps| ensures Accounted(steps[..k], client) {
        AccountedWhenNeverTaken(steps, k, client);
      }
    } else {
      var k :| 0 <= k < |steps| && steps[k].Register? && Admits(Run(steps[..k]), steps[k].id, steps[k].user, steps[k].now)
               && Taken(Run(steps[..k]), steps[k].id, steps[k].user, steps[k].client);
      TakenIsUnaccounted(steps, k);
    }
  }

  lemma {:induction false} RegisteredWasPresented(steps: seq<Step>, client: ClientId)
    requires client in Run(steps).registry
    ensures Presented(steps, client, Run(steps).registry[client].session, Run(steps).registry[client].user)
  {
    var before, step := steps[..|steps| - 1], steps[|steps| - 1];
    var d := Run(before);
    if client in d.registry {
      RegisteredWasPresented(before, client);
      var i :| 0 <= i < |before| && before[i].Register? && before[i].client == client
               && before[i].id == d.registry[client].session && before[i].user == d.registry[client].user;
      assert steps[i] == before[i];
    } else {
      assert steps[|steps| - 1].Register?;
    }
  }

  /** Unique client ids are enough; a client id that comes back after its connection is gone does no harm either. */
  lemma UniqueIsNeverTaken(steps: seq<Step>)
    requires UniqueClients(steps)
    ensures NeverTaken(steps) && AlwaysAccounted(steps)
  {
    forall k | 0 <= k < |steps| && steps[k].Register? ensures !Taken(Run(steps[..k]), steps[k].id, steps[k].user, steps[k].client) {
      var before, client := steps[..k], steps[k].client;
      if client in Run(before).registry {
        RegisteredWasPresented(before, client);
        var i :| 0 <= i < |before| && before[i].Register? && before[i].client == client
                 && before[i].id == Run(before).registry[client].session && before[i].user == Run(before).registry[client].user;
        assert steps[i] == before[i];
      }
    }
    AccountedExactlyWhenNeverTaken(steps);
  }

  /** Two users present one client id: the second is admitted, and the revocation of his session does not name him. */
  lemma TakenClientIsNotHandedBack()
    ensures var steps := [Ensure(10, 1, 1, 100), Ensure(20, 2, 2, 100), Register(20, 2, 7, 3), Register(10, 1, 7, 5)];
            && Admits(Run(steps[..3]), 10, 1, 5) && FateOf(steps, 7) == Open(10, 5)
            && Revocable(Run(steps), 10, 1) && ClientsOf(Run(steps), {10}) == {}
  {
    var steps := [Ensure(10, 1, 1, 100), Ensure(20, 2, 2, 100), Register(20, 2, 7, 3), Register(10, 1, 7, 5)];
    var mine, theirs := Session(1, 1, 100, None), Session(2, 2, 100, None);
    assert steps[..1] == [steps[0]] && steps[..2] == [steps[0], steps[1]] && steps[..3] == [steps[0], steps[1], steps[2]];
    assert steps[..3][..2] == steps[..2] && steps[..2][..1] == steps[..1];
    assert Run(steps[..1]) == Tables(map[10 := mine], map[]);
    assert Run(steps[..2]) == Tables(map[10 := mine, 20 := theirs], map[]);
    assert Run(steps[..3]) == Tables(map[10 := mine, 20 := theirs], map[7 := Connection(20, 2, 3)]);
  }

  /** A revocation, once set, keeps its moment and reason whatever follows, a new login included. */
  lemma {:induction false} RevocationIsFinal(before: seq<Step>, later: seq<Step>, id: SessionId)
    requires id in Run(before).sessions && Run(before).sessions[id].revoked.Some?
    ensures id in Run(before + later).sessions && Run(before + later).sessions[id] == Run(before).sessions[id]
    decreases |later|
  {
    if later == [] {
      assert before + later == before;
    } else {
      var n := |later| - 1;
      assert (before + later)[..|before| + n] == before + later[..n];
      RevocationIsFinal(before, later[..n], id);
    }
  }

  // ----- What a session is, read off the logins and the revocations -----

  /** Whoever logged in under the id first. */
  ghost function OwnerOf(steps: seq<Step>, id: SessionId): Option<UserId> {
    if steps == [] then None
    else
      var owner, step := OwnerOf(steps[..|steps| - 1], id), steps[|steps| - 1];
      if owner.None? && step.Ensure? && step.id == id then Some(step.user) else owner
  }

  /** The first revocation by the owner, of the session or of all his. */
  ghost function RevocationOf(steps: seq<Step>, id: SessionId): Option<Revocation> {
    if steps == [] then None
    else
      var before, step := steps[..|steps| - 1], steps[|steps| - 1];
      var mark := RevocationOf(before, id);
      if mark.None? && ((step.Revoke? && step.id == id) || step.RevokeUser?) && OwnerOf(before, id) == Some(step.user)
      then Some(step.mark) else mark
  }

  /** The expiry and device of the owner's latest login before the revocation. */
  ghost function LoginOf(steps: seq<Step>, id: SessionId): Option<(DeviceId, int)> {
    if steps == [] then None
    else
      var before, step := steps[..|steps| - 1], steps[|steps| - 1];
      if step.Ensure? && step.id == id && RevocationOf(before, id).None? && OwnerOf(steps, id) == Some(step.user)
      then Some((step.device, step.expiresAt)) else LoginOf(before, id)
  }

  ghost predicate SessionAsTold(steps: seq<Step>, id: SessionId) {
    var t := Run(steps);
    if id in t.sessions then
      && OwnerOf(steps, id) == Some(t.sessions[id].user) && RevocationOf(steps, id) == t.sessions[id].revoked
      && LoginOf(steps, id) == Some((t.sessions[id].device, t.sessions[id].expiresAt))
    else OwnerOf(steps, id).None? && RevocationOf(steps, id).None? && LoginOf(steps, id).None?
  }

  /** The stored session is exactly what the logins and revocations make of it. */
  lemma {:induction false} SessionTellsHistory(steps: seq<Step>, id: SessionId)
    ensures SessionAsTold(steps, id)
  {
    if steps != [] { SessionTellsHistory(steps[..|steps| - 1], id); }
  }

  /**
    A connection is admitted, and a registered one kept alive, if and only if the session is the user's, was not revoked
    and has not reached the expiry of its latest login: read off the steps, at any point of any run.
   */
  lemma AdmittedExactlyWhen(steps: seq<Step>, id: SessionId, user: UserId, client: ClientId, now: int)
    ensures Admits(Run(steps), id, user, now) <==>
            OwnerOf(steps, id) == Some(user) && RevocationOf(steps, id).None? && LoginOf(steps, id).Some? && now < LoginOf(steps, id).value.1
    ensures Refreshable(Run(steps), id, user, client, now) <==>
            && client in Run(steps).registry && Run(steps).registry[client].session == id && Run(steps).registry[client].user == user
            && OwnerOf(steps, id) == Some(user) && RevocationOf(steps, id).None? && LoginOf(steps, id).Some? && now < LoginOf(steps, id).value.1
  {
    SessionTellsHistory(steps, id);
  }
}
